/** The value formatters and their placeholder rules. The digits, symbols
    and month names that the locale-aware formatters produce are kept
    symbolic: a formatted value is a sequence of pieces, and a piece such
    as `Currency("GBP", 12.5)` stands for whatever the en-GB currency
    formatter prints for it. */
module Format {
  import opened Entity

  datatype Piece =
    | Lit(s: string)                        // literal text
    | Currency(code: string, amount: real)  // the en-GB currency formatter
    | CurrencyNaN(code: string)             // the currency formatter given no number
    | Fixed1(x: real)                       // `x.toFixed(1)`
    | LongDate(date: string)                // the long en-GB date of a date string
    | Localized(x: real)                    // `x.toLocaleString()`
    | Num(x: real)                          // a number rendered as it is

  type Text = seq<Piece>

  const Dash: Text := [Lit("-")]
  const ZeroPercent: Text := [Lit("0%")]
  const DefaultCurrency := "GBP"

  /** The currency of an amount object: its own code, or GBP when empty. */
  function CurrencyCode(currency: string): (c: string)
    ensures c != ""
    ensures currency != "" ==> c == currency
  {
    if currency == "" then DefaultCurrency else currency
  }

  /** `formatCurrency`: a dash for an absent value or the number 0; an
      amount object is always formatted, even at 0, in its own currency or
      GBP; a legacy number is formatted in GBP. */
  function FormatCurrency(m: Option<Money>): (t: Text)
    ensures t == Dash <==> !MoneyTruthy(m)
    ensures MoneyTruthy(m) ==> |t| == 1 && t[0].Currency? && t[0].code != ""
    ensures m.Some? && m.value.Amount? ==>
              t == [Currency(CurrencyCode(m.value.currency), m.value.amount)]
    ensures MoneyTruthy(m) && m.value.Legacy? ==> t == [Currency(DefaultCurrency, m.value.value)]
  {
    if !MoneyTruthy(m) then Dash
    else match m.value
      case Amount(currency, amount) => [Currency(CurrencyCode(currency), amount)]
      case Legacy(value) => [Currency(DefaultCurrency, value)]
  }

  /** `formatPercent`: "0%" for an absent value or 0, otherwise the value
      to one decimal followed by "%". */
  function FormatPercent(x: Option<real>): (t: Text)
    ensures t == ZeroPercent <==> !NumberTruthy(x)
    ensures NumberTruthy(x) ==> |t| == 2 && t[0] == Fixed1(x.value) && t[1] == Lit("%")
  {
    if !NumberTruthy(x) then ZeroPercent else [Fixed1(x.value), Lit("%")]
  }

  /** `formatDate`: nothing for an absent or empty date, otherwise its
      long form. */
  function FormatDate(d: Option<string>): (t: Text)
    ensures t == [] <==> !TextTruthy(d)
    ensures TextTruthy(d) ==> t == [LongDate(d.value)]
  {
    if !TextTruthy(d) then [] else [LongDate(d.value)]
  }

  /** An optional string placed in the markup: nothing when absent or empty. */
  function Show(s: Option<string>): (t: Text)
    ensures t == [] <==> !TextTruthy(s)
    ensures TextTruthy(s) ==> t == [Lit(s.value)]
  {
    if TextTruthy(s) then [Lit(s.value)] else []
  }

  /** An optional number placed in the markup: nothing when absent; 0 is
      rendered like any other number. */
  function ShowNumber(x: Option<real>): (t: Text)
    ensures t == [] <==> x.None?
    ensures x.Some? ==> t == [Num(x.value)]
  {
    if x.Some? then [Num(x.value)] else []
  }

  /** `s.slice(-n)`: the last `n` characters, or all of `s` when shorter;
      `slice(-0)` is `slice(0)`, all of `s`. */
  function LastChars(s: string, n: nat): (r: string)
    ensures n == 0 ==> r == s
    ensures n > 0 ==> |r| == if |s| < n then |s| else n
    ensures r == s[|s| - |r|..]
  {
    if n == 0 || |s| <= n then s else s[|s| - n..]
  }

  /** The account-number mask: four asterisks, then the last four
      characters of the number (all of it when shorter). */
  function Mask(s: string): (r: string)
    ensures |r| == 4 + (if |s| < 4 then |s| else 4)
    ensures r[..4] == "****"
    ensures r[4..] == s[|s| - (|r| - 4)..]
  {
    "****" + LastChars(s, 4)
  }

  /** Nothing but the last four characters survives the mask: two numbers
      that end alike mask alike. */
  lemma MaskDependsOnLastFour(s1: string, s2: string)
    requires |s1| >= 4 && |s2| >= 4 && s1[|s1| - 4..] == s2[|s2| - 4..]
    ensures Mask(s1) == Mask(s2)
  {
    assert Mask(s1)[4..] == Mask(s2)[4..];
    assert Mask(s1) == Mask(s1)[..4] + Mask(s1)[4..];
    assert Mask(s2) == Mask(s2)[..4] + Mask(s2)[4..];
  }
}
