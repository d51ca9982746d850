/** The card drawn for each node of a tree: the amount it picks, the
    style class of its account type, its balance text and its content for
    each kind of node. */
module Card {
  import opened Entity
  import opened Format

  /** `getNodeValue`: a truthy balance, else a truthy net worth, else a
      zero GBP amount. The result is always truthy. */
  function NodeValue(n: Node): (m: Money)
    ensures MoneyTruthy(n.balance) ==> m == n.balance.value
    ensures !MoneyTruthy(n.balance) && MoneyTruthy(n.netWorth) ==> m == n.netWorth.value
    ensures !MoneyTruthy(n.balance) && !MoneyTruthy(n.netWorth) ==> m == Amount(DefaultCurrency, 0.0)
    ensures MoneyTruthy(Some(m))
  {
    if MoneyTruthy(n.balance) then n.balance.value
    else if MoneyTruthy(n.netWorth) then n.netWorth.value
    else Amount(DefaultCurrency, 0.0)
  }

  // ---------------------------------------------------------------------
  // Lower-casing and substring search

  /** `toLowerCase` on the ASCII letters. */
  function LowerChar(c: char): (d: char)
    ensures 'A' <= c <= 'Z' ==> d as int == c as int + 32
    ensures !('A' <= c <= 'Z') ==> d == c
    ensures !('A' <= d <= 'Z')
  {
    if 'A' <= c <= 'Z' then (c as int + 32) as char else c
  }

  function ToLower(s: string): (r: string)
    ensures |r| == |s|
    ensures forall i :: 0 <= i < |s| ==> r[i] == LowerChar(s[i])
  {
    if s == [] then [] else [LowerChar(s[0])] + ToLower(s[1..])
  }

  /** Lower-casing twice is lower-casing once. */
  lemma ToLowerIdempotent(s: string)
    ensures ToLower(ToLower(s)) == ToLower(s)
  {
    var t := ToLower(s);
    assert forall i :: 0 <= i < |t| ==> LowerChar(t[i]) == t[i];
  }

  /** `sub` occurs in `s` at position `i`. */
  predicate OccursAt(s: string, sub: string, i: int) {
    0 <= i <= |s| - |sub| && s[i..i + |sub|] == sub
  }

  /** `s.includes(sub)`, scanning from the left. */
  function Contains(s: string, sub: string): bool
    decreases |s|
  {
    if |sub| > |s| then false
    else if s[..|sub|] == sub then true
    else Contains(s[1..], sub)
  }

  lemma OccursShift(s: string, sub: string, i: int)
    requires |s| > 0 && i >= 1
    ensures OccursAt(s, sub, i) <==> OccursAt(s[1..], sub, i - 1)
  {
    if 0 <= i - 1 <= |s[1..]| - |sub| {
      assert s[i..i + |sub|] == s[1..][i - 1..i - 1 + |sub|];
    }
  }

  /** The scan finds `sub` exactly when it occurs somewhere in `s`. */
  lemma {:induction false} ContainsIffOccurs(s: string, sub: string)
    ensures Contains(s, sub) <==> exists i :: OccursAt(s, sub, i)
    decreases |s|
  {
    if |sub| > |s| {
    } else if s[..|sub|] == sub {
      assert OccursAt(s, sub, 0);
    } else {
      ContainsIffOccurs(s[1..], sub);
      if Contains(s[1..], sub) {
        var j :| OccursAt(s[1..], sub, j);
        OccursShift(s, sub, j + 1);
      } else {
        forall i | OccursAt(s, sub, i) ensures false {
          if i >= 1 { OccursShift(s, sub, i); }
        }
      }
    }
  }

  // ---------------------------------------------------------------------
  // Account-type classes

  /** The style classes a card can carry for its account type. */
  datatype TypeClass = NoClass | InvestmentClass | PropertyClass | CryptoClass | BankClass | CreditClass | LoanClass | InsuranceClass

  /** The if-chain of `getAccountTypeClass` on a lower-cased type. */
  function Classify(t: string): TypeClass {
    if Contains(t, "isa") || Contains(t, "sipp") || Contains(t, "gia") then InvestmentClass
    else if Contains(t, "property") || Contains(t, "rental") then PropertyClass
    else if Contains(t, "crypto") then CryptoClass
    else if Contains(t, "savings") || Contains(t, "checking") then BankClass
    else if Contains(t, "credit") then CreditClass
    else if Contains(t, "mortgage") || Contains(t, "loan") then LoanClass
    else if Contains(t, "insurance") then InsuranceClass
    else NoClass
  }

  /** The same rules as a table: each class with its keywords, in the
      order they are tried. */
  datatype Rule = Rule(cls: TypeClass, keywords: seq<string>)

  const Rules: seq<Rule> := [
    Rule(InvestmentClass, ["isa", "sipp", "gia"]),
    Rule(PropertyClass, ["property", "rental"]),
    Rule(CryptoClass, ["crypto"]),
    Rule(BankClass, ["savings", "checking"]),
    Rule(CreditClass, ["credit"]),
    Rule(LoanClass, ["mortgage", "loan"]),
    Rule(InsuranceClass, ["insurance"])]

  predicate Matches(t: string, r: Rule) {
    exists k :: k in r.keywords && Contains(t, k)
  }

  /** The class of the first rule from index `i` on that matches, or no
      class. */
  function FirstMatch(rules: seq<Rule>, i: nat, t: string): TypeClass
    decreases |rules| - i
  {
    if i >= |rules| then NoClass
    else if rules[i].cls != NoClass && Matches(t, rules[i]) then rules[i].cls
    else FirstMatch(rules, i + 1, t)
  }

  /** First match wins: a class is found exactly when some rule matches,
      and it is the class of the earliest matching rule. */
  lemma {:induction false} FirstMatchSpec(rules: seq<Rule>, i: nat, t: string)
    ensures var c := FirstMatch(rules, i, t);
      && (c == NoClass <==> forall k :: i <= k < |rules| && rules[k].cls != NoClass ==> !Matches(t, rules[k]))
      && (c != NoClass ==> exists k :: i <= k < |rules| && rules[k].cls == c && Matches(t, rules[k]) &&
                              forall j :: i <= j < k ==> !Matches(t, rules[j]) || rules[j].cls == NoClass)
    decreases |rules| - i
  {
    if i < |rules| && !(rules[i].cls != NoClass && Matches(t, rules[i])) {
      FirstMatchSpec(rules, i + 1, t);
    }
  }

  lemma MatchesOne(t: string, r: Rule)
    requires |r.keywords| == 1
    ensures Matches(t, r) <==> Contains(t, r.keywords[0])
  {
    if Contains(t, r.keywords[0]) { assert r.keywords[0] in r.keywords; }
  }

  lemma MatchesTwo(t: string, r: Rule)
    requires |r.keywords| == 2
    ensures Matches(t, r) <==> Contains(t, r.keywords[0]) || Contains(t, r.keywords[1])
  {
    if Contains(t, r.keywords[0]) { assert r.keywords[0] in r.keywords; }
    if Contains(t, r.keywords[1]) { assert r.keywords[1] in r.keywords; }
  }

  lemma MatchesThree(t: string, r: Rule)
    requires |r.keywords| == 3
    ensures Matches(t, r) <==> Contains(t, r.keywords[0]) || Contains(t, r.keywords[1]) || Contains(t, r.keywords[2])
  {
    if Contains(t, r.keywords[0]) { assert r.keywords[0] in r.keywords; }
    if Contains(t, r.keywords[1]) { assert r.keywords[1] in r.keywords; }
    if Contains(t, r.keywords[2]) { assert r.keywords[2] in r.keywords; }
  }

  /** The if-chain agrees with the rule table. */
  lemma ClassifyIsFirstMatch(t: string)
    ensures Classify(t) == FirstMatch(Rules, 0, t)
  {
    MatchesThree(t, Rules[0]);
    MatchesTwo(t, Rules[1]);
    MatchesOne(t, Rules[2]);
    MatchesTwo(t, Rules[3]);
    MatchesOne(t, Rules[4]);
    MatchesTwo(t, Rules[5]);
    MatchesOne(t, Rules[6]);
    assert FirstMatch(Rules, 7, t) == NoClass;
  }

  /** `getAccountTypeClass`: no class without a truthy account type in
      the details, otherwise the class of its lower-cased form. */
  function AccountTypeClass(n: Node): (c: TypeClass)
    ensures (n.details.None? || !TextTruthy(n.details.value.accountType)) ==> c == NoClass
    ensures n.details.Some? && TextTruthy(n.details.value.accountType) ==>
              c == FirstMatch(Rules, 0, ToLower(n.details.value.accountType.value))
  {
    if n.details.None? || !TextTruthy(n.details.value.accountType) then NoClass
    else
      ClassifyIsFirstMatch(ToLower(n.details.value.accountType.value));
      Classify(ToLower(n.details.value.accountType.value))
  }

  /** The class does not depend on letter case. */
  lemma AccountTypeClassIgnoresCase(n: Node, t: string)
    requires n.details.Some? && n.details.value.accountType == Some(t) && t != ""
    ensures AccountTypeClass(n) == AccountTypeClass(n.(details := Some(n.details.value.(accountType := Some(ToLower(t))))))
  {
    ToLowerIdempotent(t);
  }

  /** `data-account-type`: the lower-cased account type of the details,
      when there is one (an empty one included). */
  function DataAccountType(n: Node): (r: Option<string>)
    ensures r.Some? <==> n.details.Some? && n.details.value.accountType.Some?
    ensures r.Some? ==> r.value == ToLower(n.details.value.accountType.value)
  {
    if n.details.Some? && n.details.value.accountType.Some? then Some(ToLower(n.details.value.accountType.value))
    else None
  }

  // ---------------------------------------------------------------------
  // The balance text and the card

  /** `getFormattedBalance`: a dash without a truthy balance; an amount
      object in its currency or GBP; a legacy number, which has no
      currency and no amount field, formats an undefined amount in GBP. */
  function FormattedBalance(balance: Option<Money>): (t: Text)
    ensures t == Dash <==> !MoneyTruthy(balance)
    ensures balance.Some? && balance.value.Amount? ==>
              t == [Currency(CurrencyCode(balance.value.currency), balance.value.amount)]
    ensures MoneyTruthy(balance) && balance.value.Legacy? ==> t == [CurrencyNaN(DefaultCurrency)]
  {
    if !MoneyTruthy(balance) then Dash
    else match balance.value
      case Amount(currency, amount) => [Currency(CurrencyCode(currency), amount)]
      case Legacy(_) => [CurrencyNaN(DefaultCurrency)]
  }

  /** On an absent balance and on amount objects the card's balance text
      and the shared currency formatter agree; they differ only on legacy
      numbers. */
  lemma FormattedBalanceAgrees(balance: Option<Money>)
    ensures balance.None? || balance.value.Amount? ==> FormattedBalance(balance) == FormatCurrency(balance)
    ensures MoneyTruthy(balance) && balance.value.Legacy? ==> FormattedBalance(balance) != FormatCurrency(balance)
  {
  }

  /** What a card shows. An account shows its id, its balance text, its
      provider and, when the number is truthy, the masked number together
      with a hover title; a person its id and net worth; a company or a
      trust its id; a node without a kind nothing. */
  datatype Content =
    | AccountCard(title: string, balance: Text, provider: Text, masked: Option<string>, numberTitle: Option<string>)
    | PersonCard(title: string, netWorth: Text)
    | EntityCard(title: string)
    | EmptyCard

  function CardContent(n: Node): (c: Content)
    ensures c.AccountCard? <==> n.kind == Some(Account)
    ensures c.PersonCard? <==> n.kind == Some(Person)
    ensures c.EntityCard? <==> n.kind == Some(Company) || n.kind == Some(Trust)
    ensures c.EmptyCard? <==> n.kind.None?
    ensures !c.EmptyCard? ==> c.title == n.id
    ensures c.AccountCard? ==> c.balance == FormattedBalance(n.balance) && (c.masked.Some? <==> TextTruthy(n.accountNumber))
    ensures c.AccountCard? && c.masked.Some? ==>
              c.masked.value == Mask(n.accountNumber.value) && c.numberTitle == Some("****" + n.accountNumber.value)
    ensures c.AccountCard? && !TextTruthy(n.accountNumber) ==> c.masked == None && c.numberTitle == None
    ensures c.AccountCard? ==> c.provider == Show(n.providerName)
    ensures c.PersonCard? ==> c.netWorth == FormatCurrency(n.netWorth)
  {
    match n.kind
    case Some(Account) =>
      var masked := if TextTruthy(n.accountNumber) then Some(Mask(n.accountNumber.value)) else None;
      var title := if TextTruthy(n.accountNumber) then Some("****" + n.accountNumber.value) else None;
      AccountCard(n.id, FormattedBalance(n.balance), Show(n.providerName), masked, title)
    case Some(Person) => PersonCard(n.id, FormatCurrency(n.netWorth))
    case Some(Company) => EntityCard(n.id)
    case Some(Trust) => EntityCard(n.id)
    case None => EmptyCard
  }

  /** The classes of the card's container. */
  datatype Style = Style(personNode: bool, typeClass: TypeClass)

  function CardStyle(n: Node): (s: Style)
    ensures s.personNode <==> n.kind == Some(Person)
    ensures s.typeClass == AccountTypeClass(n)
  {
    Style(n.kind == Some(Person), AccountTypeClass(n))
  }

  /** An account card shows only the last four characters of a long
      number; its hover title shows all of it. */
  lemma AccountCardMask(n: Node)
    requires n.kind == Some(Account) && TextTruthy(n.accountNumber) && |n.accountNumber.value| >= 4
    ensures var c := CardContent(n);
      && c.masked == Some("****" + n.accountNumber.value[|n.accountNumber.value| - 4..])
      && c.numberTitle.value[4..] == n.accountNumber.value
  {
    var c := CardContent(n);
    var s := n.accountNumber.value;
    assert c.masked.value == c.masked.value[..4] + c.masked.value[4..];
  }
}
