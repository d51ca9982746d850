/** The detail panel of a selected node: an ordered list of sections,
    each a title plus labelled fields. First a header with the node's id,
    then a basic section chosen by kind, then a section chosen by the
    provider category code, then the relation panels of the kind. */
module Presenter {
  import opened Entity
  import opened Format

  /** The label of a field; LabelText gives the text shown. */
  datatype Label =
    | NetWorth | DateOfBirth | RelationshipStatus | AdvisorAum | Balance | AccountNumber
    | Provider | AccountType | Ownership | CashBalance | FloorValue | Quantity
    | Price | Isin | Symbol | TokenId | Collection | Address
    | TypeName | ValueName | PurchasePrice | Equity | Ltv | OccupancyRate
    | AnnualRentalIncome | AnnualExpenses | PrincipalBalance | OriginalLoan | FundName | Manager
    | SeisInvestment | EisInvestment | Sector | InterestRate | CashValue | FaceAmount
    | CreditLimit | OriginalAmount

  function LabelText(l: Label): string {
    match l
    case NetWorth => "Net Worth:"
    case DateOfBirth => "Date of Birth:"
    case RelationshipStatus => "Relationship Status:"
    case AdvisorAum => "Advisor AUM:"
    case Balance => "Balance:"
    case AccountNumber => "Account Number:"
    case Provider => "Provider:"
    case AccountType => "Account Type:"
    case Ownership => "Ownership:"
    case CashBalance => "Cash Balance:"
    case FloorValue => "Floor Value:"
    case Quantity => "Quantity:"
    case Price => "Price:"
    case Isin => "ISIN:"
    case Symbol => "Symbol:"
    case TokenId => "Token ID:"
    case Collection => "Collection:"
    case Address => "Address:"
    case TypeName => "Type:"
    case ValueName => "Value:"
    case PurchasePrice => "Purchase Price:"
    case Equity => "Equity:"
    case Ltv => "LTV:"
    case OccupancyRate => "Occupancy Rate:"
    case AnnualRentalIncome => "Annual Rental Income:"
    case AnnualExpenses => "Annual Expenses:"
    case PrincipalBalance => "Principal Balance:"
    case OriginalLoan => "Original Loan:"
    case FundName => "Fund Name:"
    case Manager => "Manager:"
    case SeisInvestment => "SEIS Investment:"
    case EisInvestment => "EIS Investment:"
    case Sector => "Sector:"
    case InterestRate => "Interest Rate:"
    case CashValue => "Cash Value:"
    case FaceAmount => "Face Amount:"
    case CreditLimit => "Credit Limit:"
    case OriginalAmount => "Original Amount:"
  }

  datatype Field = Field(name: Label, value: Text)

  /** One entry of a holdings list: its description, the text beside it
      and its own fields. */
  datatype HoldingView = HoldingView(description: string, headline: Text, fields: seq<Field>)

  datatype Block =
    | FieldBlock(field: Field)
    | Subsection(title: string, fields: seq<Field>)
    | HoldingList(title: string, holdings: seq<HoldingView>)
    | Stray(text: string)   // a bare text node left in the markup

  /** The title of an information section: one of the two basic sections
      or the section of a provider category. */
  datatype Title = PersonalInformation | AccountInformation | Specific(category: Category)

  datatype Section =
    | Header(id: string)
    | Info(title: Title, blocks: seq<Block>)
    | RelationPanel(heading: string, items: seq<Relation>)

  /** How a guard `{x && <field/>}` on a number is rendered. As written, a
      number 0 is itself put into the markup as the text "0"; as intended,
      a falsy guard renders nothing. */
  datatype Rendering = AsWritten | Intended

  function F(name: Label, value: Text): Block {
    FieldBlock(Field(name, value))
  }

  /** The labels of the field blocks, in order. */
  function Labels(blocks: seq<Block>): seq<Label> {
    if blocks == [] then []
    else (if blocks[0].FieldBlock? then [blocks[0].field.name] else []) + Labels(blocks[1..])
  }

  /** A block shown only when a number is truthy. */
  function NumberGuard(mode: Rendering, x: Option<real>, b: Block): (r: seq<Block>)
    ensures NumberTruthy(x) ==> r == [b]
    ensures x.None? ==> r == []
    ensures mode == Intended && !NumberTruthy(x) ==> r == []
    ensures mode == AsWritten && x.Some? && !NumberTruthy(x) ==> x.value == 0.0 && r == [Stray("0")]
  {
    if NumberTruthy(x) then [b]
    else if mode == AsWritten && x.Some? then [Stray("0")]
    else []
  }

  /** A block shown only when a monetary value is truthy; an amount object
      always is, a legacy number unless it is 0. */
  function MoneyGuard(mode: Rendering, m: Option<Money>, b: Block): (r: seq<Block>)
    ensures MoneyTruthy(m) ==> r == [b]
    ensures m.None? ==> r == []
    ensures mode == Intended && !MoneyTruthy(m) ==> r == []
    ensures mode == AsWritten && m.Some? && !MoneyTruthy(m) ==> m.value == Legacy(0.0) && r == [Stray("0")]
  {
    if MoneyTruthy(m) then [b]
    else if mode == AsWritten && m.Some? then [Stray("0")]
    else []
  }

  /** A block shown only when an optional value is present. */
  function Present<T>(x: Option<T>, b: Block): seq<Block> {
    if x.Some? then [b] else []
  }

  /** A block shown only when an optional string is truthy. */
  function TextGuard(s: Option<string>, b: Block): seq<Block> {
    if TextTruthy(s) then [b] else []
  }

  function Opt(s: Option<Section>): seq<Section> {
    if s.Some? then [s.value] else []
  }

  // ---------------------------------------------------------------------
  // The basic section


  function OwnershipPercentage(n: Node): Option<real> {
    if n.details.Some? then n.details.value.ownershipPercentage else None
  }

  function AccountBlocks(mode: Rendering, n: Node): seq<Block> {
    Present(n.balance, F(Balance, FormatCurrency(n.balance)))
    + (if TextTruthy(n.accountNumber) then [F(AccountNumber, [Lit(Mask(n.accountNumber.value))])] else [])
    + TextGuard(n.providerName, F(Provider, Show(n.providerName)))
    + TextGuard(n.accountType, F(AccountType, Show(n.accountType)))
    + NumberGuard(mode, OwnershipPercentage(n), F(Ownership, FormatPercent(OwnershipPercentage(n))))
  }

  /** `renderBasicInfo`: persons get their personal fields, accounts and
      anything with a truthy balance the account fields, the rest nothing. */
  function BasicInfo(mode: Rendering, n: Node): Option<Section> {
    if n.kind == Some(Person) then
      Some(Info(PersonalInformation, [
        F(NetWorth, FormatCurrency(n.netWorth)),
        F(DateOfBirth, FormatDate(n.dateOfBirth)),
        F(RelationshipStatus, Show(n.relationshipStatus)),
        F(AdvisorAum, FormatCurrency(n.advisorAUM))]))
    else if n.kind == Some(Account) || MoneyTruthy(n.balance) then
      Some(Info(AccountInformation, AccountBlocks(mode, n)))
    else None
  }

  /** Which basic section a node gets, in the order the tests are made. */
  lemma BasicInfoChoice(mode: Rendering, n: Node)
    ensures BasicInfo(mode, n).Some? <==> n.kind == Some(Person) || n.kind == Some(Account) || MoneyTruthy(n.balance)
    ensures BasicInfo(mode, n).Some? ==> BasicInfo(mode, n).value.Info?
    ensures BasicInfo(mode, n).Some? ==>
      (BasicInfo(mode, n).value.title == PersonalInformation <==> n.kind == Some(Person))
  {
  }

  /** The personal section lists exactly these four fields, in this order. */
  lemma PersonalFields(mode: Rendering, n: Node)
    requires n.kind == Some(Person)
    ensures Labels(BasicInfo(mode, n).value.blocks) == [NetWorth, DateOfBirth, RelationshipStatus, AdvisorAum]
  {
    var b := BasicInfo(mode, n).value.blocks;
    assert Labels(b[3..]) == [AdvisorAum];
    assert Labels(b[2..]) == [RelationshipStatus, AdvisorAum];
    assert Labels(b[1..]) == [DateOfBirth, RelationshipStatus, AdvisorAum];
  }

  lemma {:induction false} LabelsConcat(a: seq<Block>, b: seq<Block>)
    ensures Labels(a + b) == Labels(a) + Labels(b)
  {
    if a == [] {
      assert a + b == b;
    } else {
      var head := if a[0].FieldBlock? then [a[0].field.name] else [];
      assert (a + b)[0] == a[0];
      assert (a + b)[1..] == a[1..] + b;
      LabelsConcat(a[1..], b);
      calc {
        Labels(a + b);
        head + Labels(a[1..] + b);
        head + (Labels(a[1..]) + Labels(b));
        (head + Labels(a[1..])) + Labels(b);
      }
    }
  }

  /** The account section shows Balance exactly when a balance is given,
      the masked number exactly when the number is truthy, and Ownership
      exactly when the percentage is truthy, in either rendering (a stray
      "0" is not a field). */
  lemma AccountFields(mode: Rendering, n: Node)
    requires n.kind != Some(Person) && (n.kind == Some(Account) || MoneyTruthy(n.balance))
    ensures var labels := Labels(BasicInfo(mode, n).value.blocks);
      && (Balance in labels <==> n.balance.Some?)
      && (AccountNumber in labels <==> TextTruthy(n.accountNumber))
      && (Provider in labels <==> TextTruthy(n.providerName))
      && (AccountType in labels <==> TextTruthy(n.accountType))
      && (Ownership in labels <==> NumberTruthy(OwnershipPercentage(n)))
    ensures TextTruthy(n.accountNumber) ==>
      F(AccountNumber, [Lit(Mask(n.accountNumber.value))]) in BasicInfo(mode, n).value.blocks
  {
    AccountBlockLabels(mode, n);
    AccountLabels(Labels(AccountBlocks(mode, n)), n.balance.Some?, TextTruthy(n.accountNumber),
      TextTruthy(n.providerName), TextTruthy(n.accountType), NumberTruthy(OwnershipPercentage(n)));
  }

  lemma AccountBlockLabels(mode: Rendering, n: Node)
    ensures Labels(AccountBlocks(mode, n)) ==
      (if n.balance.Some? then [Balance] else []) + (if TextTruthy(n.accountNumber) then [AccountNumber] else [])
      + (if TextTruthy(n.providerName) then [Provider] else []) + (if TextTruthy(n.accountType) then [AccountType] else [])
      + (if NumberTruthy(OwnershipPercentage(n)) then [Ownership] else [])
  {
    var b1 := Present(n.balance, F(Balance, FormatCurrency(n.balance)));
    var b2 := if TextTruthy(n.accountNumber) then [F(AccountNumber, [Lit(Mask(n.accountNumber.value))])] else [];
    var b3 := TextGuard(n.providerName, F(Provider, Show(n.providerName)));
    var b4 := TextGuard(n.accountType, F(AccountType, Show(n.accountType)));
    var b5 := NumberGuard(mode, OwnershipPercentage(n), F(Ownership, FormatPercent(OwnershipPercentage(n))));
    GuardLabels(b1, if n.balance.Some? then [Balance] else []);
    GuardLabels(b2, if TextTruthy(n.accountNumber) then [AccountNumber] else []);
    GuardLabels(b3, if TextTruthy(n.providerName) then [Provider] else []);
    GuardLabels(b4, if TextTruthy(n.accountType) then [AccountType] else []);
    GuardLabels(b5, if NumberTruthy(OwnershipPercentage(n)) then [Ownership] else []);
    Labels5(b1, b2, b3, b4, b5);
  }

  lemma Labels5(b1: seq<Block>, b2: seq<Block>, b3: seq<Block>, b4: seq<Block>, b5: seq<Block>)
    ensures Labels(b1 + b2 + b3 + b4 + b5) == Labels(b1) + Labels(b2) + Labels(b3) + Labels(b4) + Labels(b5)
  {
    LabelsConcat(b1, b2);
    LabelsConcat(b1 + b2, b3);
    LabelsConcat(b1 + b2 + b3, b4);
    LabelsConcat(b1 + b2 + b3 + b4, b5);
  }

  lemma AccountLabels(l: seq<Label>, c1: bool, c2: bool, c3: bool, c4: bool, c5: bool)
    requires l == (if c1 then [Balance] else []) + (if c2 then [AccountNumber] else [])
      + (if c3 then [Provider] else []) + (if c4 then [AccountType] else []) + (if c5 then [Ownership] else [])
    ensures (Balance in l <==> c1) && (AccountNumber in l <==> c2) && (Provider in l <==> c3)
    ensures (AccountType in l <==> c4) && (Ownership in l <==> c5)
  {
  }

  /** A guard's output carries its field's label, or no label at all when
      it is empty or a stray text. */
  lemma GuardLabels(b: seq<Block>, l: seq<Label>)
    requires |b| <= 1
    requires b != [] && b[0].FieldBlock? ==> l == [b[0].field.name]
    requires b == [] || !b[0].FieldBlock? ==> l == []
    ensures Labels(b) == l
  {
    if b != [] { assert b[1..] == []; }
  }

  // ---------------------------------------------------------------------
  // The category sections

  datatype Category =
    | Bank | Investment | Insurance | Property | Credit | Loan
    | Crypto | Nft | OtherAsset | OtherLiability | PrivateInvestment

  /** The `providerCategoryId` switch: codes 1 to 12 except 9; an absent
      code, 0, 9 and every other value select nothing. */
  function CategoryOf(code: Option<int>): (c: Option<Category>)
    ensures c.Some? <==> code.Some? && 1 <= code.value <= 12 && code.value != 9
  {
    if code.None? || code.value == 0 then None
    else match code.value
      case 1 => Some(Bank)
      case 2 => Some(Investment)
      case 3 => Some(Insurance)
      case 4 => Some(Property)
      case 5 => Some(Credit)
      case 6 => Some(Loan)
      case 7 => Some(Crypto)
      case 8 => Some(Nft)
      case 10 => Some(OtherAsset)
      case 11 => Some(OtherLiability)
      case 12 => Some(PrivateInvestment)
      case _ => None
  }

  function CategoryCode(c: Category): int {
    match c
    case Bank => 1
    case Investment => 2
    case Insurance => 3
    case Property => 4
    case Credit => 5
    case Loan => 6
    case Crypto => 7
    case Nft => 8
    case OtherAsset => 10
    case OtherLiability => 11
    case PrivateInvestment => 12
  }

  /** Every category has its code and two codes never share a category. */
  lemma CategoryCodeRoundTrip(c: Category, code: int)
    ensures CategoryOf(Some(CategoryCode(c))) == Some(c)
    ensures CategoryOf(Some(code)) == Some(c) ==> code == CategoryCode(c)
  {
  }

  function TitleText(t: Title): string {
    match t
    case PersonalInformation => "Personal Information"
    case AccountInformation => "Account Information"
    case Specific(Bank) => "Bank Account Details"
    case Specific(Investment) => "Investment Details"
    case Specific(Insurance) => "Insurance Details"
    case Specific(Property) => "Property Details"
    case Specific(Credit) => "Credit Account Details"
    case Specific(Loan) => "Loan Details"
    case Specific(Crypto) => "Crypto Details"
    case Specific(Nft) => "NFT Collection"
    case Specific(OtherAsset) => "Asset Details"
    case Specific(OtherLiability) => "Liability Details"
    case Specific(PrivateInvestment) => "Private Investment Details"
  }

  /** The categories whose section lists holdings. */
  predicate ListsHoldings(c: Category) {
    c == Investment || c == Crypto || c == Nft
  }

  function HoldingsOf(d: Details): seq<Holding>
    requires d.holdings.Some?
  {
    d.holdings.value
  }

  function InvestmentHolding(h: Holding): HoldingView {
    HoldingView(h.description,
      FormatCurrency(Some(h.value)) + [Lit(" (")] + FormatPercent(Some(h.allocation)) + [Lit(")")],
      [Field(Quantity, [Localized(h.quantity)]), Field(Price, FormatCurrency(Some(h.price)))]
      + (if TextTruthy(h.isin) then [Field(Isin, [Lit(h.isin.value)])] else []))
  }

  function CryptoHolding(h: Holding): HoldingView {
    HoldingView(h.description,
      FormatCurrency(Some(h.value)) + [Lit(" (")] + FormatPercent(Some(h.allocation)) + [Lit(")")],
      [Field(Quantity, [Localized(h.quantity)]), Field(Price, FormatCurrency(Some(h.price)))]
      + (if TextTruthy(h.symbol) then [Field(Symbol, [Lit(h.symbol.value)])] else []))
  }

  function NftHolding(h: Holding): HoldingView {
    HoldingView(h.description,
      FormatCurrency(Some(h.value)),
      [Field(TokenId, [Num(h.quantity)])]
      + (if TextTruthy(h.symbol) then [Field(Collection, [Lit(h.symbol.value)])] else []))
  }

  function ViewOf(c: Category, h: Holding): HoldingView
    requires ListsHoldings(c)
  {
    match c
    case Investment => InvestmentHolding(h)
    case Crypto => CryptoHolding(h)
    case Nft => NftHolding(h)
  }

  /** The `holdings.map` of one category: one entry per holding, in order. */
  function HoldingViews(c: Category, hs: seq<Holding>): (r: seq<HoldingView>)
    requires ListsHoldings(c)
    ensures |r| == |hs|
    ensures forall i :: 0 <= i < |hs| ==> r[i] == ViewOf(c, hs[i])
  {
    if hs == [] then []
    else [ViewOf(c, hs[0])] + HoldingViews(c, hs[1..])
  }

  function CashLabel(c: Category): Label
    requires ListsHoldings(c)
  {
    if c == Nft then FloorValue else CashBalance
  }

  /** The blocks of a holdings section: the cash field when given, then the
      holdings list. */
  function HoldingsBlocks(c: Category, d: Details): seq<Block>
    requires ListsHoldings(c) && d.holdings.Some?
  {
    Present(d.cash, F(CashLabel(c), FormatCurrency(d.cash)))
    + [HoldingList("Holdings", HoldingViews(c, HoldingsOf(d)))]
  }

  function MortgageBlocks(d: Details): seq<Block> {
    if d.mortgageDetails.Some? then
      [Subsection("Mortgage Details", [
        Field(PrincipalBalance, FormatCurrency(d.mortgageDetails.value.principalBalance)),
        Field(OriginalLoan, FormatCurrency(d.mortgageDetails.value.originalLoanAmount))])]
    else []
  }

  function PropertyBlocks(mode: Rendering, n: Node, d: Details): seq<Block> {
    [F(Address, Show(d.fullAddress)),
     F(TypeName, Show(d.propertyType)),
     F(ValueName, FormatCurrency(n.homeValue)),
     F(PurchasePrice, FormatCurrency(d.purchasePrice)),
     F(Equity, FormatCurrency(d.equity)),
     F(Ltv, FormatPercent(d.ltv))]
    + Present(d.occupancyRate, F(OccupancyRate, FormatPercent(d.occupancyRate)))
    + MoneyGuard(mode, d.annualRentalIncome, F(AnnualRentalIncome, FormatCurrency(d.annualRentalIncome)))
    + [F(AnnualExpenses, FormatCurrency(d.annualExpenses))]
    + MortgageBlocks(d)
  }

  function PrivateBlocks(mode: Rendering, d: Details): seq<Block> {
    [F(FundName, Show(d.displayedName)),
     F(Manager, Show(d.businessName))]
    + MoneyGuard(mode, d.seisInvestmentAmount, F(SeisInvestment, FormatCurrency(d.seisInvestmentAmount)))
    + MoneyGuard(mode, d.eisInvestmentAmount, F(EisInvestment, FormatCurrency(d.eisInvestmentAmount)))
    + [F(Sector, Show(d.businessSector)),
       F(Quantity, ShowNumber(d.quantity))]
  }

  /** The blocks of a details-based category section. */
  function DetailBlocks(mode: Rendering, c: Category, n: Node, d: Details): seq<Block>
    requires !ListsHoldings(c)
  {
    match c
    case Bank => Present(d.interestRate, F(InterestRate, FormatPercent(d.interestRate)))
    case Insurance => [F(CashValue, FormatCurrency(n.cashValue)), F(FaceAmount, FormatCurrency(d.faceAmount))]
    case Property => PropertyBlocks(mode, n, d)
    case Credit => [F(CreditLimit, FormatCurrency(n.balance)), F(InterestRate, FormatPercent(d.interestRate))]
    case Loan =>
      [F(PrincipalBalance, FormatCurrency(n.principalBalance)),
       F(OriginalAmount, FormatCurrency(if d.mortgageDetails.Some? then d.mortgageDetails.value.originalLoanAmount else None)),
       F(InterestRate, FormatPercent(d.interestRate))]
    case OtherAsset => Present(d.interestRate, F(ValueName, FormatCurrency(n.balance)))
    case OtherLiability =>
      [F(PrincipalBalance, FormatCurrency(n.balance)),
       F(OriginalAmount, FormatCurrency(n.originalLoanAmount)),
       F(InterestRate, FormatPercent(d.interestRate))]
    case PrivateInvestment => PrivateBlocks(mode, d)
  }

  /** One `render*Details`: the holdings categories need a holdings list,
      the others a details object. */
  function CategorySection(mode: Rendering, c: Category, n: Node): Option<Section> {
    if ListsHoldings(c) then
      if n.details.Some? && n.details.value.holdings.Some? then
        Some(Info(Specific(c), HoldingsBlocks(c, n.details.value)))
      else None
    else if n.details.Some? then
      Some(Info(Specific(c), DetailBlocks(mode, c, n, n.details.value)))
    else None
  }

  /** `renderSpecificDetails`. */
  function SpecificDetails(mode: Rendering, n: Node): Option<Section> {
    var c := CategoryOf(n.providerCategoryId);
    if c.None? then None else CategorySection(mode, c.value, n)
  }

  /** When a category section is shown it is the one the code selects, and
      it is shown exactly when its data is there. */
  lemma SpecificDetailsChoice(mode: Rendering, n: Node)
    ensures var c := CategoryOf(n.providerCategoryId);
      var s := SpecificDetails(mode, n);
      && (s.Some? <==> c.Some? && n.details.Some? && (ListsHoldings(c.value) ==> n.details.value.holdings.Some?))
      && (s.Some? ==> s.value.Info? && s.value.title == Specific(c.value))
  {
  }

  /** A holdings section lists one entry per holding, in input order. */
  lemma HoldingsListed(mode: Rendering, n: Node)
    requires CategoryOf(n.providerCategoryId).Some? && ListsHoldings(CategoryOf(n.providerCategoryId).value)
    requires n.details.Some? && n.details.value.holdings.Some?
    ensures var s := SpecificDetails(mode, n).value;
      var l := s.blocks[|s.blocks| - 1];
      && l.HoldingList?
      && |l.holdings| == |n.details.value.holdings.value|
      && forall i :: 0 <= i < |l.holdings| ==>
           l.holdings[i] == ViewOf(CategoryOf(n.providerCategoryId).value, n.details.value.holdings.value[i])
  {
  }

  /** The labels of a holding's own fields, in order. */
  function FieldNames(fs: seq<Field>): (r: seq<Label>)
    ensures |r| == |fs|
  {
    seq(|fs|, i requires 0 <= i < |fs| => fs[i].name)
  }

  /** Every holdings entry is headed by the holding's description and its
      formatted value. An investment lists Quantity and Price, then ISIN
      when it has one; a crypto holding Quantity and Price, then Symbol
      when it has one; an NFT its Token ID, then Collection when it has a
      symbol. Quantity and price are the holding's own. */
  lemma HoldingEntry(c: Category, h: Holding)
    requires ListsHoldings(c)
    ensures var v := ViewOf(c, h);
      && v.description == h.description
      && v.headline[..1] == FormatCurrency(Some(h.value))
      && (c == Investment ==> FieldNames(v.fields) == [Quantity, Price] + (if TextTruthy(h.isin) then [Isin] else []))
      && (c == Crypto ==> FieldNames(v.fields) == [Quantity, Price] + (if TextTruthy(h.symbol) then [Symbol] else []))
      && (c == Nft ==> FieldNames(v.fields) == [TokenId] + (if TextTruthy(h.symbol) then [Collection] else []))
      && (c != Nft ==> (v.fields[0] == Field(Quantity, [Localized(h.quantity)]) &&
                        v.fields[1] == Field(Price, FormatCurrency(Some(h.price)))))
      && (c == Crypto && TextTruthy(h.symbol) ==> v.fields[2] == Field(Symbol, [Lit(h.symbol.value)]))
  {
  }

  // ---------------------------------------------------------------------
  // Relation panels and the whole panel

  /** The relation panels of a kind: four for a person, the owners of a
      company, none for the other kinds. */
  function RelationPanels(n: Node): (r: seq<Section>)
    ensures n.kind == Some(Person) ==>
      (|r| == 4 && r[0] == RelationPanel("Parents", n.parents)
       && r[1] == RelationPanel("Ownership Structures", n.children)
       && r[2] == RelationPanel("Siblings", n.siblings)
       && r[3] == RelationPanel("Spouses", n.spouses))
    ensures n.kind == Some(Company) ==> r == [RelationPanel("Owner", n.parents)]
    ensures n.kind != Some(Person) && n.kind != Some(Company) ==> r == []
    ensures forall i :: 0 <= i < |r| ==> r[i].RelationPanel?
  {
    if n.kind == Some(Person) then
      [RelationPanel("Parents", n.parents),
       RelationPanel("Ownership Structures", n.children),
       RelationPanel("Siblings", n.siblings),
       RelationPanel("Spouses", n.spouses)]
    else if n.kind == Some(Company) then
      [RelationPanel("Owner", n.parents)]
    else []
  }

  /** The whole details panel of a node. */
  function Panel(mode: Rendering, n: Node): seq<Section> {
    [Header(n.id)] + Opt(BasicInfo(mode, n)) + Opt(SpecificDetails(mode, n)) + RelationPanels(n)
  }

  /** Where a section sits: header, basic, category, relations. */
  function Rank(s: Section): nat {
    match s
    case Header(_) => 0
    case Info(title, _) => if title.Specific? then 2 else 1
    case RelationPanel(_, _) => 3
  }

  /** The panel opens with the header and keeps the order header, basic
      section, category section, relation panels; it holds at most one
      basic and one category section. */
  lemma PanelOrder(mode: Rendering, n: Node)
    ensures var p := Panel(mode, n);
      && p[0] == Header(n.id)
      && (forall i, j :: 0 <= i < j < |p| ==> Rank(p[i]) < Rank(p[j]) || (Rank(p[i]) == 3 && Rank(p[j]) == 3))
      && (BasicInfo(mode, n).Some? <==> exists i :: 0 <= i < |p| && Rank(p[i]) == 1)
      && (SpecificDetails(mode, n).Some? <==> exists i :: 0 <= i < |p| && Rank(p[i]) == 2)
  {
    var basic, specific, panels := Opt(BasicInfo(mode, n)), Opt(SpecificDetails(mode, n)), RelationPanels(n);
    assert forall s :: s in basic ==> Rank(s) == 1;
    assert forall s :: s in specific ==> Rank(s) == 2;
    LayoutOrder(n, basic, specific, panels);
  }

  lemma LayoutOrder(n: Node, basic: seq<Section>, specific: seq<Section>, panels: seq<Section>)
    requires |basic| <= 1 && |specific| <= 1
    requires forall s :: s in basic ==> Rank(s) == 1
    requires forall s :: s in specific ==> Rank(s) == 2
    requires forall k :: 0 <= k < |panels| ==> Rank(panels[k]) == 3
    ensures var p := [Header(n.id)] + basic + specific + panels;
      && p[0] == Header(n.id)
      && (forall i, j :: 0 <= i < j < |p| ==> Rank(p[i]) < Rank(p[j]) || (Rank(p[i]) == 3 && Rank(p[j]) == 3))
      && (basic != [] <==> exists i :: 0 <= i < |p| && Rank(p[i]) == 1)
      && (specific != [] <==> exists i :: 0 <= i < |p| && Rank(p[i]) == 2)
  {
    var p := [Header(n.id)] + basic + specific + panels;
    forall i, j | 0 <= i < j < |p| ensures Rank(p[i]) < Rank(p[j]) || (Rank(p[i]) == 3 && Rank(p[j]) == 3) {
      RankAt(n, basic, specific, panels, i);
      RankAt(n, basic, specific, panels, j);
    }
    if basic != [] { RankAt(n, basic, specific, panels, 1); }
    if specific != [] { RankAt(n, basic, specific, panels, 1 + |basic|); }
    forall i | 0 <= i < |p| ensures Rank(p[i]) == 1 ==> basic != [] {
      RankAt(n, basic, specific, panels, i);
    }
    forall i | 0 <= i < |p| ensures Rank(p[i]) == 2 ==> specific != [] {
      RankAt(n, basic, specific, panels, i);
    }
  }

  /** The rank of the `i`-th section of a panel laid out as
      header, basic, specific, panels. */
  lemma RankAt(n: Node, basic: seq<Section>, specific: seq<Section>, panels: seq<Section>, i: nat)
    requires |basic| <= 1 && |specific| <= 1
    requires forall s :: s in basic ==> Rank(s) == 1
    requires forall s :: s in specific ==> Rank(s) == 2
    requires forall k :: 0 <= k < |panels| ==> Rank(panels[k]) == 3
    requires i < 1 + |basic| + |specific| + |panels|
    ensures var p := [Header(n.id)] + basic + specific + panels;
      Rank(p[i]) == (if i == 0 then 0
                     else if i < 1 + |basic| then 1
                     else if i < 1 + |basic| + |specific| then 2
                     else 3)
  {
    var p := [Header(n.id)] + basic + specific + panels;
    if i == 0 {
    } else if i < 1 + |basic| {
      assert p[i] == basic[i - 1];
    } else if i < 1 + |basic| + |specific| {
      assert p[i] == specific[i - 1 - |basic|];
    } else {
      assert p[i] == panels[i - 1 - |basic| - |specific|];
    }
  }

  // ---------------------------------------------------------------------
  // The stray "0"

  predicate NoStrayBlocks(blocks: seq<Block>) {
    forall i :: 0 <= i < |blocks| ==> !blocks[i].Stray?
  }

  predicate NoStray(p: seq<Section>) {
    forall i :: 0 <= i < |p| ==> p[i].Info? ==> NoStrayBlocks(p[i].blocks)
  }

  /** As written, an account whose ownership percentage is 0 shows a bare
      "0" in its account section. */
  lemma OwnershipZeroShowsStrayZero(n: Node)
    requires n.kind == Some(Account) && n.details.Some? && n.details.value.ownershipPercentage == Some(0.0)
    ensures Stray("0") in BasicInfo(AsWritten, n).value.blocks
    ensures !NoStray(Panel(AsWritten, n))
  {
    var blocks := AccountBlocks(AsWritten, n);
    assert blocks[|blocks| - 1] == Stray("0");
    assert Panel(AsWritten, n)[1] == BasicInfo(AsWritten, n).value;
  }

  /** As written, a property whose annual rental income is the number 0
      shows a bare "0" in its property section. */
  lemma RentalIncomeZeroShowsStrayZero(n: Node)
    requires n.providerCategoryId == Some(4) && n.details.Some?
    requires n.details.value.annualRentalIncome == Some(Legacy(0.0))
    ensures Stray("0") in SpecificDetails(AsWritten, n).value.blocks
  {
    var blocks := PropertyBlocks(AsWritten, n, n.details.value);
    assert blocks[6 + |Present(n.details.value.occupancyRate, F(Address, []))|] == Stray("0");
  }

  lemma NoStrayConcat(a: seq<Block>, b: seq<Block>)
    requires NoStrayBlocks(a) && NoStrayBlocks(b)
    ensures NoStrayBlocks(a + b)
  {
    forall i | 0 <= i < |a + b| ensures !(a + b)[i].Stray? {
      if i >= |a| { assert (a + b)[i] == b[i - |a|]; }
    }
  }

  /** As intended, no section of any panel holds a bare text node: every
      falsy guard renders nothing. */
  lemma IntendedHasNoStray(n: Node)
    ensures NoStray(Panel(Intended, n))
  {
    var p := Panel(Intended, n);
    var basic, specific, panels := Opt(BasicInfo(Intended, n)), Opt(SpecificDetails(Intended, n)), RelationPanels(n);
    assert p == [Header(n.id)] + basic + specific + panels;
    BasicNoStray(n);
    SpecificNoStray(n);
    forall i | 0 <= i < |p| ensures p[i].Info? ==> NoStrayBlocks(p[i].blocks) {
      if 1 <= i < 1 + |basic| {
        assert p[i] == basic[i - 1];
      } else if 1 + |basic| <= i < 1 + |basic| + |specific| {
        assert p[i] == specific[i - 1 - |basic|];
      } else if i >= 1 + |basic| + |specific| {
        assert p[i] == panels[i - 1 - |basic| - |specific|];
      }
    }
  }

  lemma BasicNoStray(n: Node)
    ensures BasicInfo(Intended, n).Some? ==> NoStrayBlocks(BasicInfo(Intended, n).value.blocks)
  {
    if n.kind != Some(Person) && (n.kind == Some(Account) || MoneyTruthy(n.balance)) {
      AccountNoStray(n);
    }
  }

  lemma AccountNoStray(n: Node)
    ensures NoStrayBlocks(AccountBlocks(Intended, n))
  {
    NoStray5(Present(n.balance, F(Balance, FormatCurrency(n.balance))),
      if TextTruthy(n.accountNumber) then [F(AccountNumber, [Lit(Mask(n.accountNumber.value))])] else [],
      TextGuard(n.providerName, F(Provider, Show(n.providerName))),
      TextGuard(n.accountType, F(AccountType, Show(n.accountType))),
      NumberGuard(Intended, OwnershipPercentage(n), F(Ownership, FormatPercent(OwnershipPercentage(n)))));
  }

  lemma NoStray5(b1: seq<Block>, b2: seq<Block>, b3: seq<Block>, b4: seq<Block>, b5: seq<Block>)
    requires NoStrayBlocks(b1) && NoStrayBlocks(b2) && NoStrayBlocks(b3) && NoStrayBlocks(b4) && NoStrayBlocks(b5)
    ensures NoStrayBlocks(b1 + b2 + b3 + b4 + b5)
  {
    NoStrayConcat(b1, b2);
    NoStrayConcat(b1 + b2, b3);
    NoStrayConcat(b1 + b2 + b3, b4);
    NoStrayConcat(b1 + b2 + b3 + b4, b5);
  }

  lemma SpecificNoStray(n: Node)
    ensures SpecificDetails(Intended, n).Some? ==> NoStrayBlocks(SpecificDetails(Intended, n).value.blocks)
  {
    var c := CategoryOf(n.providerCategoryId);
    if c.Some? && n.details.Some? {
      var d := n.details.value;
      if ListsHoldings(c.value) {
        if d.holdings.Some? {
          NoStrayConcat(Present(d.cash, F(CashLabel(c.value), FormatCurrency(d.cash))),
            [HoldingList("Holdings", HoldingViews(c.value, HoldingsOf(d)))]);
        }
      } else if c.value == Property {
        PropertyNoStray(n, d);
      } else if c.value == PrivateInvestment {
        PrivateNoStray(d);
      }
    }
  }

  lemma PropertyNoStray(n: Node, d: Details)
    ensures NoStrayBlocks(PropertyBlocks(Intended, n, d))
  {
    var a := [F(Address, Show(d.fullAddress)),
      F(TypeName, Show(d.propertyType)),
      F(ValueName, FormatCurrency(n.homeValue)),
      F(PurchasePrice, FormatCurrency(d.purchasePrice)),
      F(Equity, FormatCurrency(d.equity)),
      F(Ltv, FormatPercent(d.ltv))];
    var b := Present(d.occupancyRate, F(OccupancyRate, FormatPercent(d.occupancyRate)));
    var c := MoneyGuard(Intended, d.annualRentalIncome, F(AnnualRentalIncome, FormatCurrency(d.annualRentalIncome)));
    var e := [F(AnnualExpenses, FormatCurrency(d.annualExpenses))];
    var m := MortgageBlocks(d);
    NoStrayConcat(a, b);
    NoStrayConcat(a + b, c);
    NoStrayConcat(a + b + c, e);
    NoStrayConcat(a + b + c + e, m);
    assert PropertyBlocks(Intended, n, d) == a + b + c + e + m;
  }

  lemma PrivateNoStray(d: Details)
    ensures NoStrayBlocks(PrivateBlocks(Intended, d))
  {
    var a := [F(FundName, Show(d.displayedName)), F(Manager, Show(d.businessName))];
    var b := MoneyGuard(Intended, d.seisInvestmentAmount, F(SeisInvestment, FormatCurrency(d.seisInvestmentAmount)));
    var c := MoneyGuard(Intended, d.eisInvestmentAmount, F(EisInvestment, FormatCurrency(d.eisInvestmentAmount)));
    var e := [F(Sector, Show(d.businessSector)), F(Quantity, ShowNumber(d.quantity))];
    NoStrayConcat(a, b);
    NoStrayConcat(a + b, c);
    NoStrayConcat(a + b + c, e);
    assert PrivateBlocks(Intended, d) == a + b + c + e;
  }
}
