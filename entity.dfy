/** The entity model shared by every component: one record per graph node,
    with the optional fields the viewer reads and JavaScript's notion of a
    "truthy" value written out for the three kinds of optional field. */
module Entity {

  datatype Option<+T> = None | Some(value: T)

  /** The lower-case node kinds the viewer dispatches on. */
  datatype Kind = Person | Company | Trust | Account

  /** A monetary value as it arrives from the data: the current
      `{currency, amount}` object, or a legacy bare number. */
  datatype Money = Amount(currency: string, amount: real) | Legacy(value: real)

  /** One entry of a relation list: the id of the other node and its
      relation type ("blood", "married", ...). */
  datatype Relation = Relation(id: string, relType: string)

  datatype Holding = Holding(
    description: string,
    value: Money,
    quantity: real,
    price: Money,
    symbol: Option<string>,
    isin: Option<string>,
    allocation: real)

  datatype Mortgage = Mortgage(principalBalance: Option<Money>, originalLoanAmount: Option<Money>)

  /** The category-specific detail payload (the fields the viewer reads). */
  datatype Details = Details(
    accountType: Option<string>,
    ownershipPercentage: Option<real>,
    cash: Option<Money>,
    holdings: Option<seq<Holding>>,
    fullAddress: Option<string>,
    propertyType: Option<string>,
    purchasePrice: Option<Money>,
    equity: Option<Money>,
    ltv: Option<real>,
    occupancyRate: Option<real>,
    annualExpenses: Option<Money>,
    annualRentalIncome: Option<Money>,
    mortgageDetails: Option<Mortgage>,
    displayedName: Option<string>,
    businessName: Option<string>,
    seisInvestmentAmount: Option<Money>,
    eisInvestmentAmount: Option<Money>,
    quantity: Option<real>,
    businessSector: Option<string>,
    interestRate: Option<real>,
    faceAmount: Option<Money>)

  /** A node of the family/ownership graph. `kind` is absent for the nodes
      of the plain family data source, which carry no `nodeType`. */
  datatype Node = Node(
    id: string,
    gender: string,
    kind: Option<Kind>,
    parents: seq<Relation>,
    children: seq<Relation>,
    siblings: seq<Relation>,
    spouses: seq<Relation>,
    balance: Option<Money>,
    netWorth: Option<Money>,
    advisorAUM: Option<Money>,
    homeValue: Option<Money>,
    cashValue: Option<Money>,
    principalBalance: Option<Money>,
    originalLoanAmount: Option<Money>,
    accountNumber: Option<string>,
    providerName: Option<string>,
    accountType: Option<string>,
    dateOfBirth: Option<string>,
    relationshipStatus: Option<string>,
    providerCategoryId: Option<int>,
    details: Option<Details>)

  /** A number is truthy unless it is absent or 0. */
  predicate NumberTruthy(x: Option<real>) {
    x.Some? && x.value != 0.0
  }

  /** An integer code is truthy unless it is absent or 0. */
  predicate CodeTruthy(x: Option<int>) {
    x.Some? && x.value != 0
  }

  /** A string is truthy unless it is absent or empty. */
  predicate TextTruthy(s: Option<string>) {
    s.Some? && s.value != ""
  }

  /** An amount object is always truthy; a legacy number unless it is 0. */
  predicate MoneyTruthy(m: Option<Money>) {
    m.Some? && (m.value.Legacy? ==> m.value.value != 0.0)
  }
}
