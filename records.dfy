/** The record normaliser: raw wealth records, as they arrive from the
    wealth data file, become tree nodes. Upper-case type codes become
    lower-case kinds, a missing gender gets a default, the relation lists
    are copied entry by entry and falsy optionals become absent. Also the
    table of data sources and the default source. */
module Records {
  import opened Entity

  /** A raw wealth record. `None` stands for a field that is null or
      missing in the data. */
  datatype RawRecord = RawRecord(
    id: string,
    nodeType: string,
    gender: Option<string>,
    advisorAUM: Option<Money>,
    netWorth: Option<Money>,
    balance: Option<Money>,
    dateOfBirth: Option<string>,
    relationshipStatus: Option<string>,
    accountNumber: Option<string>,
    accountType: Option<string>,
    providerName: Option<string>,
    providerCategoryId: Option<int>,
    details: Option<Details>,
    parents: seq<Relation>,
    children: seq<Relation>,
    siblings: seq<Relation>,
    spouses: seq<Relation>)

  /** The four type codes of the wealth data. */
  const AccountCode := "ACCOUNT"
  const CompanyCode := "COMPANY"
  const PersonCode := "PERSON"
  const TrustCode := "TRUST"

  /** The `nodeType` switch: each known code gives its kind and every
      other string falls back to `account`. */
  function KindOf(code: string): (k: Kind)
    ensures k == Person <==> code == PersonCode
    ensures k == Company <==> code == CompanyCode
    ensures k == Trust <==> code == TrustCode
    ensures k == Account <==> code != PersonCode && code != CompanyCode && code != TrustCode
  {
    if code == AccountCode then Account
    else if code == CompanyCode then Company
    else if code == PersonCode then Person
    else if code == TrustCode then Trust
    else Account
  }

  /** The upper-case code of a kind: the inverse of KindOf on the four codes. */
  function KindCode(k: Kind): string {
    match k
    case Account => AccountCode
    case Company => CompanyCode
    case Person => PersonCode
    case Trust => TrustCode
  }

  /** The lower-case name the viewer stores in `nodeType`. */
  function KindName(k: Kind): string {
    match k
    case Account => "account"
    case Company => "company"
    case Person => "person"
    case Trust => "trust"
  }

  lemma KindCodeRoundTrip(k: Kind)
    ensures KindOf(KindCode(k)) == k
  {
  }

  /** Different kinds have different lower-case names. */
  lemma KindNameInjective(k1: Kind, k2: Kind)
    ensures KindName(k1) == KindName(k2) <==> k1 == k2
  {
  }

  /** A truthy gender is kept; otherwise persons default to "male" and
      every other record to "neutral". */
  function GenderOf(gender: Option<string>, nodeType: string): (g: string)
    ensures TextTruthy(gender) ==> g == gender.value
    ensures !TextTruthy(gender) && nodeType == PersonCode ==> g == "male"
    ensures !TextTruthy(gender) && nodeType != PersonCode ==> g == "neutral"
    ensures g != ""
  {
    if gender.Some? && gender.value != "" then gender.value
    else if nodeType == PersonCode then "male"
    else "neutral"
  }

  /** `x || undefined` for a string field. */
  function TextOrAbsent(s: Option<string>): (r: Option<string>)
    ensures TextTruthy(s) ==> r == s
    ensures !TextTruthy(s) ==> r == None
  {
    if s.Some? && s.value != "" then s else None
  }

  /** `x || undefined` for an integer field: 0 becomes absent. */
  function CodeOrAbsent(x: Option<int>): (r: Option<int>)
    ensures CodeTruthy(x) ==> r == x
    ensures !CodeTruthy(x) ==> r == None
  {
    if x.Some? && x.value != 0 then x else None
  }

  /** The per-list `map` that copies every relation's id and type. */
  function CopyRelations(rs: seq<Relation>): (r: seq<Relation>)
    ensures |r| == |rs|
    ensures forall i :: 0 <= i < |rs| ==> r[i].id == rs[i].id && r[i].relType == rs[i].relType
  {
    if rs == [] then [] else [Relation(rs[0].id, rs[0].relType)] + CopyRelations(rs[1..])
  }

  /** The body of the `wealthData` map for one record. */
  function Normalize(raw: RawRecord): Node {
    Node(
      id := raw.id,
      gender := GenderOf(raw.gender, raw.nodeType),
      kind := Some(KindOf(raw.nodeType)),
      parents := CopyRelations(raw.parents),
      children := CopyRelations(raw.children),
      siblings := CopyRelations(raw.siblings),
      spouses := CopyRelations(raw.spouses),
      balance := raw.balance,
      netWorth := raw.netWorth,
      advisorAUM := raw.advisorAUM,
      homeValue := None,
      cashValue := None,
      principalBalance := None,
      originalLoanAmount := None,
      accountNumber := TextOrAbsent(raw.accountNumber),
      providerName := TextOrAbsent(raw.providerName),
      accountType := TextOrAbsent(raw.accountType),
      dateOfBirth := TextOrAbsent(raw.dateOfBirth),
      relationshipStatus := TextOrAbsent(raw.relationshipStatus),
      providerCategoryId := CodeOrAbsent(raw.providerCategoryId),
      details := raw.details)
  }

  /** What every normalised node looks like: a kind is set, the gender is
      non-empty, an optional string or code that is present is truthy, and
      the fields the wealth records do not carry are absent. */
  predicate NormalForm(n: Node) {
    && n.kind.Some?
    && n.gender != ""
    && (n.accountNumber.Some? ==> TextTruthy(n.accountNumber))
    && (n.providerName.Some? ==> TextTruthy(n.providerName))
    && (n.accountType.Some? ==> TextTruthy(n.accountType))
    && (n.dateOfBirth.Some? ==> TextTruthy(n.dateOfBirth))
    && (n.relationshipStatus.Some? ==> TextTruthy(n.relationshipStatus))
    && (n.providerCategoryId.Some? ==> CodeTruthy(n.providerCategoryId))
    && n.homeValue == None && n.cashValue == None
    && n.principalBalance == None && n.originalLoanAmount == None
  }

  /** A raw record that normalises back to `n`. */
  function ToRaw(n: Node): RawRecord
    requires n.kind.Some?
  {
    RawRecord(n.id, KindCode(n.kind.value), Some(n.gender), n.advisorAUM, n.netWorth, n.balance,
      n.dateOfBirth, n.relationshipStatus, n.accountNumber, n.accountType, n.providerName,
      n.providerCategoryId, n.details, n.parents, n.children, n.siblings, n.spouses)
  }

  /** The normaliser keeps the id, the relation lists, the kind's code and
      the amounts, applies the falsy-to-absent rule field by field, and
      always lands in NormalForm. */
  lemma NormalizeFields(raw: RawRecord)
    ensures var n := Normalize(raw);
      && NormalForm(n)
      && n.id == raw.id
      && n.kind == Some(KindOf(raw.nodeType))
      && n.parents == raw.parents && n.children == raw.children
      && n.siblings == raw.siblings && n.spouses == raw.spouses
      && n.balance == raw.balance && n.advisorAUM == raw.advisorAUM && n.netWorth == raw.netWorth
      && n.details == raw.details
      && (TextTruthy(raw.accountNumber) <==> n.accountNumber.Some?)
      && (CodeTruthy(raw.providerCategoryId) <==> n.providerCategoryId.Some?)
  {
    var n := Normalize(raw);
    CopyIsIdentity(raw.parents);
    CopyIsIdentity(raw.children);
    CopyIsIdentity(raw.siblings);
    CopyIsIdentity(raw.spouses);
  }

  /** Copying a relation list gives back an equal list. */
  lemma CopyIsIdentity(rs: seq<Relation>)
    ensures CopyRelations(rs) == rs
  {
    var r := CopyRelations(rs);
    assert forall i :: 0 <= i < |rs| ==> r[i] == rs[i];
  }

  /** Normalisation is a projection onto NormalForm: a node already in
      normal form is what its own raw record normalises to. */
  lemma NormalizeToRaw(n: Node)
    requires NormalForm(n)
    ensures Normalize(ToRaw(n)) == n
  {
    KindCodeRoundTrip(n.kind.value);
    CopyIsIdentity(n.parents);
    CopyIsIdentity(n.children);
    CopyIsIdentity(n.siblings);
    CopyIsIdentity(n.spouses);
  }

  /** The `wealthData` array: one normalised node per raw record, in order. */
  function WealthData(raws: seq<RawRecord>): (r: seq<Node>)
    ensures |r| == |raws|
    ensures forall i :: 0 <= i < |raws| ==> r[i] == Normalize(raws[i])
  {
    if raws == [] then [] else [Normalize(raws[0])] + WealthData(raws[1..])
  }

  /** The output has the input's ids in the input's order, and each node
      keeps the relation lists of its record. */
  lemma WealthDataKeepsIds(raws: seq<RawRecord>)
    ensures |WealthData(raws)| == |raws|
    ensures forall i :: 0 <= i < |raws| ==>
      && WealthData(raws)[i].id == raws[i].id
      && WealthData(raws)[i].parents == raws[i].parents
      && WealthData(raws)[i].children == raws[i].children
      && WealthData(raws)[i].siblings == raws[i].siblings
      && WealthData(raws)[i].spouses == raws[i].spouses
      && NormalForm(WealthData(raws)[i])
  {
    forall i | 0 <= i < |raws|
      ensures WealthData(raws)[i].id == raws[i].id
      ensures WealthData(raws)[i].parents == raws[i].parents
      ensures WealthData(raws)[i].children == raws[i].children
      ensures WealthData(raws)[i].siblings == raws[i].siblings
      ensures WealthData(raws)[i].spouses == raws[i].spouses
      ensures NormalForm(WealthData(raws)[i])
    {
      NormalizeFields(raws[i]);
    }
  }

  // ---------------------------------------------------------------------
  // Data sources

  const FamilySource := "Family Structure"
  const WealthSource := "Wealth Structure"

  /** The keys of the source table, in declaration order. */
  const SourceKeys: seq<string> := [FamilySource, WealthSource]

  /** The first key of the source table. */
  const DefaultSource: string := SourceKeys[0]

  /** Looking up a source by key. The family data file is a parameter
      because its contents are not part of this model. */
  function SourceNodes(key: string, family: seq<Node>, rawWealth: seq<RawRecord>): (r: Option<seq<Node>>)
    ensures r.Some? <==> key in SourceKeys
    ensures key == WealthSource ==> r == Some(WealthData(rawWealth))
  {
    if key == FamilySource then Some(family)
    else if key == WealthSource then Some(WealthData(rawWealth))
    else None
  }

  /** The default source is the family structure and names a source. */
  lemma DefaultSourceIsFamily(family: seq<Node>, rawWealth: seq<RawRecord>)
    ensures DefaultSource == FamilySource
    ensures SourceNodes(DefaultSource, family, rawWealth) == Some(family)
  {
  }
}
