# Family-tree viewer, modelled in Dafny

This project models the core of a React family-tree and wealth-structure viewer. It covers:

- **The tree partition** (`graph.dfy`, `partition.dfy`). The node list is split into family trees like this: walk the nodes in input order, and start a breadth-first search at every node not yet visited. Two nodes are related when either one names the other in its parents, children, siblings or spouses. The search loop is modelled as written: a queue with duplicates allowed, the visited set, and a rescan of the whole list for every dequeued node. It is proved to produce a partition into connected components:
  - every node lands in exactly one group;
  - each group is exactly what its first member reaches;
  - groups come in the input order of their first members;
  - the grouping is a permutation of the input.

  Each group becomes one tree layout, rooted at its earliest member and keyed by it.
- **The view state** (`app.dfy`). A class holds the current source, its nodes, the root id, the selected id and the hovered id. It has the handlers that change them:
  - change source, reset, re-root;
  - select, close, hover, clear.

  It also has the derived values: the visibility of the reset button and the node shown in the details panel.
- **The wealth-record normaliser and the source table** (`records.dfy`). It covers:
  - the upper-case type codes and their fallback to `account`;
  - the default gender;
  - the entry-by-entry copy of the relation lists;
  - the "falsy becomes absent" rule;
  - the two data sources and the default one.
- **The formatters** (`format.dfy`). These are currency, percent, date and the account-number mask. Locale output is kept symbolic (a `Piece` stands for what `Intl` prints); the placeholder rules are modelled exactly.
- **The details panel** (`presenter.dfy`). It is an ordered list of sections:
  1. the header;
  2. the basic section of the kind;
  3. the section chosen by the provider category code (eleven renderers);
  4. the relation panels of the kind.

  Every field carries its label as an enumeration, with `LabelText` giving the text shown.
- **The card of a node** (`card.dfy`). It covers:
  - the value it picks;
  - the style class of its account type;
  - the balance text;
  - the content for each kind.

JavaScript truthiness is written out as predicates in `entity.dfy`:

- a number 0 is falsy;
- an empty string is falsy;
- an amount object is always truthy.

`null` and `undefined` are both `None`.

## Model

| member | source | states |
|---|---|---|
| Partition.EnqueueRelated | src/components/App/App.tsx:37-53 | the queue grows by exactly the unvisited nodes related to the dequeued node, in input order (`Pending`) |
| Partition.PendingMembers | src/components/App/App.tsx:38-51 | a node is pushed iff it is in the list, not visited and related to the dequeued node |
| Partition.ConnectedNodes | src/components/App/App.tsx:25-57 | the search returns, starting with the start node and without repeats, exactly the nodes reachable from the start; the visited set grows by exactly their ids and stays closed under adjacency |
| Partition.FamilyTrees | src/components/App/App.tsx:20-68 | the groups are non-empty, cover exactly the input, repeat no id, are the connected components of their first members, and each first member is the earliest node no earlier group holds |
| Partition.ExactlyOneGroup | src/components/App/App.tsx:59-65 | every input node is in exactly one group, and no group repeats an id |
| Partition.GroupsDisjoint | src/components/App/App.tsx:31-33 | a node of one group is in no other group |
| Partition.SameGroupIffConnected | src/components/App/App.tsx:29-54 | two nodes share a group iff a path of related nodes joins them |
| Partition.FirstMembersInInputOrder | src/components/App/App.tsx:60-65 | groups come in the input order of their first members |
| Partition.FirstMemberIsEarliest | src/components/App/App.tsx:60-65 | a group's first member is its input-order-earliest member |
| Partition.PartitionIsPermutation | src/components/App/App.tsx:20-68 | concatenated, the groups are a permutation of the input |
| Partition.LayoutRoots | src/components/App/App.tsx:116-120 | one layout per group: its members are the group, its root is the group's earliest member, and the React keys are distinct |
| Graph.ConnectedSymmetric | src/components/App/App.tsx:39-47 | the adjacency tests both directions, so reachability is symmetric |
| Graph.ConnectedTransitive | src/components/App/App.tsx:29-54 | reachability composes along paths |
| Graph.ClosedReach | src/components/App/App.tsx:31-38 | nothing reachable from a set closed under adjacency lies outside it |
| Graph.DanglingRelationAddsNoEdge | src/components/App/App.tsx:39-47 | a relation naming an id no node has adds no adjacency between any two nodes |
| App.FindById | src/components/App/App.tsx:89-91 | `find` returns the earliest node with the id, and nothing iff no node has it |
| App.FindUnique | src/components/App/App.tsx:89-91 | with unique ids, the lookup returns exactly the node with that id |
| App.ViewState.constructor | src/components/App/App.tsx:16-17 | the default source, rooted at its first node, with no selection or hover; no reset button |
| App.ViewState.ChangeSource | src/components/App/App.tsx:78-87 | the new source, rooted at its first node, with selection and hover cleared; no reset button and no details panel |
| App.ViewState.ResetRoot | src/components/App/App.tsx:76 | the root returns to the first node, the reset button disappears, and nothing else changes |
| App.ViewState.Reroot | src/components/App/App.tsx:131 | the root becomes the id; the reset button shows iff that is not the first node's id |
| App.ViewState.Select | src/components/App/App.tsx:128-130 | the selected id becomes the clicked id and nothing else changes |
| App.ViewState.Deselect | src/components/NodeDetails/NodeDetails.tsx:107 | closing the panel clears the selection, so no node is shown; nothing else changes |
| App.ViewState.Hover | src/components/App/App.tsx:149 | the hovered id is set and nothing else changes |
| App.ViewState.ClearHover | src/components/App/App.tsx:150 | the hovered id is cleared and nothing else changes |
| App.ViewState.Selected | src/components/App/App.tsx:89-91 | the shown node is in the list and carries the selected id; there is none iff nothing is selected or no node has the id |
| App.ViewState.TreeLayouts | src/components/App/App.tsx:116-120 | the trees drawn form a family partition of the shown list, each rooted at its first member and with distinct keys |
| App.SelectedIsUnique | src/components/App/App.tsx:89-91 | when the selected id names a node, the panel shows exactly that node |
| Records.KindOf | src/components/const.ts:160-173 | each of the four codes gives its kind, and every other string gives `account` |
| Records.KindCodeRoundTrip | src/components/const.ts:160-173 | each kind's code maps back to that kind |
| Records.KindNameInjective | src/components/const.ts:162-169 | the four lower-case kind names are distinct |
| Records.GenderOf | src/components/const.ts:159 | a truthy gender is kept; otherwise `male` for persons and `neutral` otherwise; never empty |
| Records.TextOrAbsent | src/components/const.ts:191-198 | `x \|\| undefined`: a truthy string is kept, an empty or absent one is absent |
| Records.CodeOrAbsent | src/components/const.ts:198 | a non-zero category code is kept; 0 or absent becomes absent |
| Records.CopyRelations | src/components/const.ts:174-189 | the copy has the same length and the same id and type at every index |
| Records.CopyIsIdentity | src/components/const.ts:174-189 | copying a relation list yields an equal list |
| Records.NormalizeFields | src/components/const.ts:156-203 | the normalised node keeps the id, the relation lists, the amounts and the details; its kind is the code's; the number and category are present iff truthy; it is always in normal form |
| Records.NormalizeToRaw | src/components/const.ts:156-203 | normalisation is a projection: a node in normal form is what its raw record normalises to |
| Records.WealthData | src/components/const.ts:156 | one normalised node per record, in order |
| Records.WealthDataKeepsIds | src/components/const.ts:156-203 | the output keeps each record's id and relation lists at its index, and every node is in normal form |
| Records.SourceNodes | src/components/const.ts:205-208 | a key gives a node list iff it is one of the two source keys; the wealth key gives the normalised records |
| Records.DefaultSourceIsFamily | src/components/const.ts:210 | the default source is the first key, the family structure |
| Format.CurrencyCode | src/components/NodeDetails/NodeDetails.tsx:77 | an amount's own currency, or GBP when it is empty; never empty |
| Format.FormatCurrency | src/components/NodeDetails/NodeDetails.tsx:69-89 | a dash iff the value is falsy; an amount object is formatted in its currency or GBP even at 0; a truthy legacy number is formatted in GBP |
| Format.FormatPercent | src/components/NodeDetails/NodeDetails.tsx:91-94 | "0%" iff the value is absent or 0; otherwise one decimal followed by "%" |
| Format.FormatDate | src/components/NodeDetails/NodeDetails.tsx:96-103 | nothing iff the date is absent or empty; otherwise its long form |
| Format.LastChars | src/components/NodeDetails/NodeDetails.tsx:150 | `slice(-n)`: the last `n` characters, all of a shorter string, and all of the string for `n` = 0 |
| Format.Mask | src/components/NodeDetails/NodeDetails.tsx:150 | four asterisks followed by the last four characters (all of a shorter number) |
| Format.MaskDependsOnLastFour | src/components/FamilyNode/FamilyNode.tsx:130 | two numbers that end in the same four characters mask alike |
| Presenter.NumberGuard | src/components/NodeDetails/NodeDetails.tsx:165-170 | `{x && <field/>}` on a number: the field iff the number is truthy, nothing when it is absent; as written, a present 0 leaves the text "0", as intended nothing |
| Presenter.MoneyGuard | src/components/NodeDetails/NodeDetails.tsx:264-269 | the same guard on a monetary value: the field iff truthy (an amount object always is), nothing when absent; as written, a legacy 0 leaves "0", as intended nothing |
| Presenter.BasicInfoChoice | src/components/NodeDetails/NodeDetails.tsx:109-177 | a basic section exists iff the node is a person, an account or has a truthy balance; it is the personal one iff the node is a person |
| Presenter.PersonalFields | src/components/NodeDetails/NodeDetails.tsx:110-136 | a person's section lists net worth, date of birth, relationship status and advisor AUM, in that order |
| Presenter.AccountFields | src/components/NodeDetails/NodeDetails.tsx:138-176 | in both the as-written and the intended rendering: Balance iff a balance is given, Account Number (masked) iff the number is truthy, Provider and Account Type iff truthy, Ownership iff the percentage is truthy |
| Presenter.CategoryOf | src/components/NodeDetails/NodeDetails.tsx:553-593 | a section is chosen iff the code is 1 to 12 but not 9 |
| Presenter.CategoryCodeRoundTrip | src/components/NodeDetails/NodeDetails.tsx:556-589 | every category has exactly one code that selects it |
| Presenter.HoldingViews | src/components/NodeDetails/NodeDetails.tsx:196-219 | one entry per holding, entry `i` being the view of holding `i` |
| Presenter.SpecificDetailsChoice | src/components/NodeDetails/NodeDetails.tsx:179-593 | a category section shows iff the code selects a category and its data is there (details, plus holdings for investment, crypto and NFT); its title is that category's |
| Presenter.HoldingsListed | src/components/NodeDetails/NodeDetails.tsx:179-224 | a holdings section ends with a list whose entry `i` is the view of holding `i` |
| Presenter.HoldingEntry | src/components/NodeDetails/NodeDetails.tsx:196-219 | an entry is headed by the description and the formatted value; investment entries list Quantity, Price, then ISIN iff present; crypto entries (lines 436-459) Quantity, Price, then Symbol iff present; NFT entries (lines 483-502) Token ID, then Collection iff a symbol is present |
| Presenter.RelationPanels | src/components/NodeDetails/NodeDetails.tsx:605-617 | a person gets Parents, Ownership Structures, Siblings and Spouses from its four lists; a company gets Owner from its parents; other kinds get none |
| Presenter.PanelOrder | src/components/NodeDetails/NodeDetails.tsx:595-620 | the panel opens with the header and orders header, basic section, category section, relation panels, with each optional section present iff it renders |
| Presenter.OwnershipZeroShowsStrayZero | src/components/NodeDetails/NodeDetails.tsx:165 | as written, an account with ownership 0 shows a bare "0" in its panel |
| Presenter.RentalIncomeZeroShowsStrayZero | src/components/NodeDetails/NodeDetails.tsx:264 | as written, a property with a legacy rental income of 0 shows a bare "0" |
| Presenter.IntendedHasNoStray | src/components/NodeDetails/NodeDetails.tsx:109-620 | with falsy guards rendering nothing, no section of any panel holds a bare text |
| Card.NodeValue | src/components/FamilyNode/FamilyNode.tsx:69-77 | a truthy balance, else a truthy net worth, else zero GBP; always truthy |
| Card.ToLower | src/components/FamilyNode/FamilyNode.tsx:82 | same length, each letter lower-cased |
| Card.ToLowerIdempotent | src/components/FamilyNode/FamilyNode.tsx:82 | lower-casing twice is lower-casing once |
| Card.ContainsIffOccurs | src/components/FamilyNode/FamilyNode.tsx:83-89 | `includes` finds the keyword iff it occurs at some position |
| Card.FirstMatchSpec | src/components/FamilyNode/FamilyNode.tsx:83-90 | a rule table gives no class iff no rule matches, else the class of the earliest matching rule |
| Card.ClassifyIsFirstMatch | src/components/FamilyNode/FamilyNode.tsx:83-90 | the if-chain agrees with the seven-rule keyword table |
| Card.AccountTypeClass | src/components/FamilyNode/FamilyNode.tsx:79-91 | no class without a truthy details account type; otherwise the first matching rule for its lower-cased form |
| Card.AccountTypeClassIgnoresCase | src/components/FamilyNode/FamilyNode.tsx:82 | the class does not depend on letter case |
| Card.DataAccountType | src/components/FamilyNode/FamilyNode.tsx:111 | the attribute is present iff the details carry an account type, and is its lower-cased form |
| Card.FormattedBalance | src/components/FamilyNode/FamilyNode.tsx:94-103 | a dash iff the balance is falsy; an amount object in its currency or GBP; a legacy number formats an undefined amount |
| Card.FormattedBalanceAgrees | src/components/FamilyNode/FamilyNode.tsx:47-67 | the card's balance text matches the shared currency formatter on absent values and amount objects, and not on truthy legacy numbers |
| Card.CardContent | src/components/FamilyNode/FamilyNode.tsx:114-165 | one content per kind, titled with the id; an account shows its balance text, its provider and, iff the number is truthy, the mask and a full-number hover title (neither without one); a person shows the formatted net worth |
| Card.CardStyle | src/components/FamilyNode/FamilyNode.tsx:109 | the person class iff the node is a person, plus the account-type class |
| Card.AccountCardMask | src/components/FamilyNode/FamilyNode.tsx:128-131 | a long number shows only its last four characters, while the hover title carries all of it |

## Left out

- Rendering, CSS modules, `PinchZoomPan`, the `react-family-tree` layout and the `Relations` component are not part of this model. A tree layout is modelled only by the arguments it is given. A relation panel is modelled only by its heading and its list.
- `Intl.NumberFormat`, `toLocaleString`, `toFixed` and `toLocaleDateString` output is kept symbolic as `Piece` values: digits, symbols, rounding and month names are not modelled. `NaN` and infinities are not modelled. Numbers are `real`.
- Format.FormatCurrency and Card.FormattedBalance: `Intl.NumberFormat` throws a `RangeError` for a malformed currency code. The model's `Currency(code, amount)` piece formats any non-empty code, so that error path is not modelled.
- `toLowerCase` is modelled on ASCII letters only: Unicode case mapping is not modelled.
- The JSON data files and `types.ts` are not part of this model. The family data is a parameter of `Records.SourceNodes`, and the raw wealth records are an input list.
- `null` and `undefined` are one value, `None`. The `!== undefined` tests (`NodeDetails.tsx` lines 141, 187, 258, 341, 427, 474, 517) therefore treat a `null` as absent, where the code would render it.
- `Partition.FamilyTrees` requires unique ids. With duplicate ids the search merges nodes by id, which the model does not describe.
- `App.ViewState.constructor` and `App.ViewState.ChangeSource` require a non-empty list. The code reads `nodes[0].id` and fails on an empty one.
- The source dropdown's URL input and the `SourceSelect` component are not part of this model. `ChangeSource` takes the new key and list as given.
- `Card.CardContent`: `onSubClick`, `isRoot` and `isHover` are passed to the card but the card never reads them. So in the code shown, `App.ViewState.Reroot` is never triggered and the reset button cannot appear. The model keeps `Reroot` for the wiring at `App.tsx:131`.
- `Card.NodeValue` is defined in the card but never used in its markup; it is modelled on its own.
- The card's own copy of `formatCurrency` (`FamilyNode.tsx:47-67`) behaves like the details panel's copy and is modelled once, by `Format.FormatCurrency`.

## Findings

| source | as written | input that shows it | evidently intended | confidence | as-written member | corrected member |
|---|---|---|---|---|---|---|
| src/components/NodeDetails/NodeDetails.tsx:165 | `{x && <field/>}` with a numeric `x` puts `x` itself into the markup when it is 0 (the same shape at lines 264, 308 and 314) | an account whose `details.ownershipPercentage` is 0, or a property (category 4) whose `annualRentalIncome` is the number 0 | a falsy value hides the field and renders nothing | not executed | Presenter.OwnershipZeroShowsStrayZero | Presenter.IntendedHasNoStray |
