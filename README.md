# Caesar batch-payment page: recipient list and send gate

This project models the logic of the `CaesarApp` page component. The page is a
form for sending crypto payments to many wallets at once. Its state is one
ordered list of recipient rows. Each row has an `id`, an `address` and an
`amount`, and all three are free text. The model covers:

- the initial list: one blank row named "1";
- `addRecipient`: appends a blank row named after the new length;
- `removeRecipient`: drops every row with the given id, but only when more than
  one row is left;
- `updateRecipient`: sets the address or the amount of every row with the given id;
- `calculateTotal`: sums the parsed amounts of all rows, and a failed parse counts as 0;
- `handleSendPayments`: checks in order for a connected wallet, then for at
  least one row whose trimmed address and trimmed amount are both non-empty, then
  reports the payment as initiated for that many rows.

Modules:

- `Wrappers` defines `Option`.
- `JsStrings` models `String.prototype.trim` (ECMAScript white space and line
  terminators) and `Number.prototype.toString` on natural numbers. It also has the
  decimal reading that undoes `toString`.
- `Sequences` models `Array.prototype.filter` and says what "keeps the original
  order" means (`IsSubsequence`).
- `Recipients` holds the rows and the pure list transforms, with `Step`/`Run` for
  any sequence of edits. It also holds the id-collision results and the corrected
  naming of new rows (see Findings).
- `Totals` holds `calculateTotal`, a left fold like `reduce`. It is proved equal to
  a reference sum, and the effect of each edit on the total is proved.
- `CaesarPage` holds the component as a class `CaesarApp`. Its `recipients` field
  is the state cell. Each handler replaces that field with the result of the pure
  transform. The send handler is a method that returns the outcome the toasts report.

Row ids are not unique: a new row is named after the current length, so after a
removal ids can repeat. The total sums every row, including rows with no address
and rows with negative amounts. The lemmas `IdsCanCollide`,
`TotalCountsInvalidRows` and `TotalCountsNegativeAmounts` show these cases.

Parsing is a parameter `parse: string -> Option<real>`. `None` stands for
`Number.parseFloat` returning NaN. Amounts are exact reals. The wallet connection is
a boolean input to `HandleSendPayments`.

## Model

| member | source | states |
|---|---|---|
| JsStrings.Trim | app/page.tsx:55 | `trim()` returns the slice of the text between white-space-only ends; the result is empty exactly when the text is all white space |
| JsStrings.NatToString | app/page.tsx:26 | `toString()` of a natural number is a non-empty run of decimal digits with no leading zero |
| JsStrings.DecimalValueOfNatToString | app/page.tsx:26 | reading back the numeral gives the number: the id of a new row denotes the new length |
| JsStrings.NatToStringInjective | app/page.tsx:26 | different lengths give different id strings |
| Sequences.Filter | app/page.tsx:32 | `filter` keeps exactly the elements satisfying the predicate, each as often as in the input, as a subsequence in the original order |
| Sequences.FilterKeepsAll | app/page.tsx:32 | filtering with a predicate that every element satisfies returns the list unchanged |
| Sequences.FilterEmptyIff | app/page.tsx:55-56 | the filtered list is empty exactly when no element satisfies the predicate |
| Recipients.InitialRecipientsShape | app/page.tsx:20 | the initial list has one row, id "1" (the numeral of 1), with blank address and amount; it has no valid row |
| Recipients.Add | app/page.tsx:25-28 | the list grows by one; earlier rows are unchanged and in place; the new last row is blank and its id is exactly the numeral `toString` gives for the old length + 1, which denotes that number |
| Recipients.Remove | app/page.tsx:30-34 | with at most one row the list is unchanged (even if the id matches); otherwise the result is exactly the rows whose id differs, with multiplicities, in their original order |
| Recipients.RemoveAbsentIdKeepsList | app/page.tsx:32 | removing an id no row has leaves the list unchanged |
| Recipients.Update | app/page.tsx:36-38 | length, order and every id are kept; every row with the id gets the field set and keeps the other field; every other row is identical |
| Recipients.UpdateAbsentIdKeepsList | app/page.tsx:37 | updating an id no row has leaves the list unchanged |
| Recipients.UpdateIdempotent | app/page.tsx:37 | applying the same update twice equals applying it once |
| Recipients.ValidRecipients | app/page.tsx:55 | exactly the rows whose trimmed address and trimmed amount are non-empty, with multiplicities, in list order, no longer than the list; empty exactly when no row is valid |
| Recipients.CanonicalIdsAreDistinct | app/page.tsx:26 | rows named "1", "2", … by position have pairwise distinct ids |
| Recipients.RunWithoutRemoveKeepsCanonicalIds | app/page.tsx:25-38 | any sequence of adds and updates keeps ids "1".."n" by position, hence distinct, and never shrinks the list |
| Recipients.IdsCanCollide | app/page.tsx:25-34 | add, remove "1", add from the initial list gives two rows both named "2" |
| Recipients.RunCanEmptyList | app/page.tsx:25-34 | add, remove "1", add, remove "2" from the initial list gives the empty list |
| Recipients.WithoutIdDropsAtMostOne | app/page.tsx:32 | when ids are distinct, filtering out one id drops at most one row |
| Recipients.RemoveKeepsDistinctIds | app/page.tsx:30-34 | removal keeps distinct ids distinct |
| Recipients.MaxIdValue | app/page.tsx:26 | the largest number denoted by an id in use bounds every id's number and is attained |
| Recipients.AddFresh | app/page.tsx:25-28 | corrected add: the list grows by one blank row at the end and the new id differs from every existing id |
| Recipients.FixedRunNeverEmpty | app/page.tsx:25-38 | with corrected adds, from any non-empty list with distinct ids, no sequence of edits empties the list or repeats an id |
| Recipients.FixedRunFromInitialNeverEmpty | app/page.tsx:20-38 | with corrected adds, no sequence of edits from the initial list ever empties it |
| Totals.Contribution | app/page.tsx:41 | a failed parse of the amount (NaN, replaced by 0) contributes 0; a parsed value (0 included) contributes itself |
| Totals.ReduceIsSum | app/page.tsx:41 | the left fold from a seed equals the seed plus the sum over all rows of their contributions |
| Totals.CalculateTotal | app/page.tsx:40-42 | the total equals the sum over all rows of the parsed amounts |
| Totals.InitialTotalIsZero | app/page.tsx:20-42 | the total of the initial list is 0, given that the empty text fails to parse |
| Totals.AddKeepsTotal | app/page.tsx:25-28 | adding a blank row leaves the total unchanged |
| Totals.RemoveTotal | app/page.tsx:30-34 | removing takes exactly the contributions of the rows with that id off the total |
| Totals.UpdateAddressKeepsTotal | app/page.tsx:36-41 | editing an address never changes the total |
| Totals.UpdateAmountTotal | app/page.tsx:36-41 | editing an amount replaces the contributions of the rows with that id by one copy per row of the new text's contribution |
| Totals.TotalCountsInvalidRows | app/page.tsx:40-42 | a row with no address is not valid, yet its amount is in the total |
| Totals.TotalCountsNegativeAmounts | app/page.tsx:40-42 | a negative amount is in the total and its row is valid |
| CaesarPage.CaesarApp.constructor | app/page.tsx:20 | the state starts as the initial list |
| CaesarPage.CaesarApp.AddRecipient | app/page.tsx:25-28 | the state becomes `Add` of the old state |
| CaesarPage.CaesarApp.RemoveRecipient | app/page.tsx:30-34 | the state becomes `Remove` of the old state |
| CaesarPage.CaesarApp.UpdateRecipient | app/page.tsx:36-38 | the state becomes `Update` of the old state |
| CaesarPage.CaesarApp.HandleSendPayments | app/page.tsx:44-68 | not connected gives the connect prompt, whatever the list holds; connected with no valid row gives the error; otherwise "initiated" for exactly the number of valid rows (at least 1, at most the list length); the list is not changed |

## Left out

- `Number.parseFloat`, the floating-point running sum and `toFixed(4)` are not modelled. Parsing is the parameter `parse`, and amounts are exact reals. A parse that yields an infinity has no counterpart.
- Totals.UpdateAmountTotal: writes "n copies of c" as the repeated sum `Repeated(n, c)` rather than the product `n * c`, to keep real multiplication out of the proof.
- Rendering, CSS, the trash button's `disabled` state (app/page.tsx:143), address truncation for display, and showing the total only when it is positive are not modelled. They are presentation only.
- Toast titles and texts, the `open()` call and the `console.log` payload (app/page.tsx:46-51, 57-61, 65-68, 70-74) are not modelled. They are foreign calls and logging. The outcome `SendOutcome` records which toast is shown and the count it names.
- The `useAccount` / `useAppKit` hooks, AppKit/Wagmi initialisation and provider wiring (context/index.tsx, config/index.tsx, app/layout.tsx) are not modelled. The connection is a boolean input.
- contracts/scripts/deploynpc.js is not modelled. It is a deployment script that makes network calls and writes a file.
- `handleSendPayments` is `async` but awaits nothing, so no interleaving is modelled. It never submits a transaction. Name resolution, base-unit conversion and a transaction lifecycle do not exist in the code, so they are not modelled.
- JavaScript strings are UTF-16 code units and Dafny's `char` is a Unicode scalar value. No white-space character that `trim` strips lies outside the Basic Multilingual Plane, so the two readings agree.

## Findings

| source | as written | input that shows it | evidently intended | confidence | as-written member | corrected member |
|---|---|---|---|---|---|---|
| app/page.tsx:25-34 | `addRecipient` names a new row `(length + 1)`, which can repeat the id of a live row. `removeRecipient` then filters out every row with that id once more than one row is left. | From the initial list: add, remove "1", add (two rows named "2"), remove "2". The list becomes empty. | Row ids are unique, so removal drops one row and the list never becomes empty. | high, not executed | Recipients.RunCanEmptyList | Recipients.AddFresh, Recipients.FixedRunNeverEmpty |

The class `CaesarApp` models the page as written, with `Add`. `CaesarPage.EmptyingSession` plays the emptying session on the class. The corrected naming (`AddFresh`, used by `StepFixed`/`RunFixed`) is the definition for which the never-empty and distinct-id properties are proved.
