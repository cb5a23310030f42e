# Smart receipt ledger — a verified model

This Dafny project models the receipt-ledger core of the smart-ledger web application. The
application keeps a list of receipt entries, newest first. It hands out receipt numbers of the
form `AB_RNC - NN`, adds, deletes and re-statuses entries, and writes the whole list to local
storage after every change. Its dashboard folds the list into a per-status financial summary,
and its entry form edits a draft record that is submitted to the ledger.

| file | module | models |
|---|---|---|
| `wrappers.dfy` | `Wrappers` | `Option` |
| `types.dfy` | `Types` | `types.ts`: the status enum, the entry record, the summary record |
| `js_text.dfy` | `JsText` | the JavaScript built-ins the core relies on: `toString`, `padStart`, `split`, `parseInt` and `Number` |
| `numbering.dfy` | `ReceiptNumbering` | `generateReceiptNo` in `App.tsx` |
| `dashboard.dfy` | `Dashboard` | the `entries.reduce` in `components/Dashboard.tsx` |
| `receipt_form.dfy` | `EntryForm` | `components/ReceiptForm.tsx`: initial draft, change handler, submit handler |
| `app.dfy` | `App` | `App.tsx`: add, delete, status update, storage sync, analysis guard, form-to-ledger wiring |

Modelling choices:

- JavaScript's `NaN` and `undefined` are `None`.
- `Math.max` propagates `None`.
- Money and quantities are unbounded integers, in minor currency units.
- Integer arithmetic is exact (see Left out).
- The list operations are recursive functions over `seq`. The application state is the class
  `App.LedgerStore`. Its `stored` field is what local storage holds. Every method that
  changes the list ends with `stored == entries`, which is the `Synced()` predicate. A
  cancelled delete or a rejected submit leaves storage as it was.
- The form is the class `EntryForm.ReceiptForm`, whose one field is the draft.
- The dashboard's `reduce` is the method `Dashboard.ComputeSummary`. It is a loop with six
  accumulators, proved equal to the recursive fold `Dashboard.Summarize`.

The model follows what the code does:

- **No fallback for a malformed receipt number.** If any receipt number has no numeric suffix,
  `parseInt` yields `NaN` and `Math.max` yields `NaN`. The next number is then
  `AB_RNC - NaN`; there is no fallback to 0 (`ReceiptNumbering.NaNSuffixPoisonsNumbering`).
- **Receipt numbers can be reused.** The next number depends only on the entries present. After
  the entry with the largest number is deleted, that number can be issued again
  (`App.DeletedNumberIsReused`, `App.ReceiptNoReusedAfterDelete`).
- **Loading stored data is not fail-soft.** The stored text is parsed without a guard. The model
  takes the already-decoded list, or `None` when storage is empty, and does not invent a
  recovery path.

## Model

| member | source | states |
|---|---|---|
| Types.StatusName | types.ts:2-6 | every status has a non-empty text value |
| Types.ParseStatus | types.ts:2-6 | reading a text value gives the status whose text it is, and each status's own text reads back as that status |
| Types.StatusIsClosed | types.ts:2-6 | there are exactly three statuses, Paid, Pending and Cancelled; each one's text reads back as itself |
| Types.SummaryDeterminedByStatus | types.ts:23-30 | a summary is fully determined by one amount and one count per status |
| JsText.NatToString | App.tsx:28 | `toString` of a natural number is a non-empty run of decimal digits with no leading zero |
| JsText.PadStart | App.tsx:28 | `padStart` gives length max(width, length of input); the result is fill characters followed by the unchanged input, never truncated |
| JsText.FindFromFirst | App.tsx:25 | the separator search returns the first position at or after the start where the separator occurs |
| JsText.FindFromNone | App.tsx:25 | the separator search reports no match when the separator occurs nowhere after the start |
| JsText.RadixValueOfNatToString | App.tsx:25-28 | reading back the decimal digits written by `toString` gives the same natural number |
| JsText.RadixValueIgnoresLeadingZeros | App.tsx:25 | leading zeros do not change the decimal value `parseInt` reads |
| JsText.ParseIntOfDigits | App.tsx:25 | `parseInt` of a non-empty digit string is its decimal value |
| JsText.ParseIntOfNegatedDigits | App.tsx:25 | `parseInt` of a minus sign followed by digits is the negated decimal value |
| JsText.ParseIntOfPaddedNumber | App.tsx:25-28 | `parseInt` reads back every integer written with `toString` and `padStart(2, '0')`, negative ones included |
| JsText.ToNumberOfNumberToString | components/ReceiptForm.tsx:45 | `Number` reads back every integer written with `String`, which is the text a number input shows |
| ReceiptNumbering.SplitFormatted | App.tsx:25 | `split(' - ')[1]` of the receipt prefix followed by text without spaces is exactly that text |
| ReceiptNumbering.SuffixOfFormatted | App.tsx:25-28 | parsing the suffix of a formatted receipt number gives back the number that was formatted, NaN included |
| ReceiptNumbering.FormatPadsButNeverTruncates | App.tsx:28 | a number below 10 gets one leading zero; larger numbers are written in full after the prefix |
| ReceiptNumbering.FormatHundred | App.tsx:28 | receipt 100 is written `AB_RNC - 100` |
| ReceiptNumbering.FirstReceiptNo | App.tsx:24-28 | on an empty ledger the next receipt number is `AB_RNC - 01` |
| ReceiptNumbering.Max | App.tsx:25 | `Math.max` of two numbers is NaN exactly when one of them is; otherwise it is one of them and at least both |
| ReceiptNumbering.Suffixes | App.tsx:25 | the mapped suffix list has one suffix per entry |
| ReceiptNumbering.MathMaxIsMaximum | App.tsx:25 | without NaN, `Math.max` over the suffixes is at least every suffix and is one of them |
| ReceiptNumbering.MathMaxPoisoned | App.tsx:25 | a single NaN makes `Math.max` NaN |
| ReceiptNumbering.NextReceiptNoIsFresh | App.tsx:24-28 | on a ledger whose numbers all parse, the next suffix is 1 on an empty ledger and otherwise one more than a present suffix; it exceeds every present suffix and the new number differs from every present number |
| ReceiptNumbering.NaNSuffixPoisonsNumbering | App.tsx:24-28 | one receipt number without a numeric suffix makes the next number `AB_RNC - NaN` |
| ReceiptNumbering.PrependKeepsNumbering | App.tsx:37-41 | prepending an entry that carries the generated number keeps every suffix numeric and all receipt numbers distinct |
| ReceiptNumbering.NextAfterFiveTwoOne | App.tsx:24-28 | a ledger holding, newest first, `AB_RNC - 05`, `- 02` and `- 01` gives `AB_RNC - 06` next |
| Dashboard.ComputeSummary | components/Dashboard.tsx:26-45 | the single pass with six accumulators returns the left fold of the per-entry step from the zero summary |
| Dashboard.SummaryOfEmpty | components/Dashboard.tsx:38-45 | an empty ledger has all six summary fields zero |
| Dashboard.FoldFrom | components/Dashboard.tsx:26-37 | folding from any start equals the start plus the summary of the entries |
| Dashboard.FoldOfConcat | components/Dashboard.tsx:26-37 | folding over a concatenation continues from where the first part ended |
| Dashboard.SummaryOfConcat | components/Dashboard.tsx:26-37 | the summary of a concatenation is the field-wise sum of the two summaries |
| Dashboard.SummaryOfCons | components/Dashboard.tsx:26-37 | the summary of a list is its first entry's contribution plus the summary of the rest |
| Dashboard.SummaryIsPerStatus | components/Dashboard.tsx:27-36 | each amount is the sum of `totalAmount` over the entries with that status, and each count is the number of such entries |
| Dashboard.CountsAddUp | components/Dashboard.tsx:27-36 | the three counts add up to the number of entries |
| Dashboard.AmountsAddUp | components/Dashboard.tsx:27-36 | the three amounts add up to the sum of `totalAmount` over all entries |
| Dashboard.SummaryIgnoresOrder | components/Dashboard.tsx:26-45 | any permutation of the entries has the same summary |
| Dashboard.SummaryOfOneEach | components/Dashboard.tsx:26-45 | one entry of each status gives each status that entry's total and a count of one |
| Dashboard.SummaryExample | components/Dashboard.tsx:26-45 | Paid 100, Pending 50 and Cancelled 20 give revenue 100, pending 50, cancelled 20 and one of each |
| EntryForm.FieldName | components/ReceiptForm.tsx:63-145 | every input carries a non-empty name |
| EntryForm.FieldNamesDistinct | components/ReceiptForm.tsx:63-145 | two inputs have the same name exactly when they are the same input |
| EntryForm.NumericFields | components/ReceiptForm.tsx:45 | the inputs converted with `Number` are exactly quantity, price and discount |
| EntryForm.WithField | components/ReceiptForm.tsx:41-47 | a change event stores the converted value in the named field and leaves every other field as it was |
| EntryForm.WithDisplayedValueIsNoOp | components/ReceiptForm.tsx:41-47 | typing back the text an input already shows is accepted and leaves the draft unchanged |
| EntryForm.ChangesOnDistinctFieldsCommute | components/ReceiptForm.tsx:41-47 | change events on two different fields give the same draft in either order |
| EntryForm.OtherFieldsDoNotGateSubmit | components/ReceiptForm.tsx:24 | changing any field other than name and item description never changes whether the submit handler's guard passes; the handler does not check quantity, price or discount |
| EntryForm.InitialFormCannotSubmit | components/ReceiptForm.tsx:11-27 | the form as first shown, with empty name and item description, is rejected |
| EntryForm.ClearedIsInitialWithStatus | components/ReceiptForm.tsx:30-38 | after a submit the draft is the initial draft for the kept date with the kept status, so an immediate second submit is rejected |
| EntryForm.ReceiptForm.constructor | components/ReceiptForm.tsx:11-20 | the form starts with the given date, empty text fields, quantity 1, price 0, discount 0 and status Pending |
| EntryForm.ReceiptForm.HandleSubmit | components/ReceiptForm.tsx:22-39 | an empty name or item description hands over nothing and leaves the draft unchanged; otherwise the current draft is handed over once and the form is cleared except date and status |
| EntryForm.ReceiptForm.HandleChange | components/ReceiptForm.tsx:41-47 | the named field receives the converted value and every other field keeps its value |
| App.MakeEntry | App.tsx:31-40 | the new entry keeps every draft field and takes the given id and number; amount is quantity times price and total is amount less discount, negative exactly when the discount exceeds the amount |
| App.AddKeepsInvariants | App.tsx:31-41 | prepending the new entry with a fresh id keeps ids unique, receipt numbers numeric and distinct, and every entry's amounts consistent with their formulas |
| App.PrependKeepsUniqueIds | App.tsx:41 | putting an entry with a new id in front keeps ids unique and amounts consistent |
| App.AddCountsOnce | App.tsx:41 | adding an entry raises its status's count by one and its status's amount by its total, and leaves the other counts alone |
| App.RemoveById | App.tsx:46 | the filtered list is shorter by exactly the number of entries carrying the id |
| App.CountWithIdZero | App.tsx:46 | no entry carries the id exactly when none is counted |
| App.RemoveByIdKeeps | App.tsx:46 | an entry is kept exactly when it was present and its id differs from the deleted id |
| App.RemoveUnknownIdIsNoOp | App.tsx:46 | deleting an id that no entry has leaves the list unchanged |
| App.RemoveTwiceIsRemoveOnce | App.tsx:46 | deleting the same id twice is deleting it once |
| App.RemoveOfConcat | App.tsx:46 | deleting from a concatenation deletes from each part, so the kept entries stay in order |
| App.UniqueIdsCountAtMostOne | App.tsx:46 | with unique ids a delete removes at most one entry, and exactly one when the id is present |
| App.RemoveKeepsDistinct | App.tsx:46 | deleting keeps ids unique and receipt numbers distinct |
| App.PrependKeepsDistinct | App.tsx:46 | an entry whose id and number are new can sit in front of a list with unique ids and numbers |
| App.DeleteNeverRaisesNext | App.tsx:24-28 | after a delete every suffix still parses; when some entry remains the next suffix is at most what it was before, and a delete that empties the ledger makes the next number `AB_RNC - 01` |
| App.DeletedMaxBoundsNext | App.tsx:24-28 | for a bound `m` of at least 1, as every suffix the ledger issues is: when every entry that survives a delete has a suffix below `m` (as when the deleted entry alone held the largest suffix `m`), the next suffix is at most `m`, so the deleted number comes back or the numbering falls below it |
| App.DeletedNumberIsReused | App.tsx:24-28 | an entry whose number is the one the other entries would issue next, as every entry's is when added, leaves the ledger as the other entries when deleted, and its number is issued next again |
| App.ReceiptNoReusedAfterDelete | App.tsx:44-48 | with `AB_RNC - 02` in front of `AB_RNC - 01`, deleting the newer entry leaves only the older, and the next number is `AB_RNC - 02` again |
| App.SetStatus | App.tsx:51 | a status update keeps the number of entries |
| App.SetStatusAt | App.tsx:51 | every entry keeps all fields but the status; the status becomes the new one exactly for the entries with the id |
| App.SetStatusUnknownIdIsNoOp | App.tsx:51 | updating an id that no entry has leaves the list unchanged |
| App.SetStatusIdempotent | App.tsx:51 | setting the same status twice is setting it once |
| App.SetStatusOverrides | App.tsx:51 | the last status set wins, so any status can follow any status |
| App.SetStatusKeepsNumbering | App.tsx:51 | a status update keeps every suffix and the next receipt number |
| App.SetStatusKeepsDistinct | App.tsx:51 | a status update neither creates nor removes duplicate ids or receipt numbers |
| App.SetStatusKeepsTotals | App.tsx:51 | a status update keeps the total of the three counts and the total of the three amounts in the summary |
| App.RemoveKeepsInvariant | App.tsx:46 | deleting keeps the ledger invariant: unique ids, numeric and distinct receipt numbers, and amounts that agree with quantity, price and discount |
| App.SetStatusKeepsInvariant | App.tsx:51 | a status update keeps the ledger invariant, including amounts that agree with quantity, price and discount |
| App.SetStatusKeepsTotalAmount | App.tsx:51 | a status update keeps the sum of `totalAmount` over all entries |
| App.LedgerStore.constructor | App.tsx:12-15 | the ledger starts from the saved list, or an empty one when nothing is saved, and storage agrees with it |
| App.LedgerStore.AddEntry | App.tsx:31-42 | the new list is the new entry, numbered with the next number, followed by the old list unchanged; storage holds the new list; the ledger invariant is kept for a fresh id |
| App.LedgerStore.DeleteEntry | App.tsx:44-48 | a confirmed delete filters out the id and writes the result to storage; an unconfirmed one leaves the list and storage as they were; the analysis text is kept; the ledger invariant, and uniqueness of ids and numbers on their own, are kept |
| App.LedgerStore.UpdateStatus | App.tsx:50-52 | the list becomes the status update and storage holds it; the next receipt number does not change; the ledger invariant is kept |
| App.LedgerStore.HandleAIAnalysis | App.tsx:54-63 | an empty ledger returns the alert text and keeps the previous analysis; otherwise the analysis of the whole ledger is recorded; entries and storage are untouched |
| App.LedgerStore.SubmitForm | components/ReceiptForm.tsx:22-39 | a submit that passes the guard adds exactly one entry built from the draft, writes the new list to storage and clears the form; a rejected submit changes neither the ledger, storage nor the form; the analysis text is kept; with a fresh id the ledger invariant is kept |

## Left out

- Local storage and JSON: storage is the field `stored`, which holds the list itself. Encoding and decoding are not modelled, including the exception thrown on corrupt stored text.
- Floating point: all numbers are unbounded integers. Rounding, fractional amounts and precision beyond 2^53 are not modelled.
- The browser's constraint validation: the form has `min="1"` on quantity and `min="0"` on price and discount (components/ReceiptForm.tsx:111, 123, 135). It has the default whole-number `step` and no `noValidate` (line 58), so the page never fires submit for values below those bounds or for fractions. This validation is not modelled, so the model's submit also accepts drafts with a quantity below 1 or a negative price or discount, which the page would not submit. The same validation is why only whole numbers reach the ledger in practice.
- EntryForm.WithField: for quantity, price and discount it requires empty text or an optional sign followed by decimal digits. All text containing `.` or `e`/`E` is excluded, even when `Number` reads it as a whole number, such as `5.0`, `1e3` or `2E1`. Text that `Number` reads as a fraction cannot be held in the model's integer fields.
- EntryForm.ReceiptForm.HandleChange: has the same restriction on the number inputs as `EntryForm.WithField`, for the same reason.
- JsText.ToNumber: reads only empty text or signed decimal digits, and so excludes the decimal-point and exponent forms that `Number` also accepts.
- `crypto.randomUUID`: the id is a parameter of `App.LedgerStore.AddEntry`. That it is fresh is a hypothesis of the invariant, not a guarantee.
- `confirm` and `alert` dialogs: the answer to `confirm` is a parameter of `DeleteEntry`. An alert is the text a method returns.
- `new Date()`: today's date is a parameter of the form's constructor.
- The Gemini analysis service: services/geminiService.ts is not part of this model. The analysis is a function parameter of `HandleAIAnalysis`.
- The `isAnalyzing` flag and the asynchronous timing of the analysis are not modelled.
- Rendering:
  - the charts and formatting in components/Dashboard.tsx:47-129;
  - the form markup apart from input names and options;
  - components/ReceiptTable.tsx, which only forwards to the App handlers and is not part of this model.
- React scheduling: every event completes before the next is handled. Stale closures and batched state updates are not modelled.
- `parseInt`: leading white space is a fixed list of common white-space characters, not the whole Unicode space-separator category. The radix argument is not modelled, since the source never passes one.
- JsText.FindFrom: its contract bounds where a match can lie; first-match and no-match are stated separately, by `FindFromFirst` and `FindFromNone`.
