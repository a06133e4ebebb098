# formulasage in Dafny

formulasage is a bilingual (English and Burmese) catalog of Excel formulas
and productivity tips. Its browser client has a drag-and-drop formula builder,
public search pages, and an admin console backed by a hosted Postgres
database and file storage. This project models the client's deterministic
logic and proves what that logic promises:

- **Argument parser** (`argument_parser.dfy`). `parseArguments` turns a formula
  signature into its argument tokens. Its two regular expressions are written
  out as explicit scans over the characters.
- **Builder** (`range_selector.dfy`, `arg_map.dfy`, `builder_item.dfy`,
  `builder.dfy`). The cell-range selector of the sample table is a class whose
  mouse handlers append the references they emit to a trace. The builder
  session is a class holding the placed functions and the active argument
  slot. It comes with the per-slot rules of a function card and the preview
  string.
- **Rows and images** (`formula_rows.dfy`, `tip_rows.dfy`, `storage.dfy`,
  `formula_service.dfy`, `tip_service.dfy`). The mapping between nested
  records and flat database rows, and the decisions about which stored
  images are uploaded, replaced or deleted. The database, the storage bucket
  and the session are oracles: parameters answer each request, and each
  operation returns the trace of requests it sent.
- **Client collections** (`by_id.dfy`, `formula_store.dfy`, `tip_store.dfy`).
  Adding, replacing and deleting records by id, and the bookmark set.
- **Admin console** (`admin_form.dfy`, `admin.dfy`, `bulk_upload.dfy`). The
  dotted-path form update, the example and file-slot handlers, the grouped
  and searchable side panels, and the CSV import loop with its counters.
- **Catalog pages** (`home.dfy`, `category_page.dfy`, `search.dfy`,
  `header.dfy`, `category_card.dfy`, `formula_card.dfy`,
  `reset_password.dfy`). Featured and grouped selections, difficulty
  buckets, search filters and the `q` URL parameter, navigation
  highlighting, the category icon, the difficulty badge, and the
  password-reset checks.
- **Shared modules** (`wrappers.dfy`, `strings.dfy`, `seqs.dfy`,
  `sorting.dfy`, `grouping.dfy`, `records.dfy`). Option and Result, text
  helpers (substring search, split and join, trimming, lowercasing, number
  printing), filters, a sort, the `forEach`/`push` grouping into a
  dictionary, and the formula and tip records.

Handlers that change component state in steps are methods of a class, with
`modifies` clauses. Pure derivations are functions. Loops are methods proved
against a specification function. Dictionaries that the source fills in key
order are association lists in insertion order.

## Model

| member | source | states |
|---|---|---|
| ArgumentParser.LastClose | src/lib/utils.ts:17 | the greedy `(.*)\)` ends at the last `)` of the searched span: the result is a `)` with none after it, or none exists |
| ArgumentParser.FirstSplitComma | src/lib/utils.ts:25 | the first comma from a position whose lookahead `(?![^()]*\))` succeeds, and no split comma before it; none means no later comma splits |
| ArgumentParser.SplitPieces | src/lib/utils.ts:25 | `split` always yields at least one piece |
| ArgumentParser.TrimAll | src/lib/utils.ts:25 | `.map(arg => arg.trim())`: same length, each token is the trimmed piece at its position |
| ArgumentParser.ParseArguments | src/lib/utils.ts:15-26 | empty syntax, a failed match and an empty group all give `[]`; every token has no surrounding whitespace |
| ArgumentParser.MatchFromNone | src/lib/utils.ts:17 | the regex fails when no `(` has a `)` after it on the same line |
| ArgumentParser.MatchFromSome | src/lib/utils.ts:17 | the regex matches whenever some `(` has a `)` after it with no line terminator between |
| ArgumentParser.MatchFromIff | src/lib/utils.ts:17 | the regex matches exactly when some `(` has a `)` after it on the same line |
| ArgumentParser.NoGroupNoTokens | src/lib/utils.ts:17-20 | a signature without a `(`…`)` pair yields no tokens |
| ArgumentParser.GreedyCapture | src/lib/utils.ts:17 | on one line the capture runs from after the first `(` to before the last `)` |
| ArgumentParser.PieceCount | src/lib/utils.ts:25 | the number of pieces is the number of split commas plus one |
| ArgumentParser.PiecesRejoin | src/lib/utils.ts:25 | joining the pieces with `,` gives back the captured group (nothing but split commas is removed) |
| ArgumentParser.FlatGroupSplitsAtEveryComma | src/lib/utils.ts:22-25 | with no parentheses in the group every comma is a split point |
| ArgumentParser.ParseArgumentsSpec | src/lib/utils.ts:25 | on a non-empty group: one token per split comma plus one, token i is the trimmed piece i, pieces rejoin to the group |
| ArgumentParser.EmptyGroupExample | src/lib/utils.ts:18-19 | `=PI()` gives `[]` |
| ArgumentParser.BlankGroupExample | src/lib/utils.ts:18-25 | a blank group `( )` passes the empty check and gives the single token `""` |
| ArgumentParser.NestedCallExample | src/lib/utils.ts:22-25 | `=IF(AND(a,b), c)` gives `["AND(a,b)", "c"]`: a comma inside a nested call does not split |
| ArgumentParser.ParseSignature | src/lib/utils.ts:15-26 | round trip: a signature written from plain argument names parses back to exactly those names |
| ArgumentParser.DocumentedExample | src/lib/utils.ts:9-11 | the XLOOKUP signature gives its four tokens ending in `[if_not_found]` |
| RangeSelector.ColumnName | src/components/sample-data-table.tsx:16 | the header letter for columns A–D; otherwise a text that does not start with a digit (`undefined`) |
| RangeSelector.CellReference | src/components/sample-data-table.tsx:33-35 | column letter followed by the decimal 1-based row |
| RangeSelector.CellReferenceInjective | src/components/sample-data-table.tsx:33-35 | a reference determines its row and, on the lettered columns, its column |
| RangeSelector.RangeReference | src/components/sample-data-table.tsx:52-64 | the references of the min/max corners: one reference when they coincide, `TL:BR` otherwise |
| RangeSelector.RangeReferenceSymmetric | src/components/sample-data-table.tsx:52-58 | swapping start and end reports the same range |
| RangeSelector.RangeReferenceSingle | src/components/sample-data-table.tsx:57-64 | on the lettered columns a single reference is reported exactly when start and end are the same cell |
| RangeSelector.InRectangleBetween | src/components/sample-data-table.tsx:72-77 | the highlighted rectangle is the cells between start and end in both directions |
| RangeSelector.RectangleHoldsEnds | src/components/sample-data-table.tsx:72-77 | the rectangle always contains both ends |
| RangeSelector.SampleDataTable.constructor | src/components/sample-data-table.tsx:29-31 | not selecting, no start, no end, nothing reported |
| RangeSelector.SampleDataTable.MouseDown | src/components/sample-data-table.tsx:37-42 | selecting, start = end = the cell, and the cell reference is reported at once |
| RangeSelector.SampleDataTable.MouseOver | src/components/sample-data-table.tsx:44-48 | moves the end only while selecting; everything else unchanged |
| RangeSelector.SampleDataTable.MouseUp | src/components/sample-data-table.tsx:50-67 | while selecting reports the normalised range; never selecting afterwards; reports nothing otherwise |
| RangeSelector.SampleDataTable.MouseLeave | src/components/sample-data-table.tsx:84 | stops selecting, keeps start and end, reports nothing |
| RangeSelector.SampleDataTable.IsCellInRange | src/components/sample-data-table.tsx:69-78 | false when not selecting or an end is missing; otherwise true iff the cell is in the min/max rectangle |
| RangeSelector.SampleDataTable.EndsHighlighted | src/components/sample-data-table.tsx:69-78 | during a drag both ends are highlighted |
| RangeSelector.Drag | src/components/sample-data-table.tsx:37-67 | a full drag reports the pressed cell and then the range, so the range is the last report |
| ArgMap.Keys | src/app/builder/page.tsx:131 | the keys in insertion order |
| ArgMap.Values | src/app/builder/page.tsx:131 | `Object.values`: the values in key order |
| ArgMap.Lookup | src/components/builder-function-item.tsx:70 | `args[key]` is undefined exactly for a missing key, else the value stored under it |
| ArgMap.Assign | src/app/builder/page.tsx:107-110 | an existing key keeps its place, a new key goes last |
| ArgMap.AssignReadsBack | src/app/builder/page.tsx:107-110 | after the assignment the key reads the new value |
| ArgMap.AssignKeepsOthers | src/app/builder/page.tsx:107-110 | every other key reads as before |
| ArgMap.AssignDistinct | src/app/builder/page.tsx:107-110 | keys stay distinct |
| ArgMap.BlankArgsSpec | src/app/builder/page.tsx:79-82 | distinct keys, exactly the argument tokens, every value `""`; repeated tokens collapse |
| ArgMap.BlankArgsKeys | src/app/builder/page.tsx:79-82 | the keys are the argument tokens in the order they first appear, each later repeat dropped (`FirstOccurrences`, which keeps exactly the tokens and is never longer) |
| ArgMap.BlankArgsKeysInOrder | src/app/builder/page.tsx:79-82 | with distinct tokens the keys are exactly the tokens, in slot order |
| ArgMap.BlankArgsLookup | src/app/builder/page.tsx:79-82 | every token reads back `""` |
| ArgMap.InitialArgValues | src/app/builder/page.tsx:79-82 | the `reduce` loop builds exactly the blank argument object |
| BuilderItem.SlotLabel | src/components/builder-function-item.tsx:66 | the token with every `[` and `]` removed and every other character kept |
| BuilderItem.OptionalSlotLabel | src/components/builder-function-item.tsx:66 | `[name]` and `name` are both labelled `name` |
| BuilderItem.Placeholder | src/components/builder-function-item.tsx:73 | `optional` exactly when the token starts with `[`, else `required` |
| BuilderItem.Slots | src/components/builder-function-item.tsx:34-75 | one slot per parsed token in order, with its label, value, placeholder and active flag |
| BuilderItem.AtMostOneActive | src/components/builder-function-item.tsx:62 | two active slots of one instance carry the same token |
| BuilderItem.PlaceholderExample | src/components/builder-function-item.tsx:73 | `[if_not_found]` is optional, `lookup_value` required |
| Builder.LibraryFormulas | src/app/builder/page.tsx:56-66 | all formulas for an empty term; else exactly those whose current-language or English title contains the term ignoring case, in order |
| Builder.FindDropped | src/app/builder/page.tsx:75 | the first formula whose id renders as the dropped id, or none |
| Builder.InstanceIdCollision | src/app/builder/page.tsx:85 | two instance ids coincide exactly when formula id and clock reading coincide |
| Builder.RemoveId | src/app/builder/page.tsx:98-100 | removes exactly the instances with the id, the rest in order |
| Builder.RemoveAbsentId | src/app/builder/page.tsx:98-100 | removing an id nobody has changes nothing |
| Builder.ChangeArgument | src/app/builder/page.tsx:102-115 | only instances with the id change, and only their argument object, by one assignment |
| Builder.ChangeArgumentEffect | src/app/builder/page.tsx:102-115 | the changed argument reads the new value, other arguments as before |
| Builder.ChangeAbsentId | src/app/builder/page.tsx:102-115 | a change for an unknown id changes nothing |
| Builder.FunctionName | src/app/builder/page.tsx:133 | the name never contains `(` |
| Builder.FunctionNameOf | src/app/builder/page.tsx:133 | `=NAME(…)` gives `NAME` |
| Builder.Shown | src/app/builder/page.tsx:131 | an empty value shows as `...`, any other value as itself |
| Builder.ShownAll | src/app/builder/page.tsx:131 | each shown value is the value at its position |
| Builder.Calls | src/app/builder/page.tsx:130-135 | one `NAME(args)` call per instance, in order |
| Builder.FormulaPreview | src/app/builder/page.tsx:127-137 | the placeholder when nothing is placed, else `=` and the calls joined by ` + ` |
| Builder.PreviewIsPlaceholderIffEmpty | src/app/builder/page.tsx:127-144 | the preview equals the placeholder exactly when nothing is placed |
| Builder.FreshCallShowsDots | src/app/builder/page.tsx:79-131 | a freshly dropped formula shows `...` for each of its distinct tokens |
| Builder.BuilderSession.constructor | src/app/builder/page.tsx:44-53 | empty builder, no active slot, no result or error |
| Builder.BuilderSession.HandleDrop | src/app/builder/page.tsx:72-90 | an unknown id changes nothing; a known one appends one instance with blank arguments; the rest is unchanged |
| Builder.BuilderSession.RemoveFunction | src/app/builder/page.tsx:98-100 | the list becomes `RemoveId` of the old one; the rest is unchanged |
| Builder.BuilderSession.HandleArgumentChange | src/app/builder/page.tsx:102-115 | the list becomes `ChangeArgument` of the old one; the rest is unchanged |
| Builder.BuilderSession.HandleArgumentFocus | src/app/builder/page.tsx:117-119 | the focused slot becomes the active one; nothing else changes |
| Builder.BuilderSession.HandleTableCellSelect | src/app/builder/page.tsx:121-125 | no-op without an active slot; otherwise the argument change on the active slot |
| Builder.BuilderSession.ClearBuilder | src/app/builder/page.tsx:92-96 | empties the list and clears result and error, keeps the active slot |
| Builder.BuilderSession.HandleCalculate | src/app/builder/page.tsx:139-166 | a missing key is reported first, then an empty builder; otherwise the preview is sent and the answer or its error recorded |
| FormulaRows.FromRow | src/lib/formulaService.ts:9-26 | a missing row gives the empty record; otherwise every field is read from its column pair, each `NULL` list column as `[]` on its own, each difficulty label that is `NULL` or empty as its Beginner label on its own |
| FormulaRows.FromRowDefaults | src/lib/formulaService.ts:17-22 | `NULL` lists become `[]` and the difficulty becomes `Beginner` / `လွယ်ကူသော` |
| FormulaRows.ToColumns | src/lib/formulaService.ts:31-71 | each nested field present writes both its columns with its texts, an absent one neither; syntax only when non-empty; `is_new` and `examples` whenever given, false included |
| FormulaRows.EditReadsBack | src/lib/formulaService.ts:31-71 | an edit written over a stored row reads back with exactly the edited fields changed, the rest as before |
| FormulaRows.EmptyPatchWritesNothing | src/lib/formulaService.ts:31-71 | an empty edit writes no column |
| FormulaRows.RoundTrip | src/lib/formulaService.ts:9-71 | a formula with non-empty syntax, every field present and non-empty difficulty labels reads back unchanged after `toSupabase` |
| FormulaRows.RoundTripNeedsDifficulty | src/lib/formulaService.ts:22-59 | empty difficulty labels read back as the Beginner pair, so the round trip needs them non-empty |
| TipRows.FromRow | src/lib/tipService.ts:9-23 | a missing row gives the empty record; otherwise every field is read from its columns, each `NULL` list column as `[]`, the visual explanation as the image URL or `''` |
| TipRows.FromRowDefaults | src/lib/tipService.ts:16-21 | `NULL` lists become `[]` and a `NULL` image the empty URL |
| TipRows.ToColumns | src/lib/tipService.ts:27-61 | each nested field present writes both its columns with its texts or lines, an absent one neither; example code only when non-empty; `image_url` exactly when the visual explanation key is present, as its URL or `NULL` |
| TipRows.EditReadsBack | src/lib/tipService.ts:27-61 | an edit written over a stored row reads back with exactly the edited fields changed, the rest as before |
| TipRows.RoundTrip | src/lib/tipService.ts:9-61 | a tip with example code and a visual explanation reads back unchanged, an empty URL included |
| TipRows.RoundTripAddsVisual | src/lib/tipService.ts:21-58 | a tip without a visual explanation reads back with an empty one |
| Storage.FirstOf | src/lib/formulaService.ts:97 | the first character from a stop set, none before it |
| Storage.Pathname | src/lib/formulaService.ts:97-98 | a parsed URL's pathname always starts with `/` |
| Storage.StoragePath | src/lib/formulaService.ts:97-99 | the bucket path, when there is one, is non-empty |
| Storage.DeleteImage | src/lib/formulaService.ts:94-109 | nothing for an empty URL or one without a bucket path; otherwise exactly one removal of that path; never fails |
| Storage.DeleteIfSet | src/lib/formulaService.ts:122-123 | a missing URL removes nothing; a present one behaves as `deleteImage` |
| Storage.PathnameOf | src/lib/formulaService.ts:97 | for `scheme://host` plus a plain path the pathname is recovered exactly |
| Storage.AfterMarkerOf | src/lib/formulaService.ts:98 | `prefix/formula-visuals/name` yields `name` |
| Storage.StoragePathOfPublicUrl | src/lib/formulaService.ts:87-100 | the public URL of an uploaded file leads `deleteImage` to remove exactly that file |
| FormulaService.Bucketed | src/lib/formulaService.ts:78-100 | one bucket request per storage call, in order |
| FormulaService.ImageName | src/lib/formulaService.ts:75 | example images are stored under `formula-…` names |
| FormulaService.ProcessFromSpec | src/lib/formulaService.ts:116-136 | succeeds iff every file index is an example index whose upload succeeds; then exactly the examples with a file get the new URL, the rest are unchanged |
| FormulaService.ProcessImagesForExamples | src/lib/formulaService.ts:111-137 | the loop meets `ProcessFrom`: same length, new URL where a file is given, old example elsewhere; fails on a file past the examples or a failed upload |
| FormulaService.NoFilesNoRequests | src/lib/formulaService.ts:118-134 | with no file nothing changes and nothing is sent |
| FormulaService.DeleteAll | src/lib/formulaService.ts:172-174 | at most one removal per URL |
| FormulaService.DeleteAllSnoc | src/lib/formulaService.ts:172-174 | one more URL adds exactly its own `deleteImage` requests at the end |
| FormulaService.ImageUrls | src/lib/formulaService.ts:172-173 | no more URLs than examples |
| FormulaService.ImageUrlsSpec | src/lib/formulaService.ts:172-173 | a URL is listed iff it is non-empty and some example carries it |
| FormulaService.DeleteExampleImages | src/lib/formulaService.ts:243-247 | the loop removes the image of every example that has one, in order |
| FormulaService.StaleUrls | src/lib/formulaService.ts:200-207 | no more stale URLs than current examples |
| FormulaService.StaleUrlsSpec | src/lib/formulaService.ts:200-207 | a URL is removed iff it is non-empty, a current example carries it and no new example does |
| FormulaService.DeleteStaleImages | src/lib/formulaService.ts:200-207 | the loop removes exactly the stale URLs, in the order of the current examples |
| FormulaService.ExamplesOnly | src/lib/formulaService.ts:165 | the follow-up write touches only the examples column |
| FormulaService.AddFormula | src/lib/formulaService.ts:140-179 | no session fails before any request; insert without examples first; insert failure stops; a failed image step fails after its uploads; a failed example write fails and removes every image of the processed examples; success returns the stored row read back |
| FormulaService.UpdateFormula | src/lib/formulaService.ts:181-226 | no session fails first; a failed read stops; otherwise stale images are removed and new images processed on every path; a failed image step fails before the write; the write sends the patch with the processed examples and its error becomes the result |
| FormulaService.UpdateWithoutExamplesClears | src/lib/formulaService.ts:196-213 | a patch without examples writes an empty list and removes every stored image |
| FormulaService.KeptImageSurvives | src/lib/formulaService.ts:202-205 | an image some new example keeps is never removed |
| FormulaService.DeleteFormula | src/lib/formulaService.ts:228-259 | no session fails first; stored images are removed only after a successful read; the row is deleted whatever the read gave |
| TipService.Bucketed | src/lib/tipService.ts:68-92 | one bucket request per storage call, in order |
| TipService.ImageName | src/lib/tipService.ts:65 | tip images are stored under `tip-…` names |
| TipService.WithImage | src/lib/tipService.ts:165-169 | only the `image_url` column changes |
| TipService.RemoveStored | src/lib/tipService.ts:161-163 | no removal for a missing or empty stored URL; at most one otherwise |
| TipService.AddTip | src/lib/tipService.ts:102-139 | no session fails first; the insert never carries `image_url`; a failed upload fails after the insert and the upload request, leaving the inserted row in place; with a successful upload its URL is written, and the upload is removed again if that write fails |
| TipService.UpdateTip | src/lib/tipService.ts:141-183 | no session fails first; a failed read stops; a file replaces the old image; no file plus a cleared URL and a stored image removes it and writes `NULL`; otherwise the image is untouched |
| TipService.NewUrlWithoutFileKeepsOldImage | src/lib/tipService.ts:160-170 | a new non-empty URL without a file is written but the old image stays in the bucket |
| TipService.DeleteTip | src/lib/tipService.ts:185-208 | no session fails first; the image is removed only after a successful read of a non-empty URL; the row is deleted whatever the read gave |
| ById.ReplaceByIdSpec | src/contexts/formula-context.tsx:96 | replacing keeps the length and every record with another id in place; the matching ones become the new record |
| ById.ReplaceAbsent | src/contexts/tip-context.tsx:71 | with no record carrying the id nothing changes |
| ById.RemoveByIdSpec | src/contexts/formula-context.tsx:101 | exactly the records with another id survive, in order |
| ById.RemoveByIdIdempotent | src/contexts/tip-context.tsx:76 | removing twice is removing once |
| ById.RemoveByIdCount | src/contexts/formula-context.tsx:101 | the length drops by the number of records carrying the id |
| FormulaStore.Toggled | src/contexts/formula-context.tsx:108-126 | the id leaves the set if present and joins if absent; other ids are unchanged |
| FormulaStore.ToggleTwice | src/contexts/formula-context.tsx:108-126 | two toggles restore the set |
| FormulaStore.Bookmarked | src/contexts/formula-context.tsx:128-130 | exactly the formulas whose id is bookmarked |
| FormulaStore.BookmarkedInOrder | src/contexts/formula-context.tsx:128-130 | the bookmarked formulas keep the list order |
| FormulaStore.FromRows | src/contexts/formula-context.tsx:66 | one formula per fetched row, with its id, in query order |
| FormulaStore.Store.constructor | src/contexts/formula-context.tsx:47-50 | empty list, loading, no user, no bookmarks |
| FormulaStore.Store.Loaded | src/contexts/formula-context.tsx:53-74 | the fetched list on success, the old one on error; loading ends either way |
| FormulaStore.Store.UserChanged | src/contexts/formula-context.tsx:76-86 | the user's stored ids, or no bookmarks without a user |
| FormulaStore.Store.AddFormula | src/contexts/formula-context.tsx:88-92 | the saved formula goes first, the rest unchanged |
| FormulaStore.Store.UpdateFormula | src/contexts/formula-context.tsx:94-97 | every formula with the id is replaced, in place |
| FormulaStore.Store.DeleteFormula | src/contexts/formula-context.tsx:99-102 | exactly the formulas with the id are removed |
| FormulaStore.Store.IsBookmarked | src/contexts/formula-context.tsx:104-106 | set membership; never with no user |
| FormulaStore.Store.BookmarkedFormulas | src/contexts/formula-context.tsx:128-130 | exactly the listed formulas whose id is bookmarked |
| FormulaStore.Store.ToggleBookmark | src/contexts/formula-context.tsx:108-126 | no-op without a user; otherwise the set is toggled when the backend succeeds and unchanged when it fails |
| FormulaStore.ToggleTwiceRestores | src/contexts/formula-context.tsx:108-126 | two successful toggles leave the bookmarks as they were |
| TipStore.FromRows | src/contexts/tip-context.tsx:11-25 | one tip per fetched row, in query order, each with a visual explanation |
| TipStore.Store.constructor | src/contexts/tip-context.tsx:38-39 | empty list, loading |
| TipStore.Store.Loaded | src/contexts/tip-context.tsx:41-62 | the fetched list on success, the old one on error; loading ends either way |
| TipStore.Store.AddTip | src/contexts/tip-context.tsx:64-67 | the saved tip goes first, the rest unchanged |
| TipStore.Store.UpdateTip | src/contexts/tip-context.tsx:69-72 | every tip with the id is replaced, in place |
| TipStore.Store.DeleteTip | src/contexts/tip-context.tsx:74-77 | exactly the tips with the id are removed |
| AdminForm.SetAt | src/app/admin/page.tsx:156-159 | assigning at a path succeeds only by rebuilding objects along the path, and the result is an object |
| AdminForm.GetAtSnoc | src/app/admin/page.tsx:149-151 | walking one more part of the name is one more field lookup |
| AdminForm.SetAtOk | src/app/admin/page.tsx:156-159 | the assignment succeeds exactly when the parent of the last part is an object |
| AdminForm.SetAtReadsBack | src/app/admin/page.tsx:157-159 | after the assignment the name reads back the assigned value |
| AdminForm.SetAtElsewhere | src/app/admin/page.tsx:147 | the deep copy leaves every path that parts ways with the name unchanged |
| AdminForm.FormValue | src/app/admin/page.tsx:155-159 | under a multi-line field the stored lines join back to the typed value; elsewhere the text is stored as typed |
| AdminForm.HandleFormChange | src/app/admin/page.tsx:142-163 | the new state exists exactly when the parent is an object (a type error otherwise); the name then reads the stored value and every diverging path is unchanged |
| AdminForm.LineFieldStoresLines | src/app/admin/page.tsx:155-157 | a name such as `longDescription.en` splits into its two parts and stores the lines of the value |
| Admin.DifficultyPair | src/app/admin/page.tsx:210-216 | each of the three level names maps to its bilingual pair; any other value falls back to Beginner |
| Admin.FormOf | src/app/admin/page.tsx:94-97 | the form copy always has a difficulty (Beginner when missing) and a syntax breakdown (empty when missing); every other field is the selection's |
| Admin.SetSlot | src/app/admin/page.tsx:196-200 | the slot at the index holds the new file, slots past the old end are empty, the others are unchanged |
| Admin.WithoutIndex | src/app/admin/page.tsx:190 | the element at the index is dropped and the rest keep their order; an index past the end changes nothing |
| Admin.FormulaEditor.constructor | src/app/admin/page.tsx:33-44 | the editor starts with no selection, the blank form and no file slots |
| Admin.FormulaEditor.SelectionChanged | src/app/admin/page.tsx:92-106 | a selection loads its form copy with one empty slot per example; no selection loads the blank form and no slots; slots and examples stay in step |
| Admin.FormulaEditor.SelectFormula | src/app/admin/page.tsx:121 | a new selection runs the effect; re-selecting the same formula leaves the form and slots as they are |
| Admin.FormulaEditor.AddNewFormulaAsWritten | src/app/admin/page.tsx:122-126 | the blank form is shown, but the slots are only cleared when a formula was selected before |
| Admin.FormulaEditor.AddNewFormula | src/app/admin/page.tsx:122-126 | the blank form with no slots, slots and examples in step |
| Admin.FormulaEditor.AddExample | src/app/admin/page.tsx:180-186 | one blank example and one empty slot are appended; in-step state stays in step |
| Admin.FormulaEditor.RemoveExample | src/app/admin/page.tsx:187-193 | the example and its slot at the index go together |
| Admin.FormulaEditor.HandleExampleFileChange | src/app/admin/page.tsx:194-201 | only the slot at the index changes; the form is untouched |
| Admin.FormulaEditor.HandleExampleChange | src/app/admin/page.tsx:168-179 | only the named field of the example at the index changes; other examples, fields and slots are untouched |
| Admin.FormulaEditor.RemoveExampleImage | src/app/admin/page.tsx:202-209 | the slot at the index is emptied and that example's image URL cleared |
| Admin.FormulaEditor.HandleDifficultyChange | src/app/admin/page.tsx:210-217 | only the difficulty changes, to the pair of the chosen level |
| Admin.AddNewKeepsStaleSlots | src/app/admin/page.tsx:122-126 | with no selection, adding an example and then asking for a new formula leaves one slot for zero examples |
| Admin.AddNewThenEdit | src/app/admin/page.tsx:180-193 | after the corrected new-formula handler, adding and removing examples keeps the slots in step |
| Admin.FilterGroups | src/app/admin/page.tsx:301-305 | narrowing never adds groups |
| Admin.FilterGroupsFrom | src/app/admin/page.tsx:303-304 | every kept group is a non-empty narrowing of an input group |
| Admin.FilterGroupsKeeps | src/app/admin/page.tsx:302-306 | every group with a matching formula is kept, narrowed to its matches |
| Admin.FilterGroupsDistinct | src/app/admin/page.tsx:302-305 | narrowing keeps the category keys distinct |
| Admin.FilteredFormulas | src/app/admin/page.tsx:292-307 | the loop computes the sorted, grouped and narrowed list the lemmas below describe |
| Admin.SortedSameFormulas | src/app/admin/page.tsx:294 | sorting by English title keeps the same formulas |
| Admin.SortedGroups | src/app/admin/page.tsx:294-299 | the category groups of the sorted list have distinct keys and non-empty groups in title order |
| Admin.SortedGroupMember | src/app/admin/page.tsx:296-298 | a member of a group is an input formula with that group's category |
| Admin.FilteredGroupsDistinct | src/app/admin/page.tsx:292-307 | no category is listed twice |
| Admin.FilteredGroupsOrdered | src/app/admin/page.tsx:292-307 | every listed group is non-empty and sorted by English title |
| Admin.FilteredGroupsMembers | src/app/admin/page.tsx:292-307 | every listed formula is an input formula under its own category and, for a non-empty term, matches it |
| Admin.FilteredGroupsComplete | src/app/admin/page.tsx:292-307 | every formula the term matches (all for an empty term) is in the listed group of its category |
| Admin.FilteredTips | src/app/admin/page.tsx:309-312 | an empty term lists every tip; otherwise exactly the tips whose lowercased English title contains the lowercased term |
| Admin.FilteredTipsInOrder | src/app/admin/page.tsx:311 | the tip list keeps the panel's order |
| BulkUpload.DifficultyMy | src/components/admin/BulkFormulaUpload.tsx:18-25 | each English level maps to its Burmese label; anything else, a missing cell included, gives Beginner's |
| BulkUpload.LinesOf | src/components/admin/BulkFormulaUpload.tsx:65-69 | a missing cell gives no lines; a present one at least one line, joining back to the cell |
| BulkUpload.PrepareSpec | src/components/admin/BulkFormulaUpload.tsx:56-84 | the payload keeps title and syntax and copies every other single-line cell (left out when missing), has one example with the code and explanation cells and an empty image URL, writes the legacy example column (empty for a missing code), and stores all four multi-line cells as lines that join back (none for a missing cell) |
| BulkUpload.RowOutcome | src/components/admin/BulkFormulaUpload.tsx:49-118 | a row is rejected exactly when its title or syntax is missing or empty; an accepted row fails exactly when its write returns an error, with that message; otherwise it succeeds, as an update exactly when the title search found a formula |
| BulkUpload.RowCallsSpec | src/components/admin/BulkFormulaUpload.tsx:86-112 | a rejected row makes no request; an accepted one searches by title and then writes once, an update exactly when a formula was found |
| BulkUpload.ErrorLine | src/components/admin/BulkFormulaUpload.tsx:51 | every log line starts with `Row ` and the one-based row number |
| BulkUpload.ErrorsMatchFailures | src/components/admin/BulkFormulaUpload.tsx:116-124 | there is one log line per failed row, each starting with `Row ` |
| BulkUpload.SuccessPlusFailed | src/components/admin/BulkFormulaUpload.tsx:128 | every row is counted once, as a success or as a failure |
| BulkUpload.ImportRow | src/components/admin/BulkFormulaUpload.tsx:46-124 | one pass of the loop body yields the row's outcome and its requests |
| BulkUpload.Upload | src/components/admin/BulkFormulaUpload.tsx:40-131 | the report's total is the row count, successes and failures add up to it, there is one log line per failure, the refresh fires exactly when something succeeded, and the requests are those of every row in order |
| Home.FilterSplit | src/app/page.tsx:32-34 | the new and the not-new formulas together are the whole list |
| Home.FeaturedSpec | src/app/page.tsx:32-35 | four featured formulas (all when fewer): the first new ones in list order, then the first not-new ones in list order |
| Home.Select | src/app/page.tsx:28-51 | nothing while loading; otherwise the featured list, the category groups, the sorted category names (a permutation of the keys), the new count and the first four formulas |
| Home.GroupedSpec | src/app/page.tsx:37-44 | distinct keys, exactly the categories present, each group the formulas of its category in order, sizes adding up to the list length |
| CategoryPage.Place | src/app/category/page.tsx:34-44 | the switch appends the formula to exactly the list of its level |
| CategoryPage.Select | src/app/category/page.tsx:19-47 | nothing while loading; otherwise the category groups, the sorted names and each level list equal to the formulas of that level in order |
| CategoryPage.LevelListsSpec | src/app/category/page.tsx:34-44 | a formula is in a level list exactly when its English difficulty is that level; another or missing difficulty puts it in none |
| CategoryPage.LevelListsBounded | src/app/category/page.tsx:34-44 | the three level lists together hold at most the whole list |
| Search.QueryOf | src/app/formulas/page.tsx:42 | a missing `q` reads as the empty query |
| Search.SyncQuery | src/app/formulas/page.tsx:29-34 | a non-empty term sets `q`, an empty one deletes it, and every other parameter is kept |
| Search.QueryRoundTrip | src/app/formulas/page.tsx:29-42 | after the URL effect the page filters by exactly the typed term |
| Search.SearchFormulas | src/app/formulas/page.tsx:40-56 | an empty query shows every formula; any result is a selection of the list |
| Search.SearchFormulasSpec | src/app/formulas/page.tsx:40-56 | a formula is shown exactly when the query is empty or occurs, lowercased, in its title, short description or category in the page language or in its English title; order is kept |
| Search.SearchFormulasIgnoresCase | src/app/formulas/page.tsx:46 | queries that lowercase alike show the same formulas |
| Search.EnglishTitleAlwaysSearched | src/app/formulas/page.tsx:54 | a query in the English title finds the formula in either language |
| Search.SearchTips | src/app/tips/page.tsx:151-162 | an empty term shows every tip; any result is a selection of the list |
| Search.SearchTipsSpec | src/app/tips/page.tsx:151-162 | a tip is shown exactly when the term is empty or occurs, lowercased, in its title, old-method or new-method title in the page language or in its English title; order is kept |
| Search.EmptyState | src/app/tips/page.tsx:196-200 | a message appears exactly when nothing is shown: `noTips` for an empty term, else `noResults` with the term |
| Search.NoTipsOnlyWhenEmpty | src/app/tips/page.tsx:151-154 | with no term, `noTips` appears exactly when there are no tips |
| Header.IsActive | src/components/header.tsx:42-47 | the home link is active only on `/`; every other link on each path that starts with it |
| Header.VisibleLinks | src/components/header.tsx:28-40 | the five public links in order, then the admin link exactly for an administrator |
| Header.SectionActive | src/components/header.tsx:45-46 | a path below a section activates that section's link |
| Header.HomeExclusive | src/components/header.tsx:43 | on `/` only the home link is active |
| CategoryCard.GetCategoryIcon | src/components/category-card.tsx:30-38 | the loop returns the icon of the first table key found in the lowercased name |
| CategoryCard.FirstIconSpec | src/components/category-card.tsx:32-37 | the icon is that of a key occurring in the name with no earlier key occurring, or the default when no key occurs |
| CategoryCard.IconIgnoresCase | src/components/category-card.tsx:31 | names that lowercase alike get the same icon |
| CategoryCard.DateBeforeTime | src/components/category-card.tsx:25-26 | `Date & Time` gets the calendar, because `date` is declared before `time` |
| FormulaCard.ShownDifficulty | src/components/formula-card.tsx:54 | the label is never empty: the formula's label in the page language, else `Intermediate` |
| FormulaCard.GetDifficultyIcon | src/components/formula-card.tsx:34-48 | an icon exactly for the six known labels |
| FormulaCard.DifficultyStyle | src/components/formula-card.tsx:25-32 | a style exactly for the six known labels, the one in the table |
| FormulaCard.LanguagesLookAlike | src/components/formula-card.tsx:25-48 | the English and Burmese labels of a level get the same icon and style |
| FormulaCard.LevelsDiffer | src/components/formula-card.tsx:25-48 | the three levels get different icons and different styles |
| FormulaCard.MissingDifficultyBadge | src/components/formula-card.tsx:54 | a formula without a difficulty shows the Intermediate icon and yellow style |
| ResetPassword.HasRecoveryToken | src/app/reset-password/page.tsx:27 | the form is offered exactly when `type=recovery` occurs at some position of the hash |
| ResetPassword.RecoveryLinkOpensForm | src/app/reset-password/page.tsx:27 | a recovery link's hash, access token first, opens the form |
| ResetPassword.Validate | src/app/reset-password/page.tsx:42-49 | no error exactly when the entries agree and have at least six characters; a mismatch is reported before the length |
| ResetPassword.FailureMessage | src/app/reset-password/page.tsx:69 | the shown error is never empty: the service's message, else the default |
| ResetPassword.MismatchFirst | src/app/reset-password/page.tsx:42-49 | a too-short mismatch reports the mismatch; the length error implies equal entries |
| ResetPassword.ResetForm.constructor | src/app/reset-password/page.tsx:16-37 | empty entries, no error, not loading, and the recovery flag read from the hash |
| ResetPassword.ResetForm.HandleResetPassword | src/app/reset-password/page.tsx:40-72 | the service is called exactly when validation passes; a failed check shows its message, success navigates to `/login`, a service error shows its message and stops loading; entries never change |
| Grouping.GroupBy | src/app/page.tsx:37-44 | the `forEach`/`push` loop builds the dictionary the grouping lemmas describe |
| Grouping.GroupKeys | src/app/page.tsx:37-44 | the dictionary has distinct keys, exactly the keys of the records |
| Grouping.GroupMembers | src/app/page.tsx:38-43 | each group holds exactly the records with its key, in input order |
| Grouping.GroupSizesSum | src/app/page.tsx:38-43 | the group sizes add up to the number of records |
| Grouping.GroupHolding | src/app/page.tsx:37-44 | every record lies in the group of its own key |
| Sorting.SortBy | src/app/admin/page.tsx:294 | the result is sorted by the key and a permutation of the input |
| Sorting.SortTexts | src/app/page.tsx:46 | the category names come out sorted and are a permutation of the keys |
| Sorting.SortedSpec | src/app/admin/page.tsx:294 | the sort specification is sorted and a permutation of its input |
| Records.CategoryKey | src/app/page.tsx:39 | the key is never empty: the English category, or `Uncategorized` when it is empty |
| Seqs.Filter | src/app/page.tsx:32 | every kept element passes the test and comes from the list, and every passing element is kept |
| Seqs.FilterIsSubsequence | src/app/page.tsx:48 | filtering keeps the list order |
| Strings.Split | src/lib/utils.ts:25 | splitting always yields at least one piece |
| Strings.JoinSplit | src/app/admin/page.tsx:157 | joining the pieces with the separator gives back the text |
| Strings.TrimSpec | src/lib/utils.ts:25 | trimming drops exactly the leading and trailing whitespace |
| Strings.Lower | src/app/formulas/page.tsx:46 | lowercasing keeps the length and maps each character on its own |

## Left out

- Database, storage, authentication and AI calls are not modelled as code. Each is a parameter that supplies the answer, and each operation returns the requests it sent. Network failures other than a returned error are not modelled.
- The `ilike` title search of the CSV import and its `maybeSingle` answer are an oracle (`lookup`). Case-insensitive matching inside the database is not modelled.
- `Date.now()` in builder instance ids and in image file names is a parameter. The file extension and random parts of image names are left out. Ids are not unique in the source, and the model does not assume they are; `Builder.InstanceIdCollision` states when two ids collide.
- `toLowerCase` folds only ASCII `A`–`Z`. Unicode case mapping is not modelled.
- The model compares texts by code point. The source sorts with `localeCompare` (src/app/admin/page.tsx:294), which uses locale collation, and with the default `sort` (src/app/page.tsx:46, src/app/category/page.tsx:47), which compares UTF-16 code units and so differs from code-point order above U+FFFF. Neither order is modelled.
- `String.prototype.trim` uses the ECMAScript whitespace and line-terminator set. Other Unicode space characters are included only as far as that set lists them.
- Password length is counted in characters (code points), not UTF-16 code units.
- JavaScript object-key order (`Object.keys`, `Object.values`, `for … in`) is insertion order. The integer-like keys that JavaScript lists first are not modelled.
- `new URL(...)` parsing in `deleteImage` is reduced to its pathname text: the path after the host, cut at the first `?` or `#`. The percent-encoding, dot-segment removal and host normalisation that `new URL` performs are not modelled.
- AdminForm.HandleFormChange: arrays in the form state are reached only through object keys. A numeric path part into an array is treated as a type error rather than an index.
- The admin panel's `formulas.sort(...)` sorts the shared context array in place. The model sorts a copy, so the aliasing with the context state is not captured.
- Admin.FormulaEditor.HandleExampleChange: the source copies the examples array shallowly and mutates the shared example object. The model updates a copy, so the aliasing is not captured.
- The admin tip editor (the select-tip effect, `removeTipImage`, the tip submit) is not modelled. `handleTipChange` is covered by `AdminForm.HandleFormChange`.
- The admin submit handlers, `window.confirm`, `location.reload`, toasts and the auth subscription of the reset-password page are left out. They are confirmation, notification and reload plumbing.
- Debounce timing, React batching and re-rendering are left out. Each handler is one sequential state transition.
- `difficultyMap[value]` and the CSV difficulty map also answer for inherited object keys such as `constructor`. The model treats only the three level names as keys.
- Grouping.GroupBy: the pages group into a plain `{}` (src/app/page.tsx:40-43, src/app/category/page.tsx:29-32, src/app/admin/page.tsx:297-298). A category whose English name is an inherited key such as `constructor` or `toString` finds a truthy inherited value, and the `push` throws. `Home.Select`, `CategoryPage.Select` and `Admin.FilteredFormulas` group such formulas normally instead.
- FormulaService.ProcessImagesForExamples: the source copies the examples array shallowly and assigns `imageUrl` on the caller's example objects. The model updates a copy, so the admin form does not keep the new URL after a failed write, and a retry does not first delete that upload.
- Admin.FormulaEditor.SelectFormula: the model compares the selection by value. React compares the effect dependency by reference, so an equal but new formula object re-runs the effect in the source and not in the model.
- Sorting.SortBy: stability is not stated. The contract promises sorted order and a permutation only.
- The tips page's `Array.isArray(...) ? ... : []` guard is left out. Tips loaded through `TipRows.FromRow` always hold lists in those fields.
- The URL query is a map with one value per key (`Search.QueryOf`, `Search.SyncQuery`). `URLSearchParams` can hold a key several times: with `?q=a&q=b`, `get` answers the first value and `set` replaces all of them. Repeated keys are not modelled.
- Rendering, styles other than the difficulty badge, and the icons' drawing are left out.
- The language context is used only through its `Intermediate` label.

## Findings

| source | as written | input that shows it | evidently intended | confidence | as-written member | corrected member |
|---|---|---|---|---|---|---|
| src/app/admin/page.tsx:122-126 | `handleAddNewFormula` resets the form but relies on the select effect to clear `exampleFiles`; the effect only runs when the selection changes | with no formula selected, add an example, then click "add new formula": the form has 0 examples but 1 file slot | the file slots are cleared together with the examples, so both lists stay the same length | not executed | Admin.FormulaEditor.AddNewFormulaAsWritten, Admin.AddNewKeepsStaleSlots | Admin.FormulaEditor.AddNewFormula, Admin.AddNewThenEdit |
