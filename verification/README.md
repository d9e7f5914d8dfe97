# text-annotation, modelled in Dafny

A Dafny model of the logic of the text-annotation system. It has a FastAPI/SQLAlchemy back end and two Vue front ends (`web/` and the older `frontend/`). The model has five parts:

- **Generation tasks** (`Generation`, `ContentParse`, `Sse`). This is the generation task registry of `GenerationService` and the `GenerationTask` state machine. The streaming loop is modelled with each LLM call's outcome as an input sequence.
  - The model also covers the `data: …\n\n` framing of server-sent events (section 9.2 of the WHATWG HTML Living Standard).
  - It also covers the parsing of a generated reply. The four built-in patterns of `_default_parse` are modelled exactly, backtracking included.
- **Label normalisation and request validation** (`Strs`, `Schemas`, `LabelUtils`). These are the comma-separated label validators of `app/schemas.py`, the bounds of `SearchRequest`, and `parseLabels`/`stringifyLabels`.
- **The store and its services** (`Store`, `Sorting`, `StrOrder`, `Services`).
  - The database is a `Database` class. It holds a table of annotation rows with unique ids and texts, and a label table with unique ids and names.
  - On it sit `AnnotationService`, `LabelService` and `StatisticsService`, both as `services.py` has them and as `app/services.py` has them.
- **Imports** (`DataImport`, `LabelDescriptions`). These are the merge of `<label>.txt` files into label sets, the label-config import, the import of new texts, label sync with consecutive ids, and the description update script. The `data_import.py` and `scripts/data_import.py` variants are both modelled.
- **Front-end client state** (`JsValues`, `JsArrays`, `ApiClient`, `BatchRequests`, `BatchSelection`, `WebBatch`, `FrontBatch`, `LabelLists`, `WebLabelStore`, `FrontLabelStore`, `AnnotationStore`, `AppStore`).
  - Each Pinia store and each `useBatchAnnotation` composable is a class whose fields the actions reassign.
  - Each awaited API call is a parameter: `Ok` with the response body, or `Err` with the `ApiError` it rejects with.
  - The model covers `handleError`, the event-stream URL, and the request builders of `BatchAnnotationService`.

Code that loops or changes state is modelled as methods with loop invariants, proved against specification functions. The services' loops, the import loops, the counting loops and the generation loop are modelled this way. Pure code is modelled as functions with lemmas. Source paths below are relative to the repository root.

Behaviours of the code worth knowing:

- `cancel()` overwrites a terminal status.
- Starting a stream on a cancelled task sets it back to `generating`.
- Streaming the same task twice pushes its count above the number requested (`Generation.RerunExceedsTotal`).
- `cancel()` does not abort a call in flight. It only sets a flag, which the loop reads at the start of each iteration.
- The annotation id column is an integer primary key without SQLite's `AUTOINCREMENT` keyword. A new row gets one more than the largest id, so the id of a deleted last row comes back (`Store.LastIdReused`).
- The scripts copy of the import builds label rows with a `description` keyword its `Label` model does not declare (see Findings).

## Model

| member | source | states |
|---|---|---|
| Strs.Strip | app/schemas.py:25 | `strip()`: the result has no surrounding whitespace, is empty exactly when the input is all whitespace, and otherwise occurs inside the input |
| Strs.StripIdempotent | app/schemas.py:25 | stripping twice is stripping once |
| Strs.Split | app/schemas.py:25 | `split(',')`: at least one piece, no piece holds the separator, and joining the pieces gives the input back |
| Strs.SplitJoin | app/services.py:137 | pieces without the separator, joined and split again, come back unchanged |
| Strs.NonEmpty | app/schemas.py:26 | the empty strings are dropped and every non-empty one is kept |
| Strs.Dedupe | app/schemas.py:27 | `list(dict.fromkeys(xs))`: no repeats, and exactly the input's strings |
| Strs.DedupeNoDup | app/schemas.py:114 | a list without repeats is left as it is |
| Strs.LowerAscii | web/src/stores/label.ts:32 | lower-casing maps each character on its own and keeps the length |
| Strs.StripAll | web/src/utils/labelUtils.ts:17 | each string of the list is stripped, and the length is kept |
| Schemas.Pieces | app/schemas.py:24-25 | every piece left after splitting on commas, stripping and dropping empties is non-empty, stripped and comma-free |
| Schemas.NormalizeLabels | app/schemas.py:19-28 | the label validator gives None exactly for None, the empty string, or a string with no non-blank piece |
| Schemas.NormalizeLabelsPieces | app/schemas.py:19-28 | the normalised string is the distinct non-blank pieces in first-occurrence order joined by ", ", and splitting it again gives exactly that list |
| Schemas.PiecesOfJoin | app/schemas.py:28 | a clean label list written with ", " reads back as the same list |
| Schemas.NormalizeLabelsIdempotent | app/schemas.py:19-28 | normalising an already normalised value changes nothing |
| Schemas.ValidateBulkLabelsAgrees | app/schemas.py:104-116 | the bulk-label validator accepts exactly the inputs the optional validator keeps, and returns the same string |
| Schemas.ValidateSearch | app/schemas.py:118-126 | a search request is accepted unchanged exactly when page >= 1 and 1 <= per_page <= 1000; the error names each field that breaks its bound |
| Schemas.ValidateBulkUpdateCases | app/schemas.py:144-193 | a bulk update is accepted exactly when its search criteria, if any, are within the page and page-size bounds, it has criteria or a non-empty id list, no empty id list, and a label change that survives normalisation; criteria out of bounds are refused naming exactly the fields that break them; the accepted request carries the normalised label fields |
| Schemas.CriteriaPageZeroRefused | app/schemas.py:125-126 | a bulk update whose criteria ask for page 0 is refused for the page alone, whatever its ids and labels |
| Schemas.BulkUpdateScriptErrors | tmp/test_bulk_update_labels.py:122-140 | the script's request with ids but no label change is refused for the missing change, and the one with labels but no target for the missing target |
| LabelUtils.ParseLabels | web/src/utils/labelUtils.ts:10-19 | null, undefined and '' give no labels; every label returned is non-empty, trimmed and comma-free |
| LabelUtils.StringifyLabels | web/src/utils/labelUtils.ts:26-28 | a list with no non-blank label is written as the empty string |
| LabelUtils.ParseLabelsSome | web/src/utils/labelUtils.ts:10-19 | the empty string needs no special case: parsing it the general way also gives no labels |
| LabelUtils.ParseStringify | web/src/utils/labelUtils.ts:10-28 | writing comma-free labels and reading them back gives the trimmed non-blank labels in order |
| LabelUtils.ParseStringifyParse | web/src/utils/labelUtils.ts:10-28 | labels read by `parseLabels` survive a write and a re-read unchanged, and writing them is a plain join with "," |
| StrOrder.BelowIrreflexive | data_import.py:68 | Python's string order, used by `sorted(labels)`, is irreflexive |
| StrOrder.BelowTransitive | data_import.py:68 | the string order is transitive |
| StrOrder.BelowTotal | data_import.py:68 | two different strings are ordered one way or the other |
| StrOrder.SortStrFacts | data_import.py:68 | `sorted` over distinct strings gives them strictly ascending, each exactly once |
| StrOrder.AscendingUnique | data_import.py:68 | a set of strings has only one strictly ascending order, so the sorted label string depends only on the set |
| Sorting.SortDescPermutes | services.py:382 | sorting by count with `reverse=True` gives the same elements with counts never increasing |
| Sorting.SortDescStable | app/services.py:379 | the sort is stable: elements with equal counts keep their original order |
| Sse.Frame | server/generation_service.py:102 | a frame is the payload wrapped in `data: ` and a blank line, eight characters longer than the payload |
| Sse.Render | server/generation_service.py:97-145 | the stream is empty exactly when no frame was written |
| Sse.LinesOfRender | server/generation_service.py:97-145 | each frame reaches the receiver as its data line followed by a blank line |
| Sse.DispatchDataLines | server/generation_service.py:97-145 | a data line and a blank line per payload dispatch exactly those payloads, in order |
| Sse.ReceiveRender | server/generation_service.py:97-145 | an event-stream receiver recovers every payload in order from the frames the generator writes, when no payload holds a line break |
| Sse.ReceiveWithTail | server/generation_service.py:97-145 | a stream cut off inside a line dispatches only the frames completed before the cut |
| ContentParse.FirstFrom | server/generation_service.py:221 | the first index at or after a position holding the closing bracket, with none before it |
| ContentParse.SkipSpace | server/generation_service.py:222-224 | greedy `\s*` stops at the first non-whitespace character and consumes only whitespace |
| ContentParse.LastNonNewline | server/generation_service.py:222-224 | the last character of a run that `[^\n]+` can end on, or none when the rest is newlines |
| ContentParse.MatchAt | server/generation_service.py:220-228 | a match the engine finds at a position is a match of the pattern's declarative reading starting there |
| ContentParse.MatchAtComplete | server/generation_service.py:220-228 | whenever the declarative reading has a match at a position, the engine finds one there |
| ContentParse.MatchAtGreedy | server/generation_service.py:220-228 | among all matches at a position the engine takes the one with the longest `\s*` and then the longest group |
| ContentParse.Search | server/generation_service.py:228 | `re.search` returns the match at the leftmost position that has one, and none when no position has one |
| ContentParse.MatchBounds | server/generation_service.py:220-228 | every match and its group are non-empty and lie inside the string |
| ContentParse.SubFromShrinks | server/generation_service.py:232 | `re.sub` with '' shortens the text by at least one character per match and changes nothing without a match |
| ContentParse.ParseWith | server/generation_service.py:227-235 | the text and the labels that come out are stripped |
| ContentParse.DefaultParse | server/generation_service.py:214-235 | the text that `_default_parse` returns is stripped |
| ContentParse.DefaultParseNoMatch | server/generation_service.py:227-235 | there are no labels exactly when none of the four patterns matches the stripped reply, and the text is then the stripped reply |
| ContentParse.DefaultParseFirstMatch | server/generation_service.py:227-233 | when pattern j is the first of the four to match, the labels are its first group stripped and the text is the reply with every match of that pattern removed, then stripped |
| ContentParse.ParseGeneratedContent | server/generation_service.py:189-212 | a parsed text is always stripped, and so are labels that come out |
| ContentParse.ParseGeneratedContentFallback | server/generation_service.py:191-212 | the default parser runs exactly when the pattern is missing or empty, does not compile, does not match, or has no group |
| ContentParse.ParseGeneratedContentGroups | server/generation_service.py:200-205 | with a custom pattern, group 1 stripped is the text and group 2 stripped, when the pattern has it, the labels |
| ContentParse.BracketExample | server/generation_service.py:221 | the reply " 好 [正面] " gives the text "好" and the labels "正面" |
| ContentParse.KeywordExample | server/generation_service.py:222 | the reply "今天很好\n标签： 正面" gives the text "今天很好" and the labels "正面" |
| Generation.Progress | server/generation_service.py:123 | the progress after c of t items is a percentage while c <= t, and 100 when all t are done |
| Generation.Snapshot | server/generation_service.py:48-57 | the status report carries the generation task's status, progress, count, total and error, and the message "已生成 c/t 条数据" |
| Generation.CancelState | server/generation_service.py:43-46 | cancelling raises the flag and sets the status to cancelled whatever it was, touching nothing else |
| Generation.ItemCases | server/generation_service.py:151-187 | an item is produced exactly for a reply whose content parses, and it carries the parsed stripped text, the parsed labels and the reply |
| Generation.Stream | server/generation_service.py:100-145 | a stream on a registered task first reports it as generating |
| Generation.IterateFailure | server/generation_service.py:118-133 | a call or parse that raises emits no frame and changes nothing but what a concurrent cancel changes |
| Generation.IterateSuccess | server/generation_service.py:118-128 | a parsed reply adds exactly that text and one to the count, and is reported in one frame carrying it |
| Generation.LoopStopsWhenCancelled | server/generation_service.py:113-116 | once the flag is found raised, the loop sends one cancelled report and stops |
| Generation.LoopCounts | server/generation_service.py:112-133 | through the loop the count equals the number of texts, the list only grows, by at most one per step, the progress stays a percentage while the count stays within the total, and the error is untouched |
| Generation.LoopActive | server/generation_service.py:112-133 | the loop never reports completed or error and never lowers the cancel flag |
| Generation.StreamEnd | server/generation_service.py:135-139 | without a client error the stream ends completed exactly when the generation task was not cancelled; only then is a completed frame sent, last, with progress 100; a cancel before the loop rules it out |
| Generation.StreamOnFreshTask | server/generation_service.py:100-139 | on a new task the count equals the number of texts, never exceeds the number requested, and the progress stays within 0 to 100 |
| Generation.StreamClientError | server/generation_service.py:141-145 | a client that cannot be built ends the stream in error with its message after two frames, keeping the texts |
| Generation.LoopSmooth | server/generation_service.py:112-133 | when every call succeeds without a cancel, every step adds its text and its frame |
| Generation.StreamSmooth | server/generation_service.py:100-139 | when every call succeeds without a cancel, a new task ends completed with the requested number of texts and one frame per text plus two |
| Generation.OkFailOkExample | server/generation_service.py:130-133 | three requested items whose second call fails give two texts, completed at 100 percent, in four frames |
| Generation.OneItem | server/generation_service.py:174-183 | a reply whose only group is the whole stripped reply becomes a text without labels, raw output kept |
| Generation.RerunExceedsTotal | server/generation_service.py:100-123 | streaming the same task twice appends to it, so the count ends above the number requested |
| Generation.Encoded | server/generation_service.py:102 | one JSON text per frame, in order |
| Generation.WireReceive | server/generation_service.py:97-145 | an event-source client receives each frame's JSON text in order, when the encoding writes no line break |
| Generation.GenerationTask.constructor | server/generation_service.py:31-41 | a new task is pending with nothing generated, count 0, progress 0, no error, not cancelled, total equal to the requested count |
| Generation.GenerationTask.Cancel | server/generation_service.py:43-46 | the generation task's state becomes the cancelled state of its old state |
| Generation.GenerationTask.Advance | server/generation_service.py:118-133 | one pass of the loop body, given the parsed reply or nothing, changes the generation task and emits frames exactly as `IterateWith` says |
| Generation.GenerationTask.RunLoop | server/generation_service.py:112-133 | the loop changes the generation task and emits frames exactly as `Loop` says |
| Generation.GenerationTask.RunStream | server/generation_service.py:100-145 | once the generation task is found, the generation task ends in the state and with the frames `Stream` gives |
| Generation.GenerationTask.GetStatus | server/generation_service.py:48-57 | the report is the snapshot of the generation task's current state |
| Generation.GenerationService.constructor | server/generation_service.py:63-64 | the service starts with no task |
| Generation.GenerationService.CreateTask | server/generation_service.py:66-72 | the new id maps to a new pending task for the request; every other id keeps its task |
| Generation.GenerationService.GetTask | server/generation_service.py:74-76 | a task comes back exactly for a registered id, and it is the one filed under that id |
| Generation.GenerationService.CancelTask | server/generation_service.py:78-85 | true exactly for a registered id, whose task is cancelled even when it already finished; no other task changes |
| Generation.GenerationService.CleanupTask | server/generation_service.py:87-91 | the id is gone afterwards and nothing else changes; removing an absent id is a no-op |
| Generation.GenerationService.GenerateStream | server/generation_service.py:93-145 | an unknown id gets one error frame "任务不存在"; a registered task ends in the state and with the frames `Stream` gives; no other task changes |
| Store.Matching | services.py:128-146 | a search selects no more rows than the table holds |
| Store.MatchingMembers | services.py:128-146 | a search selects exactly the rows every active filter (text contains the query, labels contain some stripped piece, labels NULL or '') accepts |
| Store.Offset | services.py:152 | the number of matches skipped before a valid page is never negative |
| Store.Search | services.py:118-160 | `total` counts every match; the items are the matches from offset `(page - 1) * per_page` on, at most `per_page` of them, in table order, and none past the last match |
| Store.SearchPagesConsecutive | services.py:149-153 | two consecutive pages are two consecutive slices of the matches, so paging skips and repeats nothing |
| Store.MatchingIgnoresPage | services.py:128-146 | the set of matches does not depend on the page or its size |
| Store.LabelFilterIsSubstring | services.py:134-140 | the label filter tests substrings ignoring ASCII case: "positive" selects a text labelled "not_Positive" |
| Store.Relabel | services.py:174-178 | the table after a bulk label keeps its length, and every row whose id is listed carries the new labels |
| Store.Listed | services.py:172-178 | the count returned by a bulk label never exceeds the number of ids sent |
| Store.RelabelKeepsTable | services.py:162-181 | relabelling keeps ids and texts unique, can be repeated harmlessly, and leaves unlisted rows alone |
| Store.ListedCountsRepeats | services.py:174-178 | an existing id sent twice is counted twice, although its row is written once |
| Store.Unstored | services.py:195-206 | no more texts are new than were sent |
| Store.UnstoredSound | services.py:195-206 | a text counted as new is non-empty, was sent, and was not stored |
| Store.UnstoredComplete | services.py:195-206 | every non-empty sent text that was not stored is counted as new |
| Store.NewTexts | services.py:195-206 | an import adds no more texts than lines it was given |
| Store.NewTextsSound | services.py:195-206 | everything an import adds is a stripped non-empty line of the batch that was not stored |
| Store.NewTextsComplete | services.py:195-206 | every stripped non-empty line of the batch that was not stored is added |
| Store.UnstoredNoDup | services.py:195-206 | from pairwise distinct texts no new text is added twice |
| Store.NewTextsNoDup | services.py:195-208 | a batch that repeats no stripped line never breaks the unique text constraint at commit |
| Store.UnstoredRepeat | services.py:195-206 | a new text sent twice is added twice |
| Store.NewTextsRepeat | services.py:195-208 | a batch that repeats a text not yet stored adds it twice, because the existence query does not see pending rows, so the commit breaks the unique constraint |
| Store.Appended | services.py:204-206 | the imported rows follow the old rows with consecutive new ids |
| Store.ImportKeepsTable | services.py:183-209 | an import whose new texts are distinct keeps ids ascending and texts unique |
| Store.ImportCovers | services.py:195-208 | after an import every stripped non-empty line of the batch is stored |
| Store.ImportedAreUnlabeled | app/services.py:204 | the rows either copy of `import_texts` adds (NULL labels in one, '' in the other) are unlabelled, so both leave the labelled count alone |
| Store.MaxLabelId | services.py:247 | `func.max(Label.id)` is None exactly for an empty table, and otherwise an id of the table no smaller than any other |
| Store.NextLabelId | services.py:246-248 | the assigned id is 1 for an empty table, above every existing id, and one more than the largest |
| Store.MaxTextId | models.py:27 | the largest annotation id is None exactly for an empty table, and otherwise an id of the table no smaller than any other |
| Store.NextTextId | models.py:27 | a new annotation id is 1 for an empty table, above every existing id, and one more than the largest |
| Store.NextTextIdOfOrdered | models.py:27 | a table with ascending ids is valid under the id it would give next, which is one more than its last row's id |
| Store.RemoveKeepsTexts | services.py:99-116 | removing any row leaves a valid table under the id it would give next |
| Store.LastIdReused | models.py:27 | after the last row is deleted the next id is at most that row's id, exactly that id when the two last ids were consecutive, and 1 when it was the only row |
| Store.InsertById | services.py:258-260 | adding a label row adds exactly that row |
| Store.InsertByIdKeepsTable | services.py:237-260 | a label whose id and name are both new can be added keeping ids ascending and names unique |
| Store.LabeledCount | services.py:329-334 | no more texts are labelled than exist |
| Store.StatPieces | services.py:369-374 | every label piece that is counted is non-empty |
| Store.CountMapCounts | services.py:368-374 | the counts dictionary holds exactly the pieces seen, each with the number of its occurrences |
| Store.CountStep | services.py:374 | counting one more piece raises its entry by one, and a new key joins the key order at the end |
| Store.Tally | services.py:377-380 | the dictionary's items, in first-seen order: one entry per distinct piece with its number of occurrences |
| Store.LabelStatisticsFacts | services.py:352-382 | the statistics list every non-empty stripped piece exactly once with its number of occurrences, counts descending, ties in first-seen order |
| Store.UnlabeledCount | services.py:336 | labelled and unlabelled texts add up, and the unlabelled ones are exactly what an `unlabeled_only` search finds |
| Services.Database.constructor | services.py:21-28 | a new database holds no text and no label, so the next annotation id is 1 |
| Services.Database.ImportLines | services.py:193-209 | the new stripped lines are appended with consecutive ids from one above the largest id (1 for an empty table) and the count is returned; when the batch repeats a new text the commit fails and nothing changes; the labels table is untouched |
| Services.PendingRows | services.py:195-206 | the loop adds, with consecutive ids, exactly the non-empty texts that are not among the committed rows |
| Services.CountLabels | services.py:368-374 | the counting loop builds exactly the counts dictionary, and its keys in first-inserted order |
| Services.CountPieces | services.py:372-374 | the inner loop adds one occurrence of every non-empty piece, in order |
| Services.AnnotationService.constructor | services.py:21-28 | the service works on the given session, as the given copy |
| Services.AnnotationService.CreateAnnotation | services.py:30-60 | a stored text is refused with the message naming its id and nothing changes; otherwise the row is appended with one more than the largest id (1 for an empty table) and the given labels |
| Services.AnnotationService.GetAnnotation | services.py:62-74 | a row comes back exactly when one has the id, and it is that row |
| Services.AnnotationService.UpdateAnnotation | services.py:76-97 | an unknown id gives None and changes nothing; otherwise the row's labels are replaced when new labels are given, and every other row is kept |
| Services.AnnotationService.DeleteAnnotation | services.py:99-116 | true exactly when a row had the id; that row alone is removed and no row has the id afterwards |
| Services.AnnotationService.SearchAnnotations | services.py:118-160 | the page holds at most `per_page` rows, all stored and matching, out of a total no larger than the table |
| Services.AnnotationService.BulkLabel | services.py:162-181 | the table becomes the relabelled table and the count is the number of listed ids that exist, repeats included |
| Services.AnnotationService.ImportTexts | services.py:183-209 | the new stripped texts are appended unlabelled (NULL here, '' in app/services.py) with consecutive ids from one above the largest id, and counted; a batch repeating a new text fails at commit and changes nothing |
| Services.RelabelStep | services.py:174-178 | one more listed id relabels the row carrying it, if any, and adds one to the count exactly when it exists |
| Services.LabelService.constructor | services.py:215-222 | the service works on the given session, as the given copy |
| Services.LabelService.CreateLabel | services.py:224-263 | a label string already present, or an explicit id already taken, is refused with its message and nothing changes; otherwise the label is added with the given id, or one more than the largest id, or 1 |
| Services.LabelService.GetAllLabels | services.py:265-272 | every label exactly once, in ascending id order |
| Services.LabelService.GetLabel | services.py:274-284 | a label comes back exactly when one has the id, and it is that label |
| Services.LabelService.DeleteLabel | services.py:286-303 | true exactly when a label had the id; that label alone is removed and no label has the id afterwards |
| Services.StatisticsService.constructor | services.py:309-316 | the service works on the given session |
| Services.StatisticsService.GetSystemStats | services.py:318-350 | the totals are the table sizes, labelled and unlabelled texts add up to all texts, the unlabelled ones are those an `unlabeled_only` search finds, and the label statistics are the sorted tally |
| Services.StatisticsService.LabelStatistics | services.py:352-382 | the method computes exactly the sorted tally of label pieces |
| DataImport.Stem | data_import.py:49 | the label is the file name less its ".txt", or the whole name when only dots precede the extension |
| DataImport.StemOfTxt | data_import.py:48-49 | for `X.txt` the label is X, unless X is only dots |
| DataImport.StemExamples | data_import.py:49 | "正面.txt" gives "正面", "a.b.txt" gives "a.b" and ".txt" keeps its whole name |
| DataImport.TxtCount | data_import.py:46-63 | no more files are counted as processed than the walk visits |
| DataImport.FileTags | data_import.py:55-61 | a file contributes at most one tag per line |
| DataImport.TextsOf | data_import.py:55-61 | one text per tag |
| DataImport.MergeStep | data_import.py:57-61 | one more non-empty line adds its label to its text's set, and a new text joins the key order at the end |
| DataImport.MergeTag | data_import.py:57-61 | the same step in the form the loop holds the map and the key order |
| DataImport.LabelSetsKeys | data_import.py:42-61 | the map's keys are exactly the texts read |
| DataImport.LabelSetsMembers | data_import.py:42-61 | a text carries a label exactly when some line of that label's file holds the text, and no label is listed twice |
| DataImport.TagsMembers | data_import.py:46-61 | every non-empty stripped line of a `.txt` file is read under the file's label |
| DataImport.TagsNonEmpty | data_import.py:56-57 | no empty text is read |
| DataImport.LineTagsText | data_import.py:46-61 | every non-empty line of a file `X.txt` puts X among its stripped text's labels |
| DataImport.Overwritten | data_import.py:66-74 | the committed rows keep their number; a row whose text was read gets the sorted labels joined by "," |
| DataImport.NewLabelled | data_import.py:76-78 | one new row per unstored text, with consecutive ids and its joined labels |
| DataImport.MergedKeepsTable | data_import.py:66-81 | merging distinct non-empty texts into a valid table keeps ids ascending and texts unique |
| DataImport.KeysLabelled | data_import.py:42-61 | every key of the merged map is a non-empty text with a non-empty list of distinct labels |
| DataImport.Merged | data_import.py:29-82 | the table grows by exactly the number of texts read that were not stored |
| DataImport.MergedTableOk | data_import.py:29-82 | the merge keeps the table valid and leaves every committed row's id and text in place |
| DataImport.MergedLineStored | data_import.py:29-82 | after the merge every non-empty line of a file `X.txt` is stored, labelled with the sorted join of the labels its text was read under, X among them |
| DataImport.MergedHasKey | data_import.py:66-78 | each merged text ends up in a row of its own carrying its joined labels |
| DataImport.MergedKeepsOthers | data_import.py:66-74 | a committed row whose text no file holds is left as it was |
| DataImport.UnstoredNone | data_import.py:70-78 | when every text is stored nothing is added |
| DataImport.MergedStoresKeys | data_import.py:66-81 | after the merge every text read is stored |
| DataImport.MergedRelabelStable | data_import.py:70-74 | relabelling the merged rows from the same map changes nothing |
| DataImport.MergeIdempotent | data_import.py:29-82 | importing the same files a second time adds nothing and changes nothing |
| DataImport.LabelStringSplits | data_import.py:68 | the stored labels string splits back into the labels in sorted order, when no label holds a comma |
| DataImport.MergeFile | data_import.py:54-61 | the loop over one file's lines gives the map and key order of the tags read so far plus the file's, and counts each line whose text was already read as a merged duplicate |
| DataImport.MergeLine | data_import.py:57-61 | one non-empty line: its text gains the label or enters the map with it, and a repeat counts as a merged duplicate |
| DataImport.CollectTags | data_import.py:42-63 | the walk builds exactly the map and key order of every `.txt` file's lines under its stem, counts the `.txt` files, and counts every line whose text was already read |
| DataImport.VisitFile | data_import.py:47-63 | a `.txt` file is merged under its stem and counted; any other file is skipped |
| DataImport.StoreMerged | data_import.py:66-78 | the database loop relabels the committed rows whose text was read and adds one numbered row per other text, in key order |
| DataImport.ConfigNew | data_import.py:98-105 | no more label rows are added than entries given |
| DataImport.ConfigNewSound | data_import.py:98-105 | every added row comes from an entry whose id no committed label has, and has no description |
| DataImport.ConfigNewComplete | data_import.py:98-105 | every entry whose id no committed label has is added |
| DataImport.InsertAll | data_import.py:107 | committing adds exactly the pending rows |
| DataImport.InsertAllKeepsTable | data_import.py:107 | committing rows with new ids that repeat no id and no label string keeps the labels table valid |
| DataImport.InsertAllFresh | data_import.py:107 | the last row of a committing batch clashes with nothing inserted before it |
| DataImport.LabelPieces | data_import.py:149-151 | a labels value has at least one piece |
| DataImport.UniqueLabelsMembers | data_import.py:138-153 | a label is listed exactly when some labelled text has it among its stripped pieces |
| DataImport.UniqueLabelsCounted | data_import.py:138-153 | the non-empty unique labels are exactly the pieces the label statistics count |
| DataImport.UniqueLabelsExample | data_import.py:149-151 | "a,,b" lists "a", "b" and also the empty label |
| DataImport.SyncStart | data_import.py:166-167 | the first new id is above every committed id, and 0 for an empty table |
| DataImport.LabelRowsFrom | data_import.py:170-174 | one row per name, numbered consecutively, without a description |
| DataImport.SyncKeepsTable | data_import.py:155-178 | the rows a sync adds never clash with the committed ones, so the labels table stays valid |
| DataImport.ConfigRows | data_import.py:98-105 | the configuration loop adds exactly the rows for entries whose id is free |
| DataImport.CollectUniqueLabels | data_import.py:138-153 | the loop collects exactly the unique labels |
| DataImport.SyncRows | data_import.py:169-175 | the loop adds, with consecutive ids, exactly the unique labels no committed label has, each once |
| DataImport.ConfigImportStores | data_import.py:96-108 | the intended import keeps the labels table valid; a failure changes nothing; a success adds as many rows as it counts, stores every entry whose id was free, and adds only such rows, without a description |
| DataImport.SyncImportStores | data_import.py:155-178 | the intended sync keeps the labels table valid and the committed rows in front, counts the new names, and stores every one of them |
| DataImport.ScriptsConfigRaises | scripts/data_import.py:98-108 | with any free id configured, the scripts copy adds nothing and counts nothing, while data_import.py adds that entry whenever its commit succeeds |
| DataImport.ScriptsSyncRaises | scripts/data_import.py:165-178 | with any used label not stored yet, the scripts copy adds nothing and counts nothing, while data_import.py stores it and counts every new name |
| DataImport.DataImporter.constructor | data_import.py:20-27 | the importer works on the given session, as the given copy |
| DataImport.DataImporter.ImportOldData | data_import.py:29-82 | the table becomes the merged table, new rows numbered from one above the largest id; the stats count the `.txt` files, the new rows and the merged duplicates; the labels table is untouched |
| DataImport.DataImporter.ImportLabelConfig | data_import.py:84-108 | the outcome is the copy's as written: in data_import.py a label is added for every `id2label` entry whose id is free and counted, no `id2label` adds nothing, and a commit that breaks a key or the unique label constraint gives None and changes nothing; in scripts/data_import.py any free id raises and nothing changes; the texts are untouched |
| DataImport.DataImporter.ImportNewTextData | data_import.py:110-136 | the new stripped lines are appended unlabelled with consecutive ids from one above the largest id, and counted; a batch repeating a new text fails at commit and changes nothing |
| DataImport.DataImporter.GetAllUniqueLabels | data_import.py:138-153 | the result is exactly the stripped pieces of every labelled text |
| DataImport.DataImporter.SyncLabelsFromAnnotations | data_import.py:155-178 | the new names are exactly the unique labels no committed label has, each once; in data_import.py they are added with consecutive ids from above the largest id (or 0) and counted; in scripts/data_import.py any new name raises and nothing changes |
| LabelDescriptions.KeptLines | scripts/update_label_descriptions.py:35-41 | the lines kept are the stripped non-blank lines, in order, with the last dropped when their number is odd, so their number is even |
| LabelDescriptions.Pairs | scripts/update_label_descriptions.py:43-49 | half as many pairs as lines |
| LabelDescriptions.Flatten | scripts/update_label_descriptions.py:43-49 | two lines per pair |
| LabelDescriptions.PairsAt | scripts/update_label_descriptions.py:45-48 | pair i is line 2i as the description and line 2i + 1 as the label |
| LabelDescriptions.PairsRoundTrip | scripts/update_label_descriptions.py:43-49 | pairing the lines and writing the pairs back out gives the lines again |
| LabelDescriptions.FlattenRoundTrip | scripts/update_label_descriptions.py:43-49 | writing pairs out and pairing the lines again gives the pairs |
| LabelDescriptions.ReadAndParseData | scripts/update_label_descriptions.py:22-50 | the pairs read are the kept lines taken two at a time |
| LabelDescriptions.PairUp | scripts/update_label_descriptions.py:44-48 | the pairing loop produces exactly the pairs of the kept lines |
| LabelDescriptions.Apply | scripts/update_label_descriptions.py:72-90 | applying pairs keeps every label's id and name |
| LabelDescriptions.ApplyStep | scripts/update_label_descriptions.py:73-90 | one more pair: a raising pair counts an error, a pair naming a label sets its description and is listed as updated, any other is listed as not found |
| LabelDescriptions.ApplyCounts | scripts/update_label_descriptions.py:72-90 | every pair is counted exactly once: updated, not found, or an error |
| LabelDescriptions.ApplyNotFound | scripts/update_label_descriptions.py:83-86 | a name is reported as not found exactly when a pair without error names it and no label has it |
| LabelDescriptions.ApplyUpdated | scripts/update_label_descriptions.py:77-81 | a name is reported as updated exactly when a pair without error names it and a label has it |
| LabelDescriptions.LastDescription | scripts/update_label_descriptions.py:72-90 | a final description exists exactly when some pair without error names the label |
| LabelDescriptions.ApplyRows | scripts/update_label_descriptions.py:72-90 | every label ends with the description of the last pair without error naming it, and a label no pair names is left as it was; no label is created |
| LabelDescriptions.ApplyPairs | scripts/update_label_descriptions.py:72-90 | the loop computes exactly the outcome of applying the pairs in order |
| LabelDescriptions.UpdateLabelDescriptions | scripts/update_label_descriptions.py:52-102 | on a successful commit the labels are the applied rows and the tallies are reported; on a failed one the labels are rolled back, every pair counts as an error and none as updated |
| JsValues.NumOr | web/src/composables/useBatchAnnotation.ts:70-71 | `page \|\| 1` and `perPage \|\| 50`: a set, non-zero number is kept (negative ones too); undefined and 0 give the default |
| JsValues.NumOrNonZero | web/src/composables/useBatchAnnotation.ts:70-71 | with a non-zero default the current page and page size are never 0 |
| JsValues.StrOr | web/src/services/api.ts:101 | `s \|\| d` on strings: a non-empty string is kept; undefined, null and `''` give the default |
| JsValues.CeilDiv | web/src/composables/useBatchAnnotation.ts:72 | `Math.ceil(a / b)` on integers: the quotient q with (q-1)·b < a ≤ q·b for positive b, and the mirrored bounds for negative b |
| JsValues.CeilDivPages | web/src/composables/useBatchAnnotation.ts:72 | with a positive page size the page count is never negative and is 0 exactly when there are no items |
| JsArrays.FilterMembers | web/src/stores/label.ts:148 | an element survives `filter(p)` exactly when it was in the list and passes `p` |
| JsArrays.FilterAppend | web/src/stores/annotation.ts:96 | filtering a concatenation is concatenating the filtered parts, so the survivors keep their order |
| JsArrays.FilterKeepsAll | web/src/stores/annotation.ts:96 | a filter every element passes returns the whole list |
| JsArrays.FilterComplement | web/src/stores/annotation.ts:96 | the elements a test keeps and the elements its negation keeps number as many as the list |
| JsArrays.FindIndex | web/src/stores/annotation.ts:76 | `findIndex(p)`: the first position whose element passes, or -1 exactly when none passes |
| JsArrays.FindFirst | web/src/stores/label.ts:160 | `find(p)`: undefined exactly when no element passes; otherwise the element at the first passing position |
| JsArrays.IndexOf | web/src/composables/useBatchAnnotation.ts:210 | `indexOf(x)`: the first position holding x, or -1 exactly when x is absent |
| JsArrays.Map | web/src/composables/useBatchAnnotation.ts:202 | `map(f)`: same length, element k is f of element k |
| JsArrays.SpliceOne | web/src/composables/useBatchAnnotation.ts:212 | `splice(i, 1)` removes exactly one element |
| JsArrays.ReplaceFirst | web/src/stores/label.ts:129-132 | find-then-assign keeps the list's length |
| JsArrays.ReplaceFirstFacts | web/src/stores/annotation.ts:76-79 | the first element that passes becomes the new value and every other position is unchanged; with no match the list is unchanged |
| ApiClient.HandleError | web/src/services/api.ts:99-110 | the error message is never empty; with response data it carries the response status and the server's detail, its message or the fixed failure text; without, status 0 and the request's message or the fixed network text |
| ApiClient.ServerFallback | web/src/services/api.ts:100-104 | a server answer with neither a detail nor a message gives '请求失败' with the response status |
| ApiClient.NetworkMessage | web/src/services/api.ts:106-109 | without a server answer the request's own message is used when it is non-empty, and '网络连接失败' otherwise, both with status 0 |
| ApiClient.ServerDetailWins | frontend/src/services/api.ts:63-74 | a non-empty server `detail` is passed on verbatim, ahead of `message`, with the response status |
| ApiClient.ServerMessageNext | web/src/services/api.ts:102 | with no usable `detail`, a non-empty server `message` is passed on with the response status |
| ApiClient.EventSourceUrl | web/src/services/api.ts:242-244 | the stream URL is the base URL, then `/generate/stream/`, then the generation task id |
| ApiClient.StreamTaskId | web/src/services/api.ts:242-244 | any URL it accepts is the stream URL of the generation task id it returns |
| ApiClient.StreamUrlRoundTrip | web/src/services/api.ts:242-244 | every stream URL names back the generation task it was built for |
| ApiClient.ApiService.constructor | web/src/services/api.ts:65 | a missing base URL becomes `http://localhost:8000`; a given one is kept |
| ApiClient.ApiService.GenerationStreamUrl | web/src/services/api.ts:242-244 | the event-stream URL starts with the service's base URL and names back the generation task |
| BatchRequests.JoinedOrAbsent | web/src/services/batchAnnotation.ts:50-51 | `xs?.join(sep) \|\| undefined` is sent only as a non-empty join of the given list |
| BatchRequests.JoinedAbsentWhen | web/src/services/batchAnnotation.ts:82-83 | the field is left out exactly for a missing list, an empty list and the list holding only `''` |
| BatchRequests.JoinedRoundTrip | web/src/services/batchAnnotation.ts:50 | a sent list without the separator in any item splits back into the same list |
| BatchRequests.FilterRequest | web/src/services/batchAnnotation.ts:44-58 | `filterTexts`: no query fields, keyword lists passed through, page and page size never 0 and defaulting to 1 and 50 |
| BatchRequests.FilterLabelsRoundTrip | web/src/services/batchAnnotation.ts:50 | included labels without commas reach the server as a string that splits back into them |
| BatchRequests.UpdateByFilterRequest | web/src/services/batchAnnotation.ts:66-87 | `updateLabelsByFilter`: the target is search criteria, never ids; keywords travel as queries, not keyword lists; page size defaults to 1000 |
| BatchRequests.UpdateMatchesFilter | web/src/services/batchAnnotation.ts:73-76 | a bulk update by filter uses the same label filters, unlabelled flag and page as the filter, and the same page size whenever one is set |
| BatchRequests.QueryRoundTrip | web/src/services/batchAnnotation.ts:71 | included keywords without spaces reach the server as a query that splits back into them |
| BatchRequests.UpdateByIdsRequest | web/src/services/batchAnnotation.ts:95-106 | `updateLabelsByIds`: the ids are the target, no criteria, labels joined as for a filter update |
| BatchRequests.OneTarget | web/src/services/batchAnnotation.ts:80-103 | a bulk request carries exactly one target: criteria by filter, ids by selection |
| BatchRequests.AddToFiltered | web/src/services/batchAnnotation.ts:114-119 | only labels to add are sent, and a non-trivial label list is always sent |
| BatchRequests.RemoveFromFiltered | web/src/services/batchAnnotation.ts:127-132 | only labels to remove are sent, and a non-trivial label list is always sent |
| BatchRequests.AddToTexts | web/src/services/batchAnnotation.ts:140-142 | only labels to add are sent, for exactly the given ids |
| BatchRequests.RemoveFromTexts | web/src/services/batchAnnotation.ts:150-152 | only labels to remove are sent, for exactly the given ids |
| BatchRequests.PreviewRequest | web/src/services/batchAnnotation.ts:159-167 | the preview search is the filter's own search with page 1 and 100 per page |
| BatchRequests.PreviewOf | web/src/services/batchAnnotation.ts:169-172 | the preview hands back the page's records and the server's total |
| BatchSelection.InitialHasNoConditions | web/src/composables/useBatchAnnotation.ts:54-63 | the initial filter options hold no filter condition |
| BatchSelection.Ids | web/src/composables/useBatchAnnotation.ts:202 | the selected ids are the shown texts' ids, position by position |
| BatchSelection.SelectAllMembers | frontend/src/composables/useBatchAnnotation.ts:187-189 | after selecting all, an id is selected exactly when some shown text carries it |
| BatchSelection.RemoveFirst | web/src/composables/useBatchAnnotation.ts:210-212 | removing an id takes exactly one occurrence of it out, and nothing when it is absent |
| BatchSelection.RemoveFirstAt | web/src/composables/useBatchAnnotation.ts:210-212 | splicing out the position `indexOf` reports is removing the id's first occurrence |
| BatchSelection.Toggled | web/src/composables/useBatchAnnotation.ts:209-216 | a toggle takes one occurrence of a selected id out, or adds an unselected id once |
| BatchSelection.NoDupCounts | frontend/src/composables/useBatchAnnotation.ts:195-202 | a selection is repeat-free exactly when no id is counted twice |
| BatchSelection.ToggledMembers | frontend/src/composables/useBatchAnnotation.ts:195-202 | on a repeat-free selection a toggle keeps it repeat-free, flips the id's selection and leaves every other id alone |
| BatchSelection.ToggleTwice | web/src/composables/useBatchAnnotation.ts:209-216 | toggling the same id twice restores which ids are selected, and restores the list exactly when the id was not selected |
| WebBatch.CurrentPage | web/src/composables/useBatchAnnotation.ts:70 | the current page is never 0 and is 1 when unset |
| WebBatch.PageSize | web/src/composables/useBatchAnnotation.ts:71 | the page size is never 0 and is 50 when unset |
| WebBatch.TotalPages | web/src/composables/useBatchAnnotation.ts:72 | with a positive page size, just enough pages to hold every match |
| WebBatch.TotalPagesEmpty | web/src/composables/useBatchAnnotation.ts:72 | no matches means no pages, and any match means at least one page |
| WebBatch.PagerMatchesRequest | web/src/composables/useBatchAnnotation.ts:70-71 | the pager's page and page size are the ones the filter request asks for |
| WebBatch.BatchState.constructor | web/src/composables/useBatchAnnotation.ts:35-51 | a new composable starts with the initial options, nothing shown or selected, and not busy |
| WebBatch.BatchState.SelectAll | web/src/composables/useBatchAnnotation.ts:201-203 | the selection becomes the shown texts' ids, and an id is selected exactly when a shown text carries it |
| WebBatch.BatchState.ClearSelection | web/src/composables/useBatchAnnotation.ts:205-207 | afterwards no id is selected |
| WebBatch.BatchState.ToggleSelection | web/src/composables/useBatchAnnotation.ts:209-220 | the selection is the toggled list; a repeat-free selection stays repeat-free and the id's selection flips |
| WebBatch.BatchState.FilterTexts | web/src/composables/useBatchAnnotation.ts:75-104 | without conditions nothing changes and nothing is sent; otherwise a reset moves to page 1, the filter request is sent, a success replaces texts and count and clears the selection only on a reset, and a failure keeps them |
| WebBatch.BatchState.PreviewFilter | web/src/composables/useBatchAnnotation.ts:107-128 | with conditions, enters preview mode and sends the page-1, 100-per-page search; a success shows those texts with the full count and no selection |
| WebBatch.BatchState.UpdateLabelsByFilter | web/src/composables/useBatchAnnotation.ts:131-153 | with conditions, sends the update by filter; a success refreshes the page with options and selection kept and returns the server's result; a failure returns nothing and changes no texts |
| WebBatch.BatchState.UpdateLabelsBySelection | web/src/composables/useBatchAnnotation.ts:156-178 | with a selection, sends the update for exactly the selected ids; a success returns the server's result and refreshes only when there are filter conditions |
| WebBatch.BatchState.ResetState | web/src/composables/useBatchAnnotation.ts:223-237 | every field but the busy flags returns to its initial value, so no condition is left |
| WebBatch.BatchState.SetIncludeKeywords | web/src/composables/useBatchAnnotation.ts:239-241 | only the included keywords change; a non-empty list makes a filter condition |
| WebBatch.BatchState.SetExcludeKeywords | web/src/composables/useBatchAnnotation.ts:243-245 | only the excluded keywords change; a non-empty list makes a filter condition |
| WebBatch.BatchState.SetIncludeLabels | web/src/composables/useBatchAnnotation.ts:247-249 | only the included labels change; a non-empty list makes a filter condition |
| WebBatch.BatchState.SetExcludeLabels | web/src/composables/useBatchAnnotation.ts:251-253 | only the excluded labels change; a non-empty list makes a filter condition |
| WebBatch.BatchState.SetUnlabeledOnly | web/src/composables/useBatchAnnotation.ts:255-257 | only the unlabelled flag changes; setting it makes a filter condition |
| WebBatch.BatchState.HandlePageChange | web/src/composables/useBatchAnnotation.ts:261-264 | the page changes and the selection is kept; with conditions the request asks for the new page |
| WebBatch.BatchState.HandlePageSizeChange | web/src/composables/useBatchAnnotation.ts:266-270 | the page size changes and the page goes back to 1; with conditions the request asks for page 1 at the new size |
| FrontBatch.BatchState.constructor | frontend/src/composables/useBatchAnnotation.ts:35-51 | a new composable starts with the initial options, nothing shown or selected, and not busy |
| FrontBatch.BatchState.SelectAll | frontend/src/composables/useBatchAnnotation.ts:187-189 | the selection becomes the shown texts' ids, and an id is selected exactly when a shown text carries it |
| FrontBatch.BatchState.ClearSelection | frontend/src/composables/useBatchAnnotation.ts:191-193 | afterwards no id is selected |
| FrontBatch.BatchState.ToggleSelection | frontend/src/composables/useBatchAnnotation.ts:195-206 | the selection is the toggled list; a repeat-free selection stays repeat-free and the id's selection flips |
| FrontBatch.BatchState.FilterTexts | frontend/src/composables/useBatchAnnotation.ts:70-90 | without conditions nothing changes; otherwise the current options go to `batchApi.filter`, a success replaces texts and count and clears the selection, and a failure keeps all three |
| FrontBatch.BatchState.PreviewFilter | frontend/src/composables/useBatchAnnotation.ts:93-114 | without conditions nothing changes; otherwise the options go to `batchApi.preview`, preview mode is on, a success shows the preview's texts and total and clears the selection, and a failure keeps all three |
| FrontBatch.BatchState.UpdateLabelsByFilter | frontend/src/composables/useBatchAnnotation.ts:117-139 | without conditions nothing is sent; otherwise the options and the update go out, the server's result comes back exactly on success, and a successful refresh shows its texts and clears the selection; a failed update or refresh keeps texts, count and selection |
| FrontBatch.BatchState.UpdateLabelsBySelection | frontend/src/composables/useBatchAnnotation.ts:142-164 | without a selection nothing is sent; otherwise the selected ids and the update go out, and the selection is cleared only when there are filter conditions and the refresh succeeds |
| FrontBatch.BatchState.AddLabelsToFiltered | frontend/src/composables/useBatchAnnotation.ts:167-169 | a filter update carrying only labels to add is sent exactly when there are filter conditions |
| FrontBatch.BatchState.RemoveLabelsFromFiltered | frontend/src/composables/useBatchAnnotation.ts:172-174 | a filter update carrying only labels to remove is sent exactly when there are filter conditions |
| FrontBatch.BatchState.AddLabelsToSelected | frontend/src/composables/useBatchAnnotation.ts:177-179 | a selection update carrying only labels to add is sent exactly when something is selected |
| FrontBatch.BatchState.RemoveLabelsFromSelected | frontend/src/composables/useBatchAnnotation.ts:182-184 | a selection update carrying only labels to remove is sent exactly when something is selected |
| FrontBatch.BatchState.ResetState | frontend/src/composables/useBatchAnnotation.ts:209-223 | every field but the busy flags returns to its initial value, so no condition is left |
| FrontBatch.BatchState.SetIncludeKeywords | frontend/src/composables/useBatchAnnotation.ts:226-228 | only the included keywords change, and a non-empty list is a filter condition |
| FrontBatch.BatchState.SetExcludeKeywords | frontend/src/composables/useBatchAnnotation.ts:230-232 | only the excluded keywords change, and a non-empty list is a filter condition |
| FrontBatch.BatchState.SetIncludeLabels | frontend/src/composables/useBatchAnnotation.ts:234-236 | only the included labels change, and a non-empty list is a filter condition |
| FrontBatch.BatchState.SetExcludeLabels | frontend/src/composables/useBatchAnnotation.ts:238-240 | only the excluded labels change, and a non-empty list is a filter condition |
| FrontBatch.BatchState.SetUnlabeledOnly | frontend/src/composables/useBatchAnnotation.ts:242-244 | only the unlabelled flag changes, and setting it is a filter condition |
| LabelLists.WithoutId | frontend/src/stores/label.ts:62 | after a delete a label is listed exactly when it was listed before and has another id |
| LabelLists.WithoutAbsentId | web/src/stores/label.ts:148 | deleting an id no label carries leaves the list as it was |
| LabelLists.LabelById | web/src/stores/label.ts:159-161 | the label found is listed and has the id; nothing is found exactly when no label has the id |
| LabelLists.LabelByName | web/src/stores/label.ts:163-165 | the label found is listed and has the name; nothing is found exactly when no label has the name |
| LabelLists.LabelByIdUnique | frontend/src/stores/label.ts:71-73 | with unique ids the lookup returns the one label that carries the id |
| LabelLists.DeletedNotFound | frontend/src/stores/label.ts:58-69 | a lookup of the id just deleted finds nothing |
| FrontLabelStore.LabelOptions | frontend/src/stores/label.ts:17-23 | one option per label, in list order, whose value and caption are the label's name and whose id is the label's id |
| FrontLabelStore.LabelStore.constructor | frontend/src/stores/label.ts:11-16 | a new store holds no labels, is not loading and has no labels to show |
| FrontLabelStore.LabelStore.SetLoading | frontend/src/stores/label.ts:26-28 | the loading flag takes the given value |
| FrontLabelStore.LabelStore.FetchLabels | frontend/src/stores/label.ts:30-42 | a success replaces the list with the server's, a failure keeps it; the error is passed on and loading ends either way |
| FrontLabelStore.LabelStore.CreateLabel | frontend/src/stores/label.ts:44-56 | a success appends the created label, which becomes the last option; a failure keeps the list |
| FrontLabelStore.LabelStore.DeleteLabel | frontend/src/stores/label.ts:58-69 | a success removes every label with the id, so looking it up finds nothing; a failure keeps the list |
| FrontLabelStore.LabelStore.GetLabelById | frontend/src/stores/label.ts:71-73 | the first label with the id, or nothing exactly when none has it |
| FrontLabelStore.LabelStore.GetLabelByName | frontend/src/stores/label.ts:75-77 | the first label with the name, or nothing exactly when none has it |
| WebLabelStore.FilteredLabels | web/src/stores/label.ts:28-37 | a blank query keeps every label; otherwise a label is kept exactly when its lower-cased name or non-empty description contains the lower-cased query |
| WebLabelStore.QueryNotTrimmed | web/src/stores/label.ts:30-33 | only the blank test trims: the query " a" misses the label "ab" that "a" finds |
| WebLabelStore.StatsMap | web/src/stores/label.ts:40-47 | the map has an entry for exactly the names in the statistics, each mapped to one of that name's entries |
| WebLabelStore.StatsMapLastWins | web/src/stores/label.ts:43-45 | each name maps to its last statistics entry |
| WebLabelStore.LabelStatsMap | web/src/stores/label.ts:41 | no statistics give an empty map |
| WebLabelStore.LabelsByUsage | web/src/stores/label.ts:50-56 | as many labels as the filtered list |
| WebLabelStore.LabelsByUsageFacts | web/src/stores/label.ts:50-56 | the result is sorted by usage count, most used first, is a permutation of the filtered labels, and keeps equally used labels in list order |
| WebLabelStore.UnusedLabels | web/src/stores/label.ts:59-64 | a label is listed exactly when the query keeps it and its usage count is 0 |
| WebLabelStore.StatsOverview | web/src/stores/label.ts:67-73 | used plus unused labels is the total number of labels, and neither is negative |
| WebLabelStore.HiddenExampleFilter | web/src/stores/label.ts:28-37 | the query "a" keeps the label "a" and hides the label "b" |
| WebLabelStore.OverviewCountsHiddenAsUsed | web/src/stores/label.ts:67-73 | with two unused labels and the query "a", the overview reports one used label |
| WebLabelStore.StatsOverviewAll | web/src/stores/label.ts:67-73 | used plus unused is the total, and used counts exactly the labels with a non-zero usage count, whatever the query |
| WebLabelStore.OverviewsAgreeWithoutQuery | web/src/stores/label.ts:67-73 | with a blank query the overview as written and the corrected one agree |
| WebLabelStore.LabelStore.constructor | web/src/stores/label.ts:10-15 | a new store holds no labels or statistics, an empty query, and is not loading |
| WebLabelStore.LabelStore.SetLoading | web/src/stores/label.ts:76-78 | the loading flag takes the given value |
| WebLabelStore.LabelStore.SetSearchQuery | web/src/stores/label.ts:80-82 | the query takes the given value |
| WebLabelStore.LabelStore.FetchLabels | web/src/stores/label.ts:84-96 | a success replaces the list with the server's, a failure keeps it; loading ends either way |
| WebLabelStore.LabelStore.FetchSystemStats | web/src/stores/label.ts:98-107 | a success stores the statistics, a failure keeps the old ones |
| WebLabelStore.LabelStore.CreateLabel | web/src/stores/label.ts:109-123 | a success appends the label and refetches the statistics; a failed refetch fails the call but the label stays; a failure changes nothing |
| WebLabelStore.LabelStore.UpdateLabel | web/src/stores/label.ts:125-142 | a success replaces the first label with the id and no other, or changes nothing locally when none has it, then refetches the statistics |
| WebLabelStore.LabelStore.DeleteLabel | web/src/stores/label.ts:144-157 | a success removes every label with the id, so looking it up finds nothing, then refetches the statistics; a failure changes nothing |
| WebLabelStore.LabelStore.GetLabelById | web/src/stores/label.ts:159-161 | the first label with the id, or nothing exactly when none has it |
| WebLabelStore.LabelStore.GetLabelByName | web/src/stores/label.ts:163-165 | the first label with the name, or nothing exactly when none has it |
| WebLabelStore.LabelStore.GetLabelStats | web/src/stores/label.ts:167-169 | the statistics entry for the name, present exactly when the map has the name |
| AnnotationStore.Merge | web/src/stores/annotation.ts:43 | `{ ...a, ...b }`: each parameter b sets wins, every other keeps a's value |
| AnnotationStore.MergeLaws | web/src/stores/annotation.ts:43 | merging nothing changes nothing, merging the same update twice is merging it once, and merges compose |
| AnnotationStore.TotalPages | web/src/stores/annotation.ts:32 | a page count exists exactly when a non-zero page size is set, and with a positive size it is just enough pages for the total |
| AnnotationStore.CreateThenDeleteRestores | web/src/stores/annotation.ts:57-107 | deleting a just-created record whose id was not listed restores the list as it was |
| AnnotationStore.AnnotationStore.constructor | web/src/stores/annotation.ts:19-28 | a new store has no records, no current record, the initial search parameters, a zero count, and is not loading |
| AnnotationStore.AnnotationStore.SetLoading | web/src/stores/annotation.ts:35-37 | the loading flag takes the given value |
| AnnotationStore.AnnotationStore.SearchAnnotations | web/src/stores/annotation.ts:39-55 | the given parameters are merged in and sent; a success replaces records and count, a failure keeps them; loading ends either way |
| AnnotationStore.AnnotationStore.CreateAnnotation | web/src/stores/annotation.ts:57-70 | a success puts the new record first and raises the count by one, so the unlisted count stays the same; a failure changes nothing |
| AnnotationStore.AnnotationStore.UpdateAnnotation | web/src/stores/annotation.ts:72-90 | a success replaces the first record with the id and no other, and the current record when it has the id; a failure changes nothing |
| AnnotationStore.AnnotationStore.DeleteAnnotation | web/src/stores/annotation.ts:92-107 | a success removes exactly the records with the id, lowers the count by one, and drops the current record when it has the id; a failure changes nothing |
| AnnotationStore.AnnotationStore.GetAnnotation | web/src/stores/annotation.ts:109-121 | a fetched record becomes the current one; a failure keeps the old one |
| AnnotationStore.AnnotationStore.CallThenRefresh | web/src/stores/annotation.ts:123-151 | a failed call changes nothing; a successful one searches again with unchanged parameters, and a failed search fails the action with its error |
| AnnotationStore.AnnotationStore.SetCurrentAnnotation | web/src/stores/annotation.ts:153-155 | the current record takes the given value |
| AnnotationStore.AnnotationStore.ResetSearch | web/src/stores/annotation.ts:157-163 | the parameters return to page 1, 50 per page, all texts, and the page count is the total over 50 rounded up |
| AppStore.Flip | web/src/stores/app.ts:31-33 | toggling always changes the theme |
| AppStore.FlipTwice | web/src/stores/app.ts:31-33 | toggling twice restores the theme |
| AppStore.ErrorShown | web/src/stores/app.ts:16 | an error shows exactly when a non-empty message is set |
| AppStore.AppStore.constructor | web/src/stores/app.ts:10-12 | a new store is not loading, has no error and uses the light theme |
| AppStore.AppStore.SetLoading | web/src/stores/app.ts:19-21 | the loading state takes the given value |
| AppStore.AppStore.SetError | web/src/stores/app.ts:23-25 | the message is stored, and an error shows exactly when it is non-empty |
| AppStore.AppStore.ClearError | web/src/stores/app.ts:27-29 | afterwards no error shows |
| AppStore.AppStore.ToggleTheme | web/src/stores/app.ts:31-33 | the theme becomes the other one |

## Left out

- Generation.Progress: `int((current / total) * 100)` is computed in IEEE doubles, where 29/100·100 truncates to 28. The model only bounds the result to 0..100 and gives 100 when every item is done; it does not claim equality with the integer formula.
- The language-model call, the OpenAI/httpx client and its timeouts are foreign network calls. Each iteration's outcome, and whether a cancel arrived while the stream was suspended, is an input.
- asyncio scheduling, the 60-second sleep before the automatic cleanup, and concurrency between tasks are not modelled. Cleanup is an explicit later call to `cleanup_task`.
- Task ids come from `uuid4` and are an input to `create_task`. An id already in use replaces the old entry, as the dictionary assignment would.
- The JSON encoding of frames is not modelled. The payload is abstract, and only the `data: …` framing is modelled.
- A caller-supplied parse pattern is not interpreted: its match outcome is an input. Only the four built-in patterns of `_default_parse` are run.
- SQLAlchemy sessions, the SQLite schema and engine setup are left out. The uniqueness constraints appear as table invariants. A commit failure is an input where the source catches it.
- `models.py` and `app/models.py` are not part of this model beyond their uniqueness facts and the id columns. Neither declares a `description` column on `labels`. `LabelRow.description` stands for the column that scripts/update_label_descriptions.py writes through `server/models.py`, and `server/models.py` is not part of this model.
- Store.Like: the `%` and `_` wildcards inside a search string are treated as literal characters. Case folding is ASCII-only, as SQLite's `LIKE` does it.
- File reading, `os.walk` and YAML parsing in the import scripts are left to the caller. Files arrive as (name, lines) pairs and the configuration as (id, name) pairs.
- DataImport.SyncRows: the iteration order of a Python `set` is not specified, so it is a ghost order the proof quantifies over. Which label receives which id is stated only up to that order.
- HTTP routing, CORS, static files and the `server/main.py` handlers are plumbing. The `bulk_update_labels` and `import_text_file` of `server/services.py` are not part of this model, because that file is not available.
- Strs.LowerAscii: JavaScript's `toLowerCase` also lower-cases non-ASCII letters. The model lower-cases A to Z only.
- JavaScript numbers are modelled as integers. `NaN`, `Infinity` and fractional page sizes are not modelled, except that `AnnotationStore.TotalPages` gives `None` where the source would produce `NaN` or `Infinity`.
- AnnotationStore.Merge: a key present in the partial parameters with the value `undefined` overwrites in JavaScript. The model treats an absent key and an undefined key alike. `null` field values are not modelled.
- ApiClient.HandleError: a non-string `detail`, such as FastAPI's list of validation errors, is not modelled. Details and messages are strings.
- Axios interceptors, console logging, ElMessage toasts, Vue reactivity and `computed` caching are left out. Computed values are functions of the state.
- FrontBatch.BatchState.FilterTexts, PreviewFilter, UpdateLabelsByFilter, UpdateLabelsBySelection and the four label wrappers record the arguments handed to `batchApi`. The request bodies that `frontend/src/services/batchAnnotation.ts` builds from them are not part of this model, because that file is not available. The model does not equate them with the web builders in `BatchRequests`.
- The `labelOptions` of `web/src/stores/label.ts` (lines 19-25) builds the same options as the older store's, so `FrontLabelStore.LabelOptions` models both.
- `initializeData` in the web stores awaits several fetches in parallel with `Promise.all`. Each fetch is modelled alone.

## Findings

| source | as written | input that shows it | evidently intended | confidence | as-written member | corrected member |
|---|---|---|---|---|---|---|
| web/src/stores/label.ts:67-73 | `usedLabels` is the number of all labels minus the number of unused labels that pass the search filter | labels "a" and "b", both unused, with the search query "a": `usedLabels` is 1 | `usedLabels` counts the labels whose usage count is non-zero, whatever the query | not executed | WebLabelStore.OverviewCountsHiddenAsUsed | WebLabelStore.StatsOverviewAll |
| scripts/data_import.py:104 | `import_label_config` builds `Label(id=…, label=…, description=None)`, but the `Label` of app/models.py declares only `id` and `label`, so the constructor raises a `TypeError` before the commit | any `id2label` entry whose id no stored label has | the entry is stored as a label row, as data_import.py:103 does | not executed | DataImport.ScriptsConfigRaises | DataImport.ConfigImportStores |
| scripts/data_import.py:173 | `sync_labels_from_annotations` builds label rows with the same undeclared `description` keyword, and raises the same way | a stored annotation labelled "x" while no label "x" exists | the label is stored with the next id, as data_import.py:172 does | not executed | DataImport.ScriptsSyncRaises | DataImport.SyncImportStores |
