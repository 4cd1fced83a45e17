# OncoEMR note read-modify-write pipeline

This project models, in Dafny, the deterministic core of the OncoEMR integration's note pipeline (`oncoemr_integration.py`). Writing a follow-up or consultation note takes five steps:

1. The pipeline scrapes the current form state of the note page. This is `_extract_form_data_bs`, which uses the cleaner `_remove_html_tags` for textareas.
2. It overlays the caller's note template onto that state. This is `_apply_template_to_dict`, driven by three mapping tables: free-text fields, radio groups and checkboxes.
3. It serialises the merged state into the `sNameValues` record.
4. It posts the record.
5. It accepts the save only when the server's answer echoes the note token. This is `_verify_note_str`.

The order-entry writer also normalises the order date it is given, via `strptime`/`strftime`.

The model has these modules:
- `Wrappers`: `Option`.
- `PyStrings`: the Python `str` operations used: `isspace`, `strip`, `replace`, `join`, `startswith` and `lower`.
- `Dicts`: a Python `dict` as its keys in insertion order plus a map. `Put` is `d[k] = v`.
- `TemplateMerge`: the merge engine.
  - The three passes are folds over the template items, the radio table and the checkbox table, each in table order.
  - The methods run the source's loops and are proved equal to those folds.
  - The lemmas state the merge rules and their frames.
- `HtmlText`: `_remove_html_tags` as three rewrites: break tags to newlines, deletion of single-line tags, then `strip()`.
- `FormExtract`: the extractor.
  - It is a fold over the page's `FD_` elements in document order.
  - A method runs the source's loop.
  - The HTML parse itself is an input: the list of elements.
- `WireRecord`: the triple-quoted record template, newline removal and `strip()`, with a reference definition as the nineteen fields joined by `%02`.
  - A reader of the block (`Split`, `Partition`, `DecodeBlock`, modelled on Python's `str.split` and `str.partition`) is a reference definition: the writer has no reader of its own.
  - The writer does not escape `%01` or `%02` inside ids or values, so the block reads back only when none carries them.
- `SaveCheck`: the save-confirmation regular expression, with a back-reference, as a function. It is proved equal to a declarative description of the accepted answers.
- `OrderDate`: `strptime("%Y-%m-%d")` follows the pattern CPython compiles for that format, including its alternation order and the "unconverted data" rule, plus the calendar check. `strftime` writes the zero-padded form.
- `MergeFixtures`: the merge engine on excerpts of the real mapping tables.

## Model

| member | source | states |
|---|---|---|
| TemplateMerge.ApplyTemplate | oncoemr_integration.py:1002-1084 | The result is the text, radio and checkbox folds applied in that order to a copy of the scraped form. It has exactly the input's keys, in the same order. |
| TemplateMerge.ApplyTextFields | oncoemr_integration.py:1026-1046 | The loop over the template items computes the text fold over them, in template order. |
| TemplateMerge.ApplyTextField | oncoemr_integration.py:1027-1046 | One iteration of that loop computes the text merge of one template field. |
| TemplateMerge.ApplyRadioGroups | oncoemr_integration.py:1049-1070 | The loop over the radio table computes the radio fold, in table order. |
| TemplateMerge.ApplyRadioGroup | oncoemr_integration.py:1050-1070 | One iteration of that loop computes the merge of one group. |
| TemplateMerge.ClearGroup | oncoemr_integration.py:1060-1063 | Every option id present in the form becomes "" and every other key is left alone, whatever order the options are visited in. |
| TemplateMerge.ClearOneMore | oncoemr_integration.py:1060-1063 | Clearing one more option id is one `d[id] = ""`, or nothing when the id is absent. |
| TemplateMerge.ApplyCheckboxes | oncoemr_integration.py:1073-1082 | The loop over the checkbox table computes the checkbox fold, in table order. |
| TemplateMerge.ApplyCheckbox | oncoemr_integration.py:1074-1082 | One iteration of that loop computes the merge of one checkbox entry. |
| TemplateMerge.Merge | oncoemr_integration.py:1020-1084 | The merge keeps the form's key set and key order. Every write is guarded by membership in the copy. |
| TemplateMerge.KeyOf | oncoemr_integration.py:1052-1057 | Only a string or a boolean selection is looked up among the option keys, and a boolean is never confused with a label such as "true". |
| TemplateMerge.MergeTextFields | oncoemr_integration.py:1026-1046 | The text pass keeps the form's key set and key order. |
| TemplateMerge.MergeRadios | oncoemr_integration.py:1049-1070 | The radio pass keeps the form's key set and key order. |
| TemplateMerge.MergeCheckboxes | oncoemr_integration.py:1073-1082 | The checkbox pass keeps the form's key set and key order. |
| TemplateMerge.MergeTextField | oncoemr_integration.py:1028-1046 | One template field changes at most the form id its text mapping names. It does so only when it is not `patient_id` or a radio field and holds a `FieldContent` with non-empty text. |
| TemplateMerge.MergeRadioGroup | oncoemr_integration.py:1050-1070 | One radio group changes only its own option ids, and only when its selection is truthy and is one of its option keys. |
| TemplateMerge.ClearOptions | oncoemr_integration.py:1060-1063 | The option ids present in the form become "" and all other values are unchanged. |
| TemplateMerge.MergeCheckbox | oncoemr_integration.py:1074-1082 | One checkbox entry changes only its own id, and only when the template value is not `None`. |
| TemplateMerge.TextFoldFrame | oncoemr_integration.py:1026-1046 | Template fields that do not write key k leave it as the earlier fields left it. |
| TemplateMerge.RadioFoldFrame | oncoemr_integration.py:1049-1070 | Groups that are inactive, or do not list k among their option ids, leave k alone. |
| TemplateMerge.CheckboxFoldFrame | oncoemr_integration.py:1073-1082 | Checkbox entries for other ids, or with a `None` value, leave k alone. |
| TemplateMerge.MergeFrame | oncoemr_integration.py:1020-1082 | A form key that no active text field, radio group or checkbox entry writes keeps its scraped value. |
| TemplateMerge.UnmappedFieldUnchanged | oncoemr_integration.py:1036-1076 | A form key named by no table entry keeps its scraped value. |
| TemplateMerge.TextFieldMerged | oncoemr_integration.py:1032-1046 | A non-empty text with `append` set is appended as old + "\n" + text when the current value is non-empty. In every other case the text replaces the value. |
| TemplateMerge.TextPassMerged | oncoemr_integration.py:1026-1046 | The same rule holds for the text pass alone. |
| TemplateMerge.TextPassAt | oncoemr_integration.py:1026-1046 | When only the item at p writes an id, the text pass leaves that id with the append-or-replace result of its scraped value. |
| TemplateMerge.TextPassFrame | oncoemr_integration.py:1026-1046 | A key that no template field aims text at keeps its value through the text pass. |
| TemplateMerge.TextPrefixMerged | oncoemr_integration.py:1026-1046 | Right after the one field that writes an id is merged, the id holds the append-or-replace result of its scraped value. |
| TemplateMerge.TextFieldWrites | oncoemr_integration.py:1041-1046 | The append-or-replace rule holds for one step. |
| TemplateMerge.OnlyOneFieldWrites | oncoemr_integration.py:1026-1037 | When only one template field maps to an id, no other item of the template writes that id. |
| TemplateMerge.RadioSelectionIsExclusive | oncoemr_integration.py:1052-1070 | After the merge, the last active group listing an id leaves the selected id "true" and each of its other option ids "". |
| TemplateMerge.RadioPassExclusive | oncoemr_integration.py:1049-1070 | The same rule holds for the radio pass alone. |
| TemplateMerge.RadioPassFrame | oncoemr_integration.py:1049-1070 | A key in no active group keeps its value through the radio pass. |
| TemplateMerge.RadioPrefixSelects | oncoemr_integration.py:1049-1070 | Right after group gi is merged, its selected id is "true" and its other option ids are "". |
| TemplateMerge.RadioGroupSelects | oncoemr_integration.py:1059-1070 | After an active group, its selected id is "true" and its other option ids are "". |
| TemplateMerge.UnrecognisedSelectionIsNoop | oncoemr_integration.py:1052-1057 | A falsy selection, or one that is not an option key, leaves the form unchanged. There is no partial clear. |
| TemplateMerge.CheckboxDecides | oncoemr_integration.py:1073-1082 | The last checkbox entry with a non-`None` value decides its id: "true" for a truthy value, "false" otherwise. It overrides any radio pass. |
| TemplateMerge.CheckboxPassDecides | oncoemr_integration.py:1073-1082 | The same rule holds for the checkbox pass alone. |
| TemplateMerge.CheckboxPassFrame | oncoemr_integration.py:1073-1082 | A key that only `None` checkbox values aim at keeps its value through the checkbox pass. |
| MergeFixtures.SharedEyeIdsLaterGroupWins | consultation_mappings.py:529-543 | Two consultation groups share FD_rdoPEEyes_06/08. The later group's clear wipes the earlier group's selection. |
| MergeFixtures.ScleraSelected | consultation_mappings.py:538-543 | "Icteric sclera" is an option key of the sclera group and selects FD_rdoPEEyes_08. |
| MergeFixtures.CheckboxOverridesRadioId | consultation_mappings.py:216 | A `False` checkbox writes "false" into the id that is a radio option's id. The checkbox entry is oncoemr_mapping.py:878. |
| MergeFixtures.FalseOptionNeverSelected | oncoemr_mapping.py:109-114 | The `False: ""` option of other_family_history is never taken. A `False` selection is falsy, so it leaves the form unchanged. |
| MergeFixtures.TrueOptionSelects | oncoemr_mapping.py:109-114 | A `True` selection sets FD_rdoFHOtherFamHx to "true". |
| Dicts.Dict.Put | oncoemr_integration.py:1043 | Assigning a key sets its value. It appends the key to the order only when the key is new. |
| Dicts.Dict.Items | oncoemr_integration.py:454 | `items()` lists every key once, in insertion order, with its value. |
| HtmlText.RemoveHtmlTags | oncoemr_integration.py:1148-1159 | `None` gives "". Otherwise the result is never longer than the input. |
| HtmlText.BreakTagLength | oncoemr_integration.py:1155 | A match of `<br\s*/?>`, case-insensitive, at the front is a `<`…`>` run at least 4 long. |
| HtmlText.ReplaceBreaks | oncoemr_integration.py:1155 | Break replacement never lengthens the text and leaves text without `<` unchanged. |
| HtmlText.CloseBeforeBreak | oncoemr_integration.py:1157 | The lazy `<.*?>` ends at the first `>` that has no newline before it. Otherwise it fails. |
| HtmlText.RemoveTags | oncoemr_integration.py:1157-1159 | Tag removal never lengthens the text and leaves text without `<` unchanged. |
| HtmlText.CleanedTextHasNoTag | oncoemr_integration.py:1148-1159 | The cleaned text has no whitespace at either end, and no `<` in it is followed by a `>` on the same line. |
| HtmlText.RemovedTagsLeaveNone | oncoemr_integration.py:1157 | After tag removal, no `<` is followed by a `>` on the same line. |
| HtmlText.RemoveTagsKeepsGtAfterNewline | oncoemr_integration.py:1157 | When every `>` of the text has a newline before it, the same holds after tag removal (the lazy match never completes, so nothing is deleted past that point). |
| HtmlText.NoSingleLineTagSlice | oncoemr_integration.py:1159 | `strip()` keeps the absence of single-line tags. |
| HtmlText.ReplaceBreaksConcat | oncoemr_integration.py:1155 | Break replacement distributes over a split point before a `<`. |
| HtmlText.BreakTagExtends | oncoemr_integration.py:1155 | A break tag at the front is found whatever follows it. |
| HtmlText.BreakTagLengthBeforeTag | oncoemr_integration.py:1155 | A split point before a `<` is not straddled by a break tag. |
| HtmlText.BreakBecomesNewline | oncoemr_integration.py:1155 | Each break tag becomes exactly one "\n", and the text on both sides is rewritten independently. |
| HtmlText.BreakSpellings | oncoemr_integration.py:1155 | `<br>`, `<br/>` and `<BR />` are break tags and `<bra>` is not. |
| HtmlText.NonBreakTagKept | oncoemr_integration.py:1155 | A tag that is not a break tag, after text without `<`, passes the break pass unchanged. |
| HtmlText.CloseBeforeBreakFinds | oncoemr_integration.py:1157 | The lazy `<.*?>` ends at the first `>` when no `>` or newline comes before it. |
| HtmlText.TagFreePrefixKept | oncoemr_integration.py:1157 | Tag removal copies text without `<` and carries on after it. |
| HtmlText.OneLineTagDeleted | oncoemr_integration.py:1157 | A `<…>` on one line is deleted whole, and the text around it is kept. |
| HtmlText.TaglessTextKept | oncoemr_integration.py:1157 | Text with no single-line tag is unchanged by tag removal. |
| HtmlText.RemoveTagsIdempotent | oncoemr_integration.py:1157 | Removing tags a second time changes nothing. |
| HtmlText.CleaningDropsTag | oncoemr_integration.py:1155-1159 | A single-line tag that is not a break tag, such as `</b>`, after text without `<` is dropped. The text before it is only stripped. |
| HtmlText.CleaningTurnsBreakIntoNewline | oncoemr_integration.py:1155-1159 | A break tag between two runs of text without `<` becomes one "\n" between them, and the whole is stripped. |
| HtmlText.CleaningKeepsMultiLineAngles | oncoemr_integration.py:1155-1159 | Text with no break tag and no single-line tag, such as "<a\nb>", is only stripped. |
| PyStrings.Strip | oncoemr_integration.py:1159 | `strip()` returns a slice whose ends are not whitespace. Everything cut off around it is whitespace. |
| PyStrings.LeadingSpaceIsMaximalRun | oncoemr_integration.py:1159 | The leading run `strip()` removes is all whitespace and is followed by the end or a non-whitespace character. |
| PyStrings.TrailingSpaceIsMaximalRun | oncoemr_integration.py:1159 | The trailing run `strip()` removes is all whitespace and is preceded by the start or a non-whitespace character. |
| PyStrings.StripUnspaced | oncoemr_integration.py:478 | A text whose ends are not whitespace is unchanged by `strip()`. |
| PyStrings.LeadingSpaceConcat | oncoemr_integration.py:1159 | A leading whitespace run that ends inside the first part is unchanged by appending. |
| PyStrings.RemoveChar | oncoemr_integration.py:478 | `replace("\n", '')` leaves no newline and adds no character. |
| PyStrings.RemoveCharConcat | oncoemr_integration.py:478 | Newline removal distributes over concatenation. |
| PyStrings.Join | oncoemr_integration.py:455 | Joining no parts gives "" and joining one part gives that part. |
| FormExtract.ExtractFormData | oncoemr_integration.py:1161-1208 | The loop over the elements computes the extraction fold, in document order. |
| FormExtract.ExtractInto | oncoemr_integration.py:1178-1198 | One iteration of the loop computes the effect of one element. |
| FormExtract.ExtractElement | oncoemr_integration.py:1178-1198 | One element adds or overwrites at most its own id, and only as a textarea, text input, checkbox or radio with an `FD_` id. Every other key keeps its value. |
| FormExtract.ExtractedKeys | oncoemr_integration.py:1176-1198 | Both directions hold: a key is extracted iff some textarea, text input, checkbox or radio has it as its `FD_` id. Every key starts with `FD_`. |
| FormExtract.ExtractFrame | oncoemr_integration.py:1177-1198 | Elements that do not write k leave it as it was. |
| FormExtract.ToggleSurvivesTextInputs | oncoemr_integration.py:1190-1198 | A checkbox or radio records exactly "true" or "false", by whether `checked` is present. Later text inputs with the same id do not overwrite it. |
| FormExtract.TextareaDecides | oncoemr_integration.py:1181-1186 | A textarea always overwrites its id with its cleaned text. |
| FormExtract.ExtractAll | oncoemr_integration.py:1161-1208 | Starting from `{}`, every extracted key carries the `FD_` prefix and there are at most as many fields as elements. |
| FormExtract.TextInputKeepsToggle | oncoemr_integration.py:1190-1195 | A text input does not replace an existing "true" or "false". |
| FormExtract.TextInputWrites | oncoemr_integration.py:1190-1195 | Otherwise a text input records its `value`, or "" when it has none. |
| FormExtract.TextInputDecides | oncoemr_integration.py:1188-1195 | A text input whose id holds no "true" or "false" when reached, and that no later element writes, decides the field's value. |
| FormExtract.IgnoredElementsContributeNothing | oncoemr_integration.py:1176-1203 | Non-`FD_` ids, other tags and other input types change nothing. |
| WireRecord.Fields | oncoemr_integration.py:457-477 | The record has nineteen positional fields. The first is empty, the eighteenth is the block and the last is `PRINT`. |
| WireRecord.RecordIsJoinedFields | oncoemr_integration.py:457-560 | The record equals the nineteen fields joined by `%02`, each with its own newlines removed. The follow-up writer (lines 457-478) and the consultation writer (lines 539-560) build it the same way, each with its own template code and name. |
| WireRecord.LayoutWithoutNewlines | oncoemr_integration.py:457-478 | Removing newlines from the layout leaves the joined fields followed by the closing indentation. |
| WireRecord.LinesAreJoinedFields | oncoemr_integration.py:458-476 | The one-field-per-line layout, with newlines removed, is the `%02` join. |
| WireRecord.JoinedFieldsEnds | oncoemr_integration.py:458-477 | The joined fields start with `%` and end with the `T` of `PRINT`, so `strip()` removes only the indentation. |
| WireRecord.StripClosingIndent | oncoemr_integration.py:478 | After newline removal, `strip()` takes away only the four spaces of the closing indentation. |
| WireRecord.StripTrailingBlanks | oncoemr_integration.py:478 | `strip()` removes exactly a trailing run of whitespace after a word whose ends are not whitespace. |
| WireRecord.JoinEndsWithLast | oncoemr_integration.py:455 | A join of two or more parts ends with the separator and the last part. |
| WireRecord.RecordHasNoNewline | oncoemr_integration.py:478 | The record contains no newline, including inside substituted values, and ends in `PRINT`. |
| WireRecord.Block | oncoemr_integration.py:454-455 | The block is empty iff the form state is. |
| WireRecord.BlockRoundTrip | oncoemr_integration.py:454-455 | Splitting the block at `%02`, then each pair at its first `%01`, gives back the form's items in insertion order, provided no id carries `%01` or `%02` and no value carries `%02`. |
| WireRecord.SplitJoin | oncoemr_integration.py:455 | Parts without `%02`, joined by `%02`, split back into the same parts. |
| WireRecord.SplitAtFirstSeparator | oncoemr_integration.py:455 | A part without `%02` followed by `%02` is split off first. |
| WireRecord.SplitWithoutSeparator | oncoemr_integration.py:455 | A part without `%02` splits into itself. |
| WireRecord.PartitionPair | oncoemr_integration.py:454 | An `id%01value` pair whose id has no `%01` partitions back into that id and value. |
| WireRecord.PairWithoutSeparator | oncoemr_integration.py:454 | A pair carries no `%02` when neither its id nor its value does. |
| WireRecord.DecodePairsOfItems | oncoemr_integration.py:454 | The pairs of a list of items, each partitioned at its first `%01`, give the items back. |
| WireRecord.NameValues | oncoemr_integration.py:457-478 | The record carries no newline. |
| SaveCheck.VerifyNoteStr | oncoemr_integration.py:993-1000 | An accepted answer starts with `background`, U+0001 and `DH_`, and is at least twenty characters long. |
| SaveCheck.GroupEchoed | oncoemr_integration.py:997 | An accepted group starts with `DH_` and is at least nine characters long. |
| SaveCheck.UpperAlnumRun | oncoemr_integration.py:997 | The greedy `[A-Z0-9]+` run is maximal. |
| SaveCheck.RunStopsAtOther | oncoemr_integration.py:997 | A run followed by a non-member is exactly the greedy run. |
| SaveCheck.VerifyAcceptsExactlyEchoes | oncoemr_integration.py:993-1000 | Both directions hold: the check accepts iff the answer is `background`, U+0001, a token `DH_[A-Z0-9]+`, U+0001 and the identical token, optionally followed by one "\n". |
| SaveCheck.VerifyAcceptsOnlyEchoes | oncoemr_integration.py:997-1000 | Every accepted answer echoes one token. |
| SaveCheck.VerifyAcceptsEchoes | oncoemr_integration.py:997-1000 | Every answer that echoes one token is accepted. |
| SaveCheck.GroupEchoedIsToken | oncoemr_integration.py:997 | An accepted group is a token followed by its echo. |
| SaveCheck.TokenEchoedIsGroup | oncoemr_integration.py:997 | A token followed by its echo is an accepted group. |
| SaveCheck.GroupAfterToken | oncoemr_integration.py:997 | After a token and U+0001, the group is accepted iff the rest is the token, optionally followed by one "\n". |
| SaveCheck.VerifyRejectsShortAnswers | oncoemr_integration.py:997-1000 | "" and an answer carrying one token are rejected. |
| SaveCheck.VerifyRejectsMismatch | oncoemr_integration.py:997-1000 | An answer that carries two different tokens is rejected. |
| SaveCheck.VerifyRejectsLowerCase | oncoemr_integration.py:997-1000 | An echoed lower-case token is rejected. |
| SaveCheck.VerifyAcceptsTrailingNewline | oncoemr_integration.py:997-1000 | An echo followed by one "\n" is accepted. |
| OrderDate.NormaliseOrderDate | oncoemr_integration.py:694-702 | A date reads iff the result is normalised. The normalised text is the zero-padded form of the date read, and it reads back as the same date. Every failure is an error with status 400. |
| OrderDate.Parse | oncoemr_integration.py:695 | Every date that reads is a calendar day from year 1 to 9999. |
| OrderDate.MatchFormat | oncoemr_integration.py:695 | The matched month is 1-12 and the day 1-31, within the text. |
| OrderDate.MatchMonthDay | oncoemr_integration.py:695 | Month alternatives are tried in pattern order, and the first day alternative ends the match. |
| OrderDate.MonthAlternatives | oncoemr_integration.py:695 | Each month alternative reads a value 1-12 from one or two characters. |
| OrderDate.DayAlternatives | oncoemr_integration.py:695 | Each day alternative reads a value 1-31 from one or two characters. |
| OrderDate.DaysInMonth | oncoemr_integration.py:695 | Every month has 28 to 31 days. |
| OrderDate.YearAt | oncoemr_integration.py:695 | Four digits give a year up to 9999. |
| OrderDate.Padded | oncoemr_integration.py:696 | Zero-padding gives exactly `width` digits. |
| OrderDate.Format | oncoemr_integration.py:696 | `strftime("%Y-%m-%d")` is ten characters: digits with `-` at positions 4 and 7. |
| OrderDate.ParseFormat | oncoemr_integration.py:695-696 | Reading back what `strftime` wrote gives the same calendar day. |
| OrderDate.TwoDigits | oncoemr_integration.py:696 | A month or day is written as its two decimal digits. |
| OrderDate.FourDigitsReadBack | oncoemr_integration.py:695-696 | A padded year reads back as itself. |
| OrderDate.MonthReadsBack | oncoemr_integration.py:695-696 | A padded month is read by its first matching alternative. |
| OrderDate.DayReadsBack | oncoemr_integration.py:695-696 | A padded day is read by its first matching alternative. |
| OrderDate.NormaliseIdempotent | oncoemr_integration.py:694-696 | Normalising a normalised date gives it back. |
| OrderDate.CanonicalDatesAccepted | oncoemr_integration.py:694-696 | Every calendar day in zero-padded form is accepted unchanged. |
| OrderDate.ShortFormsPadded | oncoemr_integration.py:695 | "2023-1-5" and "2023-01- 5" read as 5 January 2023. |
| OrderDate.ShortFormNormalised | oncoemr_integration.py:694-696 | "2023-1-5" is normalised to "2023-01-05". |
| OrderDate.PaddedExample | oncoemr_integration.py:696 | 5 January 2023 is written "2023-01-05". |
| OrderDate.LeapDay | oncoemr_integration.py:695 | 29 February reads in 2024 but not in 2023. |
| OrderDate.DayPastMonthRejected | oncoemr_integration.py:694-702 | "2023-01-32" matches only the day 3, leaves "2" unconverted, and is answered with the status-400 error naming the value. |
| OrderDate.DayPastMonthUnconverted | oncoemr_integration.py:695 | "2023-01-32" does not read. |
| OrderDate.ThirteenthMonthRejected | oncoemr_integration.py:695 | A 13th month does not read. |
| OrderDate.YearZeroRejected | oncoemr_integration.py:695 | Year 0 does not read. |
| OrderDate.TrailingTextRejected | oncoemr_integration.py:695 | Text after the day is unconverted data and does not read. |

## Left out

- HTTP, cookies, headers and response handling. These are I/O. The model starts from the scraped elements and ends at the record string and the server's answer.
- The HTML parse: BeautifulSoup, `find_all`, `get_text`, entity decoding, and the `select_one` look-ups of the note GUID and form id. The extractor receives the elements in document order, with their `id`, tag name, `type`, `value`, `checked` and text.
- The clock:
  - `_get_current_date` is a parameter.
  - Its two calls in one record are assumed to return the same date.
  - The `hash` freshness token is random and is not part of the record.
- `_extract_form_data_fd_only` and `remove_html_tags`. Neither is called on the note path.
- The order-entry, demographics, ICD-10 and physician JSON shaping. These are record-shaping around remote responses.
- The patient table parsers, the header-key cleaning in the patient-table parser, the note look-up by name, label resolution, grid and scale extraction, and the generic-note write path. These are not part of this model.
- Pydantic validation. `model_dump()` is taken as given. Only `FieldContent`'s shape comes from oncoemr_models.py:5-7: `text` is optional and `append` defaults to true.
- `TemplateMerge.KeyOf`: the selection is compared with the option keys only when it is a string or a boolean. Python's other cases are not modelled:
  - A dict or list selection raises `TypeError` (unhashable). The model treats it as a no-op.
  - A number equal to `True` or `False` matches a boolean key. The model treats it as a no-op.
- `TemplateMerge.Value`: dict-valued template fields other than `FieldContent` appear as `Other`, carrying only their truthiness.
- `PyStrings.AsciiLower`: `str.lower()` is modelled on ASCII letters only. The `type` attribute and tag names the extractor lower-cases are compared with ASCII words, but a non-ASCII character that lower-cases to ASCII, such as the Kelvin sign, is not modelled.
- `OrderDate.Parse`: `\d` in CPython's pattern also matches non-ASCII decimal digits. The model reads ASCII digits only.
- `OrderDate.Format`: the year is always written with four digits. The C library's `%Y` may write years below 1000 without padding.
- `HtmlText.RemoveHtmlTags`: `\s` in the break pattern uses the Unicode whitespace table of `str.isspace`. Case-insensitive matching is modelled for the letters `b` and `r` only, which is all the pattern contains.
