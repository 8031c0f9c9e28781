# IEEE certificate admin: dashboard controller and sheet-backed participants API

This project models the two halves of a small admin tool for certificate
participants, and proves properties of the model.

- **The dashboard** (`frontend/app/page.tsx`) keeps its state in one record:
  - the cached participant list and the list it shows;
  - a seven-field form;
  - the serial captured when edit mode was entered (`originalSerial`);
  - the edit flag;
  - a search term and a position filter.

  The model is the class `Dashboard.AdminDashboard`. Its methods are the
  handlers `fetchData`, `handleChange`, `resetForm`, `submitForm`,
  `handleEdit` and `handleDelete`, plus the filter effect.
  - Each HTTP reply and each answer to the password prompt is a parameter chosen by the caller.
  - Each handler returns the HTTP requests it issued, in order.
  - A dashboard is valid when the edit flag is on exactly when a serial is
    captured, both criteria are "", and the shown list is the filter of the
    cached list. The constructor makes it valid and every handler keeps it so.
  - The central property: an update is sent to the serial captured when edit
    mode was entered, never to the serial currently in the form.
- **The list filter** (`ListFilter.Filter`) is a pure function. It is two
  chained `filter` calls:
  - a case-insensitive substring search on name or serial;
  - an exact match on position.

  Each step is skipped when its string is empty. Lemmas prove that the result is:
  - an order-preserving subsequence;
  - exactly the admitted records (sound and complete);
  - the whole list when both criteria are empty;
  - idempotent.
- **The API** (`backend/app.py`) stores participants in a Google worksheet.
  - The worksheet is modelled as its grid of rows (`Sheets.Worksheet.cells`).
    Sheet row 1 holds the column headings; each later row is one data row.
  - Reading the records keys each data row by the headings, which is what
    `get_all_records` returns.
  - The four endpoints are methods of `SheetApi`. The list, delete and update
    endpoints scan the records in a loop; the add endpoint appends one row.
  - The list endpoint reads program events under the key `Program\ Events`
    (with a backslash), as the code does; see "## Findings".
  - Delete and update are each specified by an outcome function of the old
    grid, the path serial and the body's fields. Lemmas state:
    - only the first matching record is removed or overwritten;
    - the other records keep their order;
    - data index `k` is sheet row `k + 2`;
    - with no match, the reply is 404 and the grid is unchanged.

Modules: `Wrappers` (Option), `Participants` (the record, its fields, the PUT
body), `ListFilter`, `Dashboard`, `Sheets` (the worksheet grid and the four
worksheet operations the API calls), `SheetApi`.

Facts about the code that the model keeps:
- Nothing in the form is validated before a submit.
- The submit button prompts for the password again and passes the answer to the submit handler (`frontend/app/page.tsx:175`).
- The cached list keeps the order the server returned; it is never sorted.
- The backend never reads a password, so a DELETE or PUT is carried out whatever password was sent.
- In edit mode the serial input is disabled (`frontend/app/page.tsx:163`). `Dashboard.EditKeepsOriginalKey` still lets the serial field change before the submit, a case the page cannot reach, so the lemma is stronger than the page needs.

## Model

| member | source | states |
|---|---|---|
| `Participants.FieldsDetermineRecord` | frontend/app/page.tsx:26-34 | two records whose seven fields agree are the same record |
| `Participants.WithField` | frontend/app/page.tsx:87-89 | the named field takes the new value and the other six fields keep theirs |
| `Dashboard.AdminDashboard.constructor` | frontend/app/page.tsx:37-53 | initial state: both lists empty, blank form, no captured serial, create mode, empty criteria; the state is valid and the shown list agrees with the filter |
| `Dashboard.AdminDashboard.FetchData` | frontend/app/page.tsx:58-67 | exactly one GET; on success both lists are replaced wholesale by the response; on failure neither list changes; nothing else can change; the dashboard stays valid |
| `Dashboard.AdminDashboard.RecomputeFilter` | frontend/app/page.tsx:74-84 | the shown list becomes the filter of the cached list under the current criteria; nothing else changes |
| `Dashboard.AdminDashboard.HandleChange` | frontend/app/page.tsx:87-89 | exactly the named form field takes the typed value; the other six form fields and all other state are unchanged; the dashboard stays valid |
| `Dashboard.AdminDashboard.ResetForm` | frontend/app/page.tsx:91-103 | all seven form fields become "", the captured serial becomes null, edit mode is off; the lists and criteria are unchanged; the dashboard stays valid |
| `Dashboard.AdminDashboard.SubmitForm` | frontend/app/page.tsx:106-122 | in edit mode with a non-empty captured serial: a PUT to the captured serial, carrying the form and the password; otherwise a POST of the form alone. If the call is rejected, nothing else is sent and form, captured serial, edit flag and lists are unchanged. If it resolves: form reset, one GET, and the lists replaced only if that GET succeeds. The dashboard stays valid |
| `Dashboard.AdminDashboard.HandleEdit` | frontend/app/page.tsx:125-137 | an empty or cancelled prompt sends nothing and changes nothing; otherwise exactly one verification request. Only a 200 loads the record into the form, captures its serial and enters edit mode; any other outcome leaves form, captured serial and edit flag unchanged. The dashboard stays valid |
| `Dashboard.AdminDashboard.HandleDelete` | frontend/app/page.tsx:140-149 | an empty or cancelled prompt sends nothing and changes nothing; otherwise exactly one DELETE of the clicked record's serial with the password. If it is rejected, nothing else is sent and the lists are unchanged; if it resolves, one GET follows, and the lists are replaced only if it succeeds. The dashboard stays valid |
| `Dashboard.PasswordArgument` | frontend/app/page.tsx:175 | the submit button passes a password exactly when the prompt answer is present and non-empty, and then passes that answer |
| `Dashboard.ShownIsCached` | frontend/app/page.tsx:52-53 | both criteria keep their initial "" (no handler sets them), so a valid dashboard shows its whole cached list, in server order |
| `Dashboard.EditKeepsOriginalKey` | frontend/app/page.tsx:106-137 | entering edit mode on a record, overwriting the serial field, then submitting sends the PUT to the record's original serial, with the edited form as the body |
| `Dashboard.FailedVerifyStaysBlank` | frontend/app/page.tsx:125-137 | on a fresh dashboard, a verification that does not answer 200 leaves the form blank and edit mode off, after at most one request |
| `ListFilter.Lower` | frontend/app/page.tsx:78-79 | `toLowerCase` on ASCII: the same length, no upper-case letter left, every upper-case ASCII letter becomes its own lower-case letter (code point + 32), every other character unchanged |
| `ListFilter.LowerIdempotent` | frontend/app/page.tsx:78-79 | lower-casing a lower-cased string changes nothing |
| `ListFilter.Contains` | frontend/app/page.tsx:78-79 | `includes`: the empty needle is contained in every string, and a contained needle is no longer than the haystack |
| `ListFilter.ContainsAt` | frontend/app/page.tsx:78-79 | a needle that occurs at some position of the haystack is contained in it (`includes`) |
| `ListFilter.ContainsPosition` | frontend/app/page.tsx:78-79 | a contained needle occurs at some position of the haystack |
| `ListFilter.MatchesSearch` | frontend/app/page.tsx:76-80 | the empty term matches every record; a matching term is no longer than the name or than the serial |
| `ListFilter.SearchIgnoresTermCase` | frontend/app/page.tsx:76-80 | the search gives the same answer for a term and its lower-cased form |
| `ListFilter.Keep` | frontend/app/page.tsx:77-82 | `filter` returns an order-preserving subsequence, no longer than the input, holding each element that passes the predicate exactly as many times as the input does, and no other |
| `ListFilter.KeepCongruent` | frontend/app/page.tsx:77-82 | two predicates that agree on every record filter every list alike |
| `ListFilter.KeepAll` | frontend/app/page.tsx:77-82 | a predicate that accepts every record keeps the list as it is |
| `ListFilter.KeepKeep` | frontend/app/page.tsx:77-82 | filtering by one predicate and then by another equals a single filter by their conjunction |
| `ListFilter.Admits` | frontend/app/page.tsx:76-82 | the combined criterion: with both criteria "" every record is admitted; an admitted record matches a non-empty search term and equals a non-empty position |
| `ListFilter.Filter` | frontend/app/page.tsx:74-84 | the shown list is no longer than the cached list, and every shown record is cached and meets both criteria |
| `ListFilter.FilterSinglePass` | frontend/app/page.tsx:74-84 | the two chained filters equal one pass keeping exactly the records that meet both criteria, each criterion vacuous when empty |
| `ListFilter.FilterSubsequence` | frontend/app/page.tsx:74-84 | the shown list is an order-preserving subsequence of the cached list |
| `ListFilter.FilterExact` | frontend/app/page.tsx:74-84 | a record is shown if and only if it is cached and meets both criteria; a record meeting both is shown exactly as many times as it is cached, any other never |
| `ListFilter.FilterNoCriteria` | frontend/app/page.tsx:74-84 | with both criteria empty, the shown list is the cached list |
| `ListFilter.FilterIdempotent` | frontend/app/page.tsx:74-84 | filtering the filtered list again yields the same list |
| `Sheets.Cell` | backend/app.py:31 | the "" padding of `get_all_records`: inside the row, the cell is the row's value in that column; past its end, it is "" |
| `Sheets.RecordOf` | backend/app.py:31 | one record of `get_all_records`: it has at most as many keys as the header has headings |
| `Sheets.Records` | backend/app.py:31 | `get_all_records`: no records for an empty sheet, otherwise one per row below the header, record `k` read from sheet row `k + 2` under the header |
| `Sheets.Worksheet.GetAllRecords` | backend/app.py:31 | returns the records of the current grid and changes nothing |
| `Sheets.Worksheet.AppendRow` | backend/app.py:60 | the grid becomes the old grid with the row added at the bottom |
| `Sheets.DeleteRow` | backend/app.py:71 | the effect of `delete_rows(n)`: one row fewer, the rows above row `n` unchanged, each row below it moved up by one |
| `Sheets.Worksheet.DeleteRows` | backend/app.py:71 | sheet row `n` is removed and the rows below it move up |
| `Sheets.Worksheet.UpdateRow` | backend/app.py:84 | sheet row `n` is overwritten from column A by the values and every other row is unchanged |
| `Sheets.RecordOfKeys` | backend/app.py:31 | a record read by `get_all_records` has exactly the header's headings as keys |
| `Sheets.RecordOfColumn` | backend/app.py:31 | a heading that does not repeat to its right reads the cell of its own column, or "" past the row's end |
| `Sheets.Overwrite` | backend/app.py:84 | writing from column A sets the written cells and keeps the cells after them |
| `Sheets.RecordsAppend` | backend/app.py:60 | appending a row below the header adds exactly one record, at the end |
| `Sheets.RecordsDelete` | backend/app.py:69-71 | deleting sheet row `k + 2` removes record `k`; the other records keep their order |
| `Sheets.RecordsOverwrite` | backend/app.py:82-84 | overwriting sheet row `k + 2` changes record `k` and no other |
| `SheetApi.Lookup` | backend/app.py:35-41 | `rec.get(key, "")`: the record's value under the key when present, "" otherwise |
| `SheetApi.Clean` | backend/app.py:34-42 | the corrected reader: each field is the value under its own column's heading ("Program Events" for program events), "" when absent |
| `SheetApi.CleanAsWritten` | backend/app.py:34-42 | the reader as written: six fields as in `SheetApi.Clean`; program events is the value under `Program\ Events`, "" when that key is absent |
| `SheetApi.RowOf` | backend/app.py:51-59 | the row written for a participant has seven cells, each field in its own column, A to G |
| `SheetApi.MatchesSerial` | backend/app.py:70 | a record matches only if its "Serial Number" equals the path serial, and a non-empty path serial matches every record holding it |
| `SheetApi.SheetRowNumber` | backend/app.py:69 | `enumerate(records, start=2)`: record `k` is addressed as sheet row `k + 2`, never as the header row 1 |
| `SheetApi.DeleteOutcome` | backend/app.py:66-73 | the reference outcome of DELETE: reply 200 or 404; 404 exactly when no record matches, and then the grid is unchanged; on 200 the grid has one row fewer |
| `SheetApi.UpdateOutcome` | backend/app.py:78-94 | the reference outcome of PUT: reply 200 or 404; 404 exactly when no record matches, and then the grid is unchanged; the grid never changes its number of rows |
| `SheetApi.FirstMatch` | backend/app.py:69-70 | the result is the first record whose "Serial Number" equals the path serial, or none when no record has it |
| `SheetApi.GetParticipants` | backend/app.py:29-43 | one participant per data row, in row order, each read as the code reads it (`SheetApi.CleanAsWritten`), with "" for a missing key |
| `SheetApi.AddParticipant` | backend/app.py:48-61 | exactly one row is appended, holding the seven fields in the fixed order A to G; the reply is 201 |
| `SheetApi.DeleteParticipant` | backend/app.py:66-73 | the grid and reply are the delete outcome: sheet row `k + 2` deleted for the first matching record `k` with reply 200, or grid unchanged with reply 404 |
| `SheetApi.UpdateParticipant` | backend/app.py:78-94 | the grid and reply are the update outcome for the body's fields; the body's password has no effect on either |
| `SheetApi.HeadingsDistinct` | backend/app.py:35-41 | the seven column headings are pairwise different |
| `SheetApi.FittedColumn` | backend/app.py:35-41 | under headings A to G that repeat nowhere, each heading reads the cell of its own column |
| `SheetApi.FittedRecord` | backend/app.py:34-42 | under such headings, the corrected reader gives each field the cell of its own column |
| `SheetApi.RowRoundTrip` | backend/app.py:51-59 | a participant written as a row reads back as the same participant through the corrected reader |
| `SheetApi.OverwriteRoundTrip` | backend/app.py:84-92 | a participant written over an existing row reads back as itself through the corrected reader, whatever the row held before |
| `SheetApi.AddThenList` | backend/app.py:29-61 | after an add, the records are the old records followed by one that the corrected reader reads as the added participant |
| `SheetApi.AsWrittenLosesProgramEvents` | backend/app.py:37 | read under the key as written, an added participant's non-empty program events come back as "" |
| `SheetApi.FirstMatchAt` | backend/app.py:69-70 | the record a front-to-back scan stops at is the first match |
| `SheetApi.DeleteRemovesFirstMatch` | backend/app.py:66-72 | when record `k` is the first match, the reply is 200 and exactly record `k` is removed, the others keeping their order |
| `SheetApi.DeleteWithoutMatch` | backend/app.py:73 | when no record matches, the reply is 404 and the grid is unchanged |
| `SheetApi.UpdateOverwritesFirstMatch` | backend/app.py:78-93 | when record `k` is the first match for the path serial, the reply is 200 and every other record is unchanged. Under fitting headings, record `k` reads back as the body's fields, its serial included, so the serial cell may change |
| `SheetApi.EditAsListedErasesProgramEvents` | backend/app.py:37 | under the seven headings, a record listed by the code as written and sent back unchanged as an update ends with "" under "Program Events" |
| `SheetApi.UpdateWithoutMatch` | backend/app.py:94 | when no record matches, the reply is 404 and the grid is unchanged |

## Left out

- Rendering is not modelled: JSX, Tailwind classes and icons are presentation only.
- The loading flag is not modelled.
- The timing of React state updates and effects is not modelled. The filter effect is a transition of its own (`RecomputeFilter`), which the caller runs after the cached list changes.
- Each API request runs alone against the sheet. The delete and update endpoints read all records, then delete or overwrite a row number computed from that read. A change by another request, another admin or a direct edit of the sheet between `get_all_records` and `delete_rows`/`update` can make the endpoint remove or overwrite a different row. This is not modelled, so `SheetApi.DeleteRemovesFirstMatch` and `SheetApi.UpdateOverwritesFirstMatch` hold only when nothing interleaves.
- Handlers run to completion one at a time. The un-awaited `fetchData()` after a mutation is modelled as a GET whose reply is a parameter.
- `axios`, `prompt` and `alert` become parameters: HTTP replies (`Reply`, `ListReply`) and prompt answers (`Option<string>`).
  - axios rejects every non-2xx status. The type `Dashboard.Reply` therefore admits a resolved reply only with a 2xx status.
  - The alert shown on a resolved non-200 verification changes no state.
- `Dashboard.AdminDashboard` has no setter for the search term or the position. The source declares them but never calls them, so both criteria stay "".
- `ListFilter.Lower`: lower-casing covers ASCII letters only. Unicode case folding is not modelled.
- The `/verify-password` endpoint has no implementation in the backend shown. Its answer is a parameter of `HandleEdit`.
- Flask routing, CORS, JSON parsing, `jsonify`, credentials, environment variables and `gspread` authorisation are not modelled.
- The worksheet library is modelled only by the documented effect of the four calls made (`Sheets.Worksheet`). Beyond that:
  - value coercion by `get_all_records` (numeric cells) is not modelled;
  - trailing blank rows are not modelled;
  - newer library versions refuse duplicate headings; the model lets the rightmost one win, as `dict(zip(...))` does.
- Request bodies are complete seven-field records. A `KeyError` on a missing field is not modelled.
- `SheetApi.DeleteParticipant` has no password parameter, because the endpoint never reads the request body.

## Findings

| source | as written | input that shows it | evidently intended | confidence | as-written member | corrected member |
|---|---|---|---|---|---|---|
| backend/app.py:37 | the list endpoint reads program events under the key `Program\ Events`, which contains a backslash | a sheet whose headings are the seven names used everywhere else ("Serial Number", …, "Program Events", …), after adding a participant whose program events are "Workshop": the list returns that participant with program events "" | read the column under "Program Events", like the six other keys | medium, not executed; the sheet's real heading text is not part of this model | `SheetApi.AsWrittenLosesProgramEvents` (with `SheetApi.CleanAsWritten`) | `SheetApi.AddThenList` (with `SheetApi.Clean`) |

The same key also affects edits. The page copies a listed record into the form
when edit mode is entered (`frontend/app/page.tsx:131`). That record's program
events were read as "". Submitting the edit without touching that field
therefore writes "" into column C (`backend/app.py:87`). This is
`SheetApi.EditAsListedErasesProgramEvents`.
