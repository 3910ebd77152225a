# Intern guide registry, modelled in Dafny

The intern guide is a small Flask dashboard. Its only logic is an intern registry:

- a process-wide, insertion-ordered `interns` list, seeded with three records;
- a registration handler that appends a new record with status "In Progress" and also writes a row to the `interns.xlsx` spreadsheet;
- a dashboard that counts total, completed and in-progress interns;
- an onboarding page that lists every record as a table row.

This project models that registry and proves what the handlers promise about it.

Files and modules:

- `text.dfy` (`AsciiText`): lower-casing one character and one string, standing in for `str.lower()`. It also shows that a string lowers to a lower-case word exactly when it spells that word in any mix of cases.
- `registry.dfy` (`Registry`):
  - the `Record` datatype and the seed list;
  - the dashboard counts (`IsCompleted`, `CountCompleted`, `CountOthers`, `Summarize`);
  - the onboarding rows (`Listing`) and their markup (`RowMarkup`, `TableRows`);
  - the `InternList` class, whose `interns` field `Register` appends to in place.
- `sink.dfy` (`Sink`): the spreadsheet as `Option<Book>`, where `None` means the file is absent and a `Book` maps sheet titles to rows.
  - `Initialized` and `SaveRow` specify what initialisation and saving a row do.
  - The `Store` class holds the file. Its methods `EnsureInitialized` and `AppendRow` are proved against those two functions.
- `app.dfy` (`App`):
  - the POST branch of `/registration`, as a method over the list and the store;
  - process start-up as the application does it;
  - start-up with the store initialised;
  - the two first-registration scenarios of the finding below.

Two choices follow the code closely:

- Status is a free string, not an enumeration. The seed records use two spellings, "Completed" and "In Progress" (app.py:27-29), and the dashboard compares any status string by its lower-cased form with "completed" (app.py:139).
- The comment at app.py:9 ("Initialize Excel file if not present") announces an initialisation routine, and `init_excel` is defined at app.py:10, but nothing in app.py calls it. Start-up as written therefore leaves the file as it finds it; see "## Findings".

## Model

| member | source | states |
|---|---|---|
| `AsciiText.LowerChar` | app.py:139 | the result is never an upper-case ASCII letter; capitals map to lower-case letters and every other character is kept |
| `AsciiText.Lower` | app.py:139 | the lowered string has the same length and each character is lowered in place |
| `AsciiText.LowerCharInverse` | app.py:139 | exactly two characters lower to a given lower-case letter: the letter and its capital |
| `AsciiText.LowerEqualsWord` | app.py:139 | a string lowers to a lower-case word if and only if it spells that word letter by letter in either case |
| `Registry.IsCompleted` | app.py:139 | the dashboard's test on one record: its status lowers to "completed", which holds if and only if it spells "completed" in any mix of cases, "COMPLETED" included |
| `Registry.CountOthers` | app.py:140 | the number of records that are not completed, the independent count the in-progress figure is checked against; never more than the number of records |
| `Registry.CountCompleted` | app.py:139 | the completed count never exceeds the number of records |
| `Registry.Summarize` | app.py:138-140 | total is the list length; 0 <= completed <= total; in_progress is never negative; completed + in_progress == total |
| `Registry.CountsPartition` | app.py:138-140 | each record is counted exactly once, as completed or as not completed |
| `Registry.InProgressCountsTheRest` | app.py:139-140 | the in-progress figure equals the number of records whose status does not lower to "completed" |
| `Registry.CountCompletedSnoc` | app.py:139 | appending a record raises the completed count by one if it is completed and leaves it unchanged otherwise |
| `Registry.SummarizeSnoc` | app.py:138-140 | appending a record raises total by one, and raises completed or in_progress by one according to its status |
| `Registry.InProgressIsNotCompleted` | app.py:154 | the status "In Progress" given to new records never counts as completed |
| `Registry.Registered` | app.py:154 | the new record keeps the submitted name and department, has status "In Progress" and is not completed |
| `Registry.AppendingInProgress` | app.py:138-140 | after any number of appended records that are not completed, such as those app.py:154 adds, completed is unchanged and total and in_progress each rise by their number |
| `Registry.CapitalisedCompletedCounts` | app.py:27-29 | the seed spelling "Completed" counts as completed |
| `Registry.SeedSummary` | app.py:26-30 | the seed list summarises to (total, completed, in_progress) = (3, 2, 1) |
| `Registry.TwoSpellingsSnoc` | app.py:154 | appending a registration's "In Progress" record keeps every status in the list "Completed" or "In Progress" |
| `Registry.CountInProgress` | app.py:143 | the number of records whose status is exactly "In Progress", never more than the number of records |
| `Registry.OthersAreInProgress` | app.py:27-29 | when every status is "Completed" or "In Progress", the records that are not completed are exactly those whose status is "In Progress" |
| `Registry.InProgressFigureCountsInProgress` | app.py:140-143 | on such a list, the figure the dashboard labels "In Progress" is the number of records whose status is "In Progress" |
| `Registry.SeedThenRegister` | app.py:150-155 | one registration after the seed list summarises to (4, 2, 2) |
| `Registry.Listing` | app.py:170 | one onboarding row per record, in insertion order, carrying that record's name, dept and status |
| `Registry.RowMarkup` | app.py:170 | one table row: the name, dept and status sit unescaped at fixed positions between the tags, in that order, with 36 characters of tags in all; the row starts with `<tr><td>` and ends with `</td></tr>` |
| `Registry.TableRows` | app.py:170 | the rows' markup joined with no separator: empty exactly when there are no rows, and at least 36 characters per row |
| `Registry.TableRowsSnoc` | app.py:170 | the joined row markup of a longer listing is the shorter one's followed by the new row's markup |
| `Registry.OnboardingAfterAppend` | app.py:170 | after one append, the listing and its markup are the old ones followed by the new record's row |
| `Registry.InternList.constructor` | app.py:26-30 | the list starts as the three seed records, each with status "Completed" or "In Progress" |
| `Registry.InternList.Register` | app.py:154 | keeps every status "Completed" or "In Progress"; exactly one record `{name, dept, "In Progress"}` is appended and earlier records are unchanged; total and in_progress rise by 1 and completed is unchanged; the listing gains that one row |
| `Sink.Initialized` | app.py:10-16 | the store after `init_excel`: always present afterwards, and an existing store is returned unchanged |
| `Sink.SaveRow` | app.py:19-23 | the store after `save_to_excel`, or its error: succeeds exactly when the file exists and has the "Interns" sheet, and then that sheet has one more row |
| `Sink.InitializeAbsent` | app.py:10-16 | initialising an absent store creates it with an "Interns" sheet holding only the header row |
| `Sink.InitializeIdempotent` | app.py:11 | an existing store is never overwritten, so initialising twice is the same as once |
| `Sink.SaveRowAppends` | app.py:19-23 | saving succeeds if and only if the store exists and has the "Interns" sheet; an absent store fails with StorageNotFound; on success the row comes after all existing rows and nothing else changes |
| `Sink.SaveKeepsReady` | app.py:19-23 | a store that accepted one row accepts the next |
| `Sink.SaveAfterInitialize` | app.py:10-23 | a row saved to a freshly initialised store is its only data row, after the header |
| `Sink.Store.constructor` | app.py:7 | the store starts as the file found on disk |
| `Sink.Store.EnsureInitialized` | app.py:10-16 | the new store is `Initialized` of the old: a header-only file when none existed, the existing file otherwise |
| `Sink.Store.AppendRow` | app.py:19-23 | the outcome is `SaveRow` of the old store and the four given values; on success the store becomes the new book, and on failure it is unchanged |
| `App.MissingField` | app.py:151-153 | no field is reported missing if and only if name, email and dept are all present; a reported field is absent and is one of those three |
| `App.FormRow` | app.py:155 | the saved row is `[name, email, dept, "In Progress"]`, as wide as the header |
| `App.RegistrationPost` | app.py:150-156 | a form missing a field gets a bad-request answer and changes nothing. A complete form appends the record in memory, then saves the row. A successful save redirects home; a failed save returns the storage error and leaves the file, but not the list, unchanged. A ready store always succeeds and stays ready. Every status stays "Completed" or "In Progress" |
| `App.StartAsWritten` | app.py:7-30 | start-up builds the seed list and leaves the store as found, without initialising it |
| `App.StartWithInit` | app.py:9-16 | start-up with initialisation leaves a ready store when no file existed |
| `App.FirstRegistrationAsWritten` | app.py:150-155 | with no file on disk, the first complete registration fails with StorageNotFound while the dashboard already shows (4, 2, 2) |
| `App.FirstRegistrationWithInit` | app.py:10-16 | with initialisation at start-up, the first registration redirects home, the dashboard shows (4, 2, 2) and the sheet holds the header and exactly that registration's row |

## Findings

| source | as written | input that shows it | evidently intended | confidence | as-written member | corrected member |
|---|---|---|---|---|---|---|
| app.py:10-16 | `init_excel` is defined but never called, so start-up leaves the store as found | start with no `interns.xlsx`, then POST /registration with name, email and dept: `load_workbook` finds no file after the record was already appended in memory | the file is created with its header row at start-up, so every registration is saved | medium: holds whenever the file is absent at start-up; not executed | `App.FirstRegistrationAsWritten` | `App.FirstRegistrationWithInit` |

## Left out

- Flask routing, `request.method`, `redirect`/`url_for` and `render_template_string` are not modelled. The form arrives as a map of field names to strings. A missing field becomes a bad-request response, and the redirect is the value `Redirect("home")`.
- The page template, the dashboard's paragraph markup and the static pages (modules, schedule, resources, assessments, contact) are not modelled: they are constant content.
- HTML escaping is not modelled. The rows are inserted with `| safe`, and `TableRows` joins the cell strings exactly as the code does.
- The openpyxl workbook API and `os.path.exists` are not modelled. The file is a value (`Option<Book>`), and loading and saving the whole workbook is a single assignment.
- openpyxl's placement of an appended row after the sheet's last used row is not modelled. The model appends after the sequence's last row.
- Sheets other than "Interns" are carried through unchanged; their contents play no part.
- Concurrency is not modelled. Requests are sequential, so races on the shared list and file under several workers are outside the model.
- `AsciiText.Lower`: lowers ASCII capitals only, whereas Python's `str.lower()` covers all of Unicode, so `Lower` differs from `str.lower()` on non-ASCII text. The completed count is not affected. The only non-ASCII characters that Python lowers to text containing ASCII letters are U+0130 (to "i" plus a combining dot) and U+212A KELVIN SIGN (to "k"). Neither letter occurs in "completed", so `IsCompleted` agrees with `status.lower() == "completed"` on every string.
- `app.run` and the `PORT` environment variable are start-up I/O and are not modelled.
- `App.RegistrationPost`: openpyxl's checks on cell values are not modelled. When a row is appended, the library rejects control characters U+0000 to U+0008, U+000B, U+000C and U+000E to U+001F, and cuts strings at 32,767 characters. So "a complete form on a ready store always redirects home" holds of the model only. In the application such a value makes the save fail after the record was already appended in memory.
- `Sink.Store.AppendRow`: the same cell checks are not modelled, so a ready store accepts every row in the model only.
- The browser-side `required` attributes of the form do not constrain the handler. The model accepts empty strings, as the server does.
