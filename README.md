# Timetable look-up of the lizard bot, in Dafny

The bot answers two questions from a college timetable kept as an Excel workbook on a
shared drive: "what does group G have?" (`service`) and "what does teacher T teach?"
(`search_schedule_by_teacher`). Both live in `apps/bot/api.py`, together with the
functions this model covers:

- `process_excel` and `process_excel2` scan the workbook. There is one sheet per weekday. The first row of a sheet is a header. Every data row holds consecutive (room, group, teacher) column triplets. The group scan visits columns 1, 4, 7, … and keeps the cells equal to the group name. The teacher scan visits columns 2, 5, 8, … and keeps the cells whose trimmed, lower-cased text starts with the trimmed, lower-cased key. Each hit becomes a tuple that carries the sheet title and a flag: does some cell of the row read exactly `Классный час` (class hour)?
- `form_schedule` splits the reply text into lines and decides once, for the whole text, whether it is a class-hour day. It then rewrites each line in place:
  - A line starting with a lesson number gets a clock sign before it and the lesson's time after it. The time comes from the ordinary table, or from the shortened class-hour table on a class-hour day.
  - A line starting with any other digit is blanked.
  - A line naming the class hour gets a clock sign.
- `service` and `search_schedule_by_teacher`:
  - pick the first file named `name + '.xlsx'`;
  - answer fixed sentences when there is no such file or no lesson;
  - otherwise print one entry per hit, with a float room cut to an integer;
  - turn every comma of the entries into a line break;
  - hand the text to `form_schedule`.

The model follows the code's own structure:

- **`Extractor`** has one method per loop of the scanners: a row loop for each scanner, then the sheet's row loop and the workbook's sheet loop. Each method is proved equal to a recursive specification (`Scan`). Lemmas say what that specification yields row by row.
- **`Renderer`** has `FormSchedule`, a loop that overwrites a sequence of lines in place. It is proved equal to `FormScheduleText`. Lemmas say what each line becomes, when the whole call raises, and that the lines of the result match the lines of the input one to one.
- **`Service`** has `Service` and `SearchScheduleByTeacher`, which call the file search loop (`SelectFile`), a scanner, the message loop (`AssembleMessage`) and `FormSchedule`. They are proved equal to the reply functions `GroupReply` and `TeacherReply`. Lemmas say:
  - which file counts;
  - when a sentinel reply is given;
  - how the message breaks into lines;
  - what the final reply is, line by line.

Supporting modules:

- `Outcomes`: the Option and Result types, the Python exceptions as values, and the first-exception-wins accumulation of a loop that appends.
- `PyText`: the Python string operations used.
- `Workbook`: cells, rows, sheets and files.
- `Seqs`: small facts about sequences.

An exception the Python code raises is modelled as a `Failure` result:

- `IndexError`: a group match in the last column, where `row[idx + 1]` is read past the end of the row.
- `AttributeError`: a truthy teacher cell that is not a string, so it has no `.strip()`.
- `KeyError(7)`: lesson 7 on a class-hour day. The guard at `apps/bot/api.py:106` tests the ordinary table, which has a lesson 7. The lookup at line 108 reads the shortened table, which has none.

The model follows the code as written:

- The times hold spaces (`'8:00 - 9:30'`).
- The time is appended after the line.
- A non-whole float room is truncated by `int()`.
- A class-hour text with a line starting with `7` raises instead of getting a time.

A consequence of the code as written (`Service.ReplyLines`, `Renderer.RenderLessonLine`, `Renderer.RenderUnknownLesson`, `Renderer.RenderLineFails`): the header line of a reply is rendered like any other line. So a header that starts with a digit is not kept as it is:

- A digit from 1 to 6 gets a clock sign and a lesson time appended.
- A `7` gets a clock sign and the time of lesson 7 on an ordinary day. On a class-hour day the whole reply raises `KeyError(7)` instead.
- A `0`, `8` or `9` makes the header line empty.

## Model

| member | source | states |
|---|---|---|
| Workbook.DataRows | apps/bot/api.py:47 | the rows a sheet yields are all its rows but the first (the header), in order |
| Extractor.ColumnSlots | apps/bot/api.py:50-53 | one visited column raises exactly when it is faulty, with IndexError for the group scan and AttributeError for the teacher scan; otherwise a match yields exactly the one tuple built from the neighbouring cells and the row flag, and a non-match yields nothing |
| Extractor.HitsFromExact | apps/bot/api.py:49 | the matching columns listed from `idx` are exactly the columns `c >= idx`, `c < len(row)`, `c ≡ idx (mod 3)` that match, each once, strictly ascending |
| Extractor.RowFromFails | apps/bot/api.py:49-53 | scanning the columns `idx, idx+3, …` of a row raises iff one of them is faulty, and then with IndexError for the group scan and AttributeError for the teacher scan |
| Extractor.RowFromSlots | apps/bot/api.py:49-53 | when no visited column raises, the row yields one tuple per matching column, in column order, each the tuple of that column |
| Extractor.RowSlotsExact | apps/bot/api.py:48-53 | a data row raises iff a visited column (offset 1 for groups, 2 for teachers, stride 3) is faulty; otherwise it yields exactly one tuple per matching visited column, ascending, each carrying the row's own class-hour flag whatever column matched; the exception raised is IndexError for the group scan and AttributeError for the teacher scan |
| Extractor.GroupFaultOnlyAtRowEnd | apps/bot/api.py:49-52 | the group scan of a row raises iff the row's length is 3k+2 and its last cell is the group name, and then with IndexError |
| Extractor.TeacherMatchGuard | apps/bot/api.py:70 | `None` and empty-string teacher cells never match, and an empty key matches every non-empty string cell |
| Extractor.ScanOk | apps/bot/api.py:46-54 | the scan never stops early except by an exception: it raises iff the scan of some data row of some sheet raises, and the exception is IndexError for the group scan and AttributeError for the teacher scan |
| Extractor.GroupRowScan | apps/bot/api.py:48-53 | the inner loop of `process_excel` over columns 1, 4, 7, … returns exactly the row's specified outcome, including the IndexError |
| Extractor.TeacherRowScan | apps/bot/api.py:68-76 | the inner loop of `process_excel2` over columns 2, 5, 8, … returns exactly the row's specified outcome, including the AttributeError |
| Extractor.SheetScan | apps/bot/api.py:47-53 | the row loop gathers the rows' tuples in row order and stops at the first exception |
| Extractor.BookScan | apps/bot/api.py:46-54 | the sheet loop gathers the sheets' tuples in sheet order and stops at the first exception |
| Extractor.ProcessExcel | apps/bot/api.py:41-54 | `process_excel` returns the group scan of the workbook, and every tuple is a group tuple |
| Extractor.ProcessExcel2 | apps/bot/api.py:57-77 | `process_excel2` returns the teacher scan with the key `teacher_name.strip().lower()`, and every tuple is a teacher tuple |
| Outcomes.CollectSpec | apps/bot/api.py:102-112 | a loop that stops at the first exception raises iff some step raises, and then with that first step's exception; otherwise it keeps every step's value, in order |
| PyText.StripSpec | apps/bot/api.py:70 | `strip` keeps a contiguous part of the text that neither starts nor ends with white space, every character it drops before and after that part is white space, and it leaves nothing iff the text is all white space |
| PyText.LowerAt | apps/bot/api.py:64-70 | `lower()`, used on the teacher key and on each teacher cell, maps every character, one for one, to its lower-case form |
| PyText.CapitalizeAt | apps/bot/api.py:192 | `teacher_name.capitalize()` upper-cases the first character and lower-cases every other one |
| PyText.UpperIdempotent | apps/bot/api.py:154 | upper-casing twice is upper-casing once, so `group_name.upper()` of an upper-cased name is that name |
| PyText.ContainsAt | apps/bot/api.py:100 | `sub in s` holds iff `sub` occurs at some index of `s` |
| PyText.ReplaceCharAt | apps/bot/api.py:154 | `replace(',', '\n')` puts a break where the text has a comma, keeps every other character, and leaves no comma |
| PyText.NatToStringRoundTrip | apps/bot/api.py:152 | reading back the digits `str(n)` prints gives `n` |
| PyText.IntToStringRoundTrip | apps/bot/api.py:152 | `str(i)` starts with a minus sign exactly when `i` is negative, and the digits after it read back as the magnitude of `i` |
| Workbook.CellText | apps/bot/api.py:152 | an f-string prints `None` as `None`, a string as itself, a float as its `str()` form, and an int as a minus sign exactly when negative, then the digits of its magnitude with no leading zero |
| PyText.Trunc | apps/bot/api.py:149-150 | `int(v)` truncates toward zero: the integer at most `v` for non-negative `v`, at least `v` for negative `v`, less than one away, and `v` itself when `v` is whole |
| Renderer.JoinSplit | apps/bot/api.py:99 | joining the pieces of `split('\n')` gives back the text |
| Renderer.SplitJoin | apps/bot/api.py:115 | splitting the `'\n'.join` of lines without breaks gives back those lines |
| Renderer.LessonLineLeadingDigit | apps/bot/api.py:104 | the guard `line.strip() and line[0].isdigit()` holds iff the line starts with a digit |
| Renderer.RenderLineFails | apps/bot/api.py:106-108 | a line raises iff it is a class-hour day and the line starts with `7`, and the exception is `KeyError(7)` |
| Renderer.RenderLessonLine | apps/bot/api.py:104-111 | a line starting with 1..7 (not 7 on a class-hour day) becomes the clock sign, the line, a space and the lesson's time from the table of the day |
| Renderer.RenderUnknownLesson | apps/bot/api.py:103-112 | a line starting with 0, 8 or 9 becomes the empty line |
| Renderer.RenderOtherLine | apps/bot/api.py:113-114 | a line not starting with a digit is kept, with a clock sign before it iff it names the class hour |
| Renderer.RenderLineNoBreak | apps/bot/api.py:107-114 | rendering a line adds no line break |
| Renderer.FormScheduleFails | apps/bot/api.py:99-112 | `form_schedule` raises iff some line names the class hour and some line starts with `7`, and then with `KeyError(7)` |
| Renderer.FormScheduleRendered | apps/bot/api.py:99-115 | a returned text has exactly as many lines as the input, and line k of it is line k of the input rendered with the flag of the whole text |
| Renderer.OrdinaryDayNeverFails | apps/bot/api.py:100-112 | a text with no line naming the class hour never raises |
| Renderer.FormSchedule | apps/bot/api.py:80-115 | the in-place loop over the lines returns exactly the specified text or exception |
| Service.FirstNamedSpec | apps/bot/api.py:124-127 | the search finds nothing iff no file has the name, and otherwise finds the first file that has it |
| Service.SelectFile | apps/bot/api.py:122-127 | the search loop with `break` returns the first file named `name + '.xlsx'` |
| Service.RoomValueSpec | apps/bot/api.py:148-150 | a non-float room is printed as it is; a float room is printed as its truncation toward zero, which is its own value when whole |
| Service.FormatEntry | apps/bot/api.py:147-153 | one pass of the message loop produces the slot's entry, its float room truncated |
| Service.AssembleMessage | apps/bot/api.py:146-154 | the message loop and the join produce the header line followed by the entries in order, with every comma replaced |
| Service.MessageBodyNoComma | apps/bot/api.py:154 | the message starts with the header and a break, and no comma is left after them |
| Service.EntriesJoined | apps/bot/api.py:151-154 | when no printed field holds a comma or a line break, the joined entries with commas turned into breaks are the entries' lines (empty line, day, room, counterpart) joined, with a final break |
| Service.MessageLines | apps/bot/api.py:146-154 | when no printed field holds a comma or break, the message splits into the header, four lines per entry and a final empty line |
| Service.ReplyLines | apps/bot/api.py:154-155 | the reply to such a message raises iff some line of the message, the header included, names the class hour and some line starts with `7`, and otherwise has the message's lines, each rendered |
| Service.SentinelReplies | apps/bot/api.py:129-144 | no file named `name + '.xlsx'` gives `Файл не найден.`; a found file with an empty scan gives the group or teacher no-lessons sentence |
| Service.FirstFileDecides | apps/bot/api.py:124-127 | only the first file with the name matters: the replies equal those for a listing holding that file alone |
| Service.GroupReplyHeader | apps/bot/api.py:132-154 | the group reply is the rendered message headed by `group.upper()` |
| Service.Service | apps/bot/api.py:118-155 | `service` returns exactly the specified group reply or exception |
| Service.SearchScheduleByTeacher | apps/bot/api.py:158-193 | `search_schedule_by_teacher` returns exactly the specified teacher reply or exception |

## Left out

- `get_filenames` and `download_file`, and the credential and `build(...)` calls: these are network I/O on the drive. The file listing is an input sequence of (id, name) records and the download is an input function from a file id to a decoded workbook.
- `openpyxl.load_workbook`: decoding the file is a foreign library. The workbook is taken as decoded: sheets of rows of cells that are `None`, `str`, `int` or `float`. Other cell types (dates, booleans) are not modelled.
- Floating point: a float cell carries its value as a real number, without rounding, and its `str()` form as text supplied with the cell. `int()` is truncation toward zero of that real.
- `str.isdigit` is restricted to the ASCII digits, so a line starting with any other digit is treated as a line that does not start with a digit: kept as it is, or given the clock sign when it names the class hour. Python differs in two ways. A Unicode decimal digit such as `'３'` or `'٣'` passes `isdigit` and `int()` reads its value, so Python gives that line a time (or blanks it, or raises `KeyError(7)`) as for the ASCII digit. A digit that is not decimal, such as `'²'`, passes `isdigit` but makes `int()` raise `ValueError`, which the model does not raise. `str.lower`, `str.upper` and `str.capitalize` are modelled for ASCII and the basic Cyrillic block only. Other letters are left unchanged.
- `str.strip` removes the characters Python treats as white space, listed explicitly.
- The Python exceptions leave the functions as `Failure` results. What the HTTP views do with them, in `apps/bot/views.py` and `bot/views.py`, is not part of this model.
- `apps/bot/models.py`, the serializers, the URL tables, `apps.py`, `asgi`/`wsgi` and `manage.py` are framework plumbing with no timetable logic.
- Service.MessageLines: stated only for a header without a line break and printed fields without a comma or line break (the header's commas are never replaced, so they do not matter). A teacher name with a comma adds lines; that case is covered only by `PyText.ReplaceCharAt` and `Service.MessageBodyNoComma`.
- Service.ReplyLines: stated under the same condition as `Service.MessageLines`.
- Service.EntriesJoined: stated under the same condition as `Service.MessageLines`.
