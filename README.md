# UCSD enrollment bot: a verified model of its core

UCSDEnrollmentBot is a chat bot for UC San Diego students. It does three things:

- It searches the course catalog by code list, keywords, department and division.
- It reads a student's degree audit and shows the major's progress as pages.
- It links a chat account to a student PID, then waits thirty minutes for an audit that confirms the link.

This project models, in Dafny, the deterministic logic under those features:

- the five division patterns `SEARCH_FILTERS` (module `Divisions`);
- the `datetime` parse of the saved enrollment calendar and the `strftime` rendering it reads back (`Timestamps`);
- the course record (`Catalog`);
- the mapping from the semantic index's positions back to catalog records (`Embed`);
- the `search` filter pipeline (`Search`);
- the course-listing parser of the scraper (`Listing`);
- the enrollment-window table of the calendar scraper (`Calendar`);
- `normalize_code` and the sub-requirement extraction of the audit server (`Audit`);
- the `/search`, `/me` and `/link` presentation logic and the verification-timer dictionary (`Commands`).

Two supporting modules hold the Python primitives the source leans on:

- `Text`: `str.strip`, `upper`, `split`, `join`, `' '.join(s.split())`, `int()` and zero-padded rendering. Digits and letters are ASCII. White space is the ASCII set plus U+0085 and U+00A0, as `str.strip` and `str.split` treat them.
- `Lists`: list comprehensions with a condition, which are stable filters.

## How the source is represented

- Loops that accumulate are written as methods with loops. Each method is proved equal to a recursive specification function, and the properties are lemmas about that function. Examples:
  - `Listing.Scrape` and `Listing.ScanDept`;
  - `Calendar.ScrapeCalendar`;
  - `Audit.NormalizeCode`;
  - `Commands.MajorOverviewPage`.
- Comprehensions and expressions are written as functions.
- The module-level `verification_timers` dict is a class, `Commands.VerificationTimers`:
  - its key order is a `seq` field and its deadlines a `map` field;
  - `Start`, `Pop` and `Tick` update the fields in place;
  - `Tick` is proved against the value-level specification `Commands.TickedTimers`.
- The following become values handed in, because the model cannot compute them:
  - HTML elements: the text or attribute that the BeautifulSoup call would return, or `None`;
  - the clock: an integer `now`;
  - the database answers: `verified` and `linked`;
  - the semantic ranker: a function from query text and `k` to a list of positions.
- Python exceptions become `Err` results. This covers `KeyError`, `IndexError`, `ValueError`, `TypeError`, `OverflowError`, `AttributeError` and reading an unbound local.

## Model

| member | source | states |
|---|---|---|
| Divisions.FromLabel | src/const.py:41-47 | Looking up a key gives the division whose label it is, and nothing (KeyError) for any other key |
| Divisions.LabelRoundTrip | src/const.py:41-47 | Every division's label looks up to that division; exactly the five keys are accepted |
| Divisions.RunEnd | src/const.py:42-45 | A character-class run ends at the first character outside the class, or at the end |
| Divisions.RunEndCovers | src/const.py:42-45 | Any stretch of class characters from the same start lies within the run |
| Divisions.DeptThenUnique | src/const.py:42-44 | Every way `[A-Z]{2,4} ` can match puts the number where the scanner does |
| Divisions.LettersToBoundaryIff | src/const.py:42-45 | After a word character, `[A-Za-z]*\b` matches iff the letter run is followed by a non-word character or the end |
| Divisions.NoBoundaryBeforeDigit | src/const.py:42-44 | `[A-Za-z]*\b` cannot match in front of a further digit, so the digit counts are exact |
| Divisions.LowerDivisionIsRegex | src/const.py:42 | The scanner accepts a code iff the Lower Division pattern has a match at its start (both directions) |
| Divisions.UpperDivisionIsRegex | src/const.py:43 | The scanner accepts a code iff the Upper Division pattern has a match at its start |
| Divisions.GraduateIsRegex | src/const.py:44 | The scanner accepts a code iff the Graduate pattern has a match at its start |
| Divisions.UndergraduateIsRegex | src/const.py:45 | The one-pass scanner accepts a code iff one of the two alternatives matches |
| Divisions.UndergraduateIsUnion | src/const.py:45 | Undergraduate matches iff Lower Division or Upper Division matches |
| Divisions.AllCoursesMatchesEverything | src/const.py:46 | `.*` matches every code |
| Divisions.IsLowerDivision | src/const.py:42 | A lower-division code is neither upper-division nor graduate |
| Divisions.IsUpperDivision | src/const.py:43 | An upper-division code is not graduate |
| Divisions.IsUndergraduate | src/const.py:45 | The union pattern holds iff the lower- or the upper-division pattern holds |
| Divisions.Matches | src/const.py:41-47 | All Courses matches every code; any other division matches only a code opening with 2 to 4 capitals and a space |
| Divisions.DivisionsDisjoint | src/const.py:42-44 | No code is in two of Lower Division, Upper Division and Graduate |
| Divisions.ThousandsOnlyInAllCourses | src/const.py:42-46 | A number of four or more digits starting with 1 is matched by All Courses only |
| Divisions.LongDepartmentOnlyInAllCourses | src/const.py:42-46 | A department of five or more capitals is matched by All Courses only |
| Divisions.LowerCaseDepartmentOnlyInAllCourses | src/const.py:42-46 | A code not opening with a capital letter is matched by All Courses only |
| Divisions.TrailingTextStillMatches | src/const.py:42-46 | Matching is anchored at the start only: text after a word boundary keeps a match |
| Divisions.UpperDivisionExamples | src/const.py:43 | "CSE 100" and "MATH 103B" are upper division; "CSE 8", "CSE 200" and "MATH 20A" are not |
| Divisions.LowerDivisionExamples | src/const.py:42 | "CSE 8", "MATH 20A" and "CSE 10 X" are lower division; "CSE 100" is not |
| Divisions.GraduateExamples | src/const.py:44 | "CSE 200" is graduate and "CSE 100" is not; only All Courses takes "CSE 1000" |
| Timestamps.DaysInMonth | src/const.py:27 | A month has 28 to 31 days, and 29 exactly in a leap-year February |
| Timestamps.NextDay | src/courses/scrape.py:85 | The following calendar date is a valid date |
| Timestamps.AddDays | src/courses/scrape.py:85-88 | Adding whole days gives a valid date |
| Timestamps.AddHours | src/courses/scrape.py:107 | Adding whole hours gives a valid date and time |
| Timestamps.NextDayNumber | src/courses/scrape.py:85 | The next date is one day number on, with the time of day unchanged |
| Timestamps.AddDaysNumber | src/courses/scrape.py:85-88 | `n` days on is `n` day numbers on, with the time of day unchanged |
| Timestamps.AddHoursShift | src/courses/scrape.py:107-109 | `h` hours on is the instant `h` hours later; minutes, seconds and microseconds are unchanged |
| Timestamps.FormatFields | src/courses/scrape.py:110 | The rendering has six fields, each all digits |
| Timestamps.Format | src/courses/scrape.py:110 | The rendering splits at its spaces into exactly its six fields |
| Timestamps.ParseFields | src/const.py:27 | `map(int, ...)` succeeds iff every piece is an integer; it gives the integers in order |
| Timestamps.MakeDateTime | src/const.py:27 | `datetime(*args)` succeeds iff it has 3 to 7 arguments, all in range. More than 9 is a TypeError. Otherwise an integer beyond a C `int` is an OverflowError. Then fewer than 3, or 9, is a TypeError. A date or time out of range is a ValueError, even with 8 arguments |
| Timestamps.MakeDateTimeHour | src/courses/scrape.py:84 | `datetime(y, m, d, h)` is that hour of that day when it exists, an OverflowError beyond a C `int`, and a ValueError otherwise |
| Timestamps.ParseTimestamp | src/const.py:27 | A parse that succeeds is a valid `datetime`; a piece that is not an integer is a ValueError |
| Timestamps.ParseIsValid | src/const.py:27 | A successful parse is a valid `datetime` from 3 to 7 fields; fewer than 3 fields fail |
| Timestamps.FormatFieldsParse | src/const.py:27 | Every rendered field reads back as its number |
| Timestamps.ParseFormat | src/const.py:27 | Parsing the rendering of a time without microseconds gives the time back |
| Timestamps.LoadTimes | src/const.py:25-30 | ENROLLMENT_TIMES loads iff every end parses; it keeps the quarters and windows, and each end is its parse |
| Timestamps.LoadWindows | src/const.py:26-28 | The inner comprehension keeps the window names; each end is the parser's result |
| Timestamps.SaveTimes | src/courses/scrape.py:111 | Rendering the calendar keeps its quarters and windows |
| Timestamps.LoadSave | src/const.py:25-30 | Loading a saved calendar of valid times without microseconds gives the calendar back |
| Timestamps.SavedWindow | src/courses/scrape.py:111 | Each saved window holds the two rendered ends, which parse back to the window |
| Embed.BuildIndex | src/courses/embed.py:10-15 | Position `i` of the index encodes the description of `COURSES[i]`, one per course |
| Embed.PyIndex | src/courses/embed.py:23 | Python indexing: defined iff `-n <= i < n`; a negative position counts from the end |
| Embed.Resolve | src/courses/embed.py:23 | `[COURSES[i] for i in I[0]]` succeeds iff every position is in range; entry `j` is `COURSES[I[0][j]]` |
| Embed.Query | src/courses/embed.py:17-24 | The ranking with `k = len(COURSES)` succeeds iff its positions are in range; it has one entry per position |
| Embed.QueryCoversCatalog | src/courses/embed.py:22-23 | With no top-k cutoff, the answer has exactly as many entries as the catalog |
| Embed.QueryMatchesIndex | src/courses/embed.py:10-23 | Entry `j` is the course whose description sits at the index position the ranker returned |
| Embed.QueryPermutes | src/courses/embed.py:22-23 | If the ranker returns every position once, the answer is a permutation of the catalog |
| Search.StartList | src/functions/search.py:10 | The starting list is the catalog without keywords, and the ranked catalog with them |
| Search.CleanCodes | src/functions/search.py:12 | One code per comma-separated piece, stripped and upper-cased |
| Search.CleanCodesOfList | src/functions/search.py:12 | Comma-free codes joined by commas read back as exactly those codes, cleaned |
| Search.Search | src/functions/search.py:4-16 | A bad ranking position is an error. An unknown division is a KeyError only when the division comprehension has an element to test; over an empty list the result is empty |
| Search.ByNumbers | src/functions/search.py:11-13 | Every copy of each course whose code is in the cleaned list, and no other, as a subsequence; without a list, every course |
| Search.ByDivision | src/functions/search.py:14 | Every copy of each course the division's pattern matches, and no other, as a subsequence |
| Search.ByDepartment | src/functions/search.py:15-16 | Every copy of each course whose code starts with the cleaned department, and no other, as a subsequence |
| Search.SearchStages | src/functions/search.py:10-16 | With a known division, the result is the three stages applied in the source's order |
| Search.SearchIsKept | src/functions/search.py:10-16 | A successful result is the starting list filtered by: division known and every stage passed |
| Search.UnknownDivisionReached | src/functions/search.py:14 | An unknown division over an empty list gives an empty result; over the sample catalog it is a KeyError |
| Search.NumbersStage | src/functions/search.py:11-13 | The code-list stage is a filter by exact membership in the cleaned list |
| Search.DepartmentStage | src/functions/search.py:15-16 | The department stage is a filter by the prefix `dept.strip().upper()` |
| Search.StagesAreOneFilter | src/functions/search.py:11-16 | The three stages together are one filter by their conjunction, so stage order does not matter |
| Search.SearchIsFilter | src/functions/search.py:10-16 | A successful search with a known division is the starting list filtered once by the three tests; with an unknown one, both the code-list stage and the result are empty |
| Search.SearchKeepsOrderAndCopies | src/functions/search.py:10-16 | The result is a subsequence of the starting list; a record that is kept (known division, every stage passed) keeps every copy; others are dropped |
| Search.SearchMembers | src/functions/search.py:10-16 | A course is in the result iff it is in the starting list, the division is known, and it passes every stage |
| Search.DivisionOnly | src/functions/search.py:10-14 | With only a division, the result is the catalog entries in that division, in catalog order |
| Search.EmptyStagesKeepAll | src/functions/search.py:11-16 | An empty code list or an empty department leaves its stage's list unchanged |
| Search.SearchIdempotent | src/functions/search.py:11-16 | Searching a result again with the same filters changes nothing |
| Search.DepartmentIsPrefix | src/functions/search.py:15-16 | The department is a prefix test: " cs " keeps "CSE 100" |
| Search.SelectedByCodeOnly | src/functions/search.py:11-13 | With no department and All Courses, a course is kept iff there is no code list or its code is in it |
| Search.NumbersOnly | src/functions/search.py:11-13 | A code list with All Courses gives the catalog filtered by the code list |
| Search.TwoCodes | src/functions/search.py:12 | Two comma-free pieces joined by a comma give their two cleaned codes |
| Search.SampleCodes | src/functions/search.py:12 | "CSE 100, MATH 20A" names the codes "CSE 100" and "MATH 20A" |
| Search.SampleLowerDivision | src/functions/search.py:14 | Lower Division over "CSE 8", "CSE 100", "MATH 20A" gives the first and third, in that order |
| Search.SampleByNumbers | src/functions/search.py:11-13 | The code list "CSE 100, MATH 20A" keeps exactly those two sample courses, in order |
| Search.SampleRankedUpper | src/functions/search.py:10-14 | In whatever order the ranker puts the samples, Upper Division with keywords gives only "CSE 100" |
| Listing.DeptScan | src/courses/scrape.py:23-25 | When the department loop breaks, it breaks at a space followed by a digit |
| Listing.DeptScanFinds | src/courses/scrape.py:23-25 | The loop breaks at the first space before a digit; with none, it fails on a final space or runs out |
| Listing.DeptBeforeNumber | src/courses/scrape.py:22-25 | The department is the text before the first space before a digit; IndexError iff there is none and the text ends in a space |
| Listing.ScanDept | src/courses/scrape.py:22-25 | The character loop computes the department and the final `i` of the specification |
| Listing.ScanCode | src/courses/scrape.py:30-32 | The loop reads up to the next space, drops every '.', and leaves `i` where the specification says |
| Listing.CodeScanStops | src/courses/scrape.py:30-32 | The code token is the text up to the first space, and `i` stops on that space |
| Listing.CodeScanRunsOut | src/courses/scrape.py:30-32 | Without a space the token is the whole rest, and `i` is its last position |
| Listing.ParenDeptInside | src/courses/scrape.py:26-27 | A department with '(' becomes the text between the first '(' and the next ')' |
| Listing.TitleWithoutUnits | src/courses/scrape.py:34-37 | Without '(' there are no units, and the title is the stripped remainder |
| Listing.TitleWithUnits | src/courses/scrape.py:38-40 | With a last group "(u)", the units are `u` and the title is the stripped text before it |
| Listing.TitleThenUnits | src/courses/scrape.py:34-40 | "Advanced Data Structures (4)" reads as title "Advanced Data Structures" with units "4" |
| Listing.CourseNameParts | src/courses/scrape.py:22-40 | "dept code rest" parses to the department, `dept + ' ' + code` without dots, and the title and units of the rest |
| Listing.EmptyFirstLine | src/courses/scrape.py:22-29 | An empty first line reaches `i += 1` with `i` unbound |
| Listing.EmptyLaterLine | src/courses/scrape.py:22-33 | An empty later line reuses the previous `i` and gives the code " " |
| Listing.ParseLine | src/courses/scrape.py:22-40 | The line parser computes the specified parse, error cases included |
| Listing.FinishLine | src/courses/scrape.py:26-40 | The code and title steps compute the specified parts once the department is read |
| Listing.PrereqsCases | src/courses/scrape.py:47-50 | Without "Prerequisite" the prerequisites are "None"; with only the singular form the split fails |
| Listing.PrereqsAfterHeading | src/courses/scrape.py:47-48 | With one "Prerequisites:", the prerequisites are the stripped text after it |
| Listing.FanOutCounts | src/courses/scrape.py:51-58 | Each sub-department gains the record once per occurrence in the '/'-split; other lists are unchanged |
| Listing.AppendAll | src/courses/scrape.py:51-58 | The append loop computes the specified fan-out |
| Listing.Scrape | src/courses/scrape.py:21-58 | The whole listing loop computes the specified dictionary of records, or the first error |
| Listing.RunOnlyAppends | src/courses/scrape.py:21-58 | The loop only appends: each list built so far is a prefix of the final one |
| Listing.NoDescriptionNoRecords | src/courses/scrape.py:41-44 | Lines without a description paragraph add no record |
| Listing.ParseName | src/courses/scrape.py:22-40 | Reading an unbound `i` (UnboundLocalError) happens iff the text is empty on the first line; a parsed code starts with the department and a space |
| Listing.Prereqs | src/courses/scrape.py:47-50 | "None" without "Prerequisite"; an IndexError iff only the singular occurs; otherwise stripped text |
| Listing.FanOut | src/courses/scrape.py:51-58 | Every list only grows; lists of sub-departments not named are unchanged; no list is ever empty |
| Listing.Step | src/courses/scrape.py:21-58 | One iteration fails on an unbound `i` iff the text is empty on the first line; it leaves `i` bound, only appends, and appends nothing without a description |
| Listing.Run | src/courses/scrape.py:21-58 | The remaining iterations only append, and create no empty list |
| Listing.Scraped | src/courses/scrape.py:11-58 | An empty first course name is an unbound `i`; every sub-department in the result has at least one record |
| Calendar.QuarterKeys | src/courses/scrape.py:67-72 | There are four quarter keys: fall, winter, spring, summer |
| Calendar.MonthDay | src/courses/scrape.py:83-84 | The cell splits at '/' into exactly two pieces that both read as integers, and then gives those two integers |
| Calendar.StartDate | src/courses/scrape.py:83-84 | Succeeds iff the month and day read from the cell give a valid date; it is then 8:00 on that day of the year 2000 + `year`; a number beyond a C `int` is an OverflowError; every other failure is a ValueError |
| Calendar.MonthDayOfCell | src/courses/scrape.py:83 | A cell of two decimal numbers around '/', zero-padded or not, reads as those two numbers |
| Calendar.StartDateOfCell | src/courses/scrape.py:83-84 | Such a cell gives `datetime(2000 + year, m, d, 8)`: 8:00 on that day when it exists, an OverflowError for "99999999999/1" |
| Calendar.SetWindowsSets | src/courses/scrape.py:85-88 | The assignments succeed iff no end passes the year 9999; each window gets its two sums and other entries are kept |
| Calendar.SetWindows | src/courses/scrape.py:85-88 | The only failure is an OverflowError; every entry already in the table stays |
| Calendar.EnrollmentRow | src/courses/scrape.py:75-88 | A quarter without '/' in its own cell keeps its table. Every other quarter gets the fp4-fp1 windows from the date in the fall cell (the line-83 defect, kept as written). Other keys are kept; the keys are unchanged on a table holding the four quarters; failures are ValueError or OverflowError |
| Calendar.WaitListRow | src/courses/scrape.py:89-102 | A quarter without '/' in its own cell keeps its table. Every other quarter gets the sp4-sp1 windows from the date in its own cell. Other keys are kept; failures are ValueError or OverflowError |
| Calendar.FirstYearRow | src/courses/scrape.py:103-109 | The fall quarter gets the fpt/fpf/spt/spf windows from the date in the fall cell. Every other key is kept. A bad date is that date's error; failures are ValueError or OverflowError |
| Calendar.QuartersAllReceived | src/courses/scrape.py:80-102 | With distinct quarter keys, each quarter ends with what its own step gave it, and every other key is kept |
| Calendar.QuarterKeysDistinct | src/courses/scrape.py:67-72 | The four quarter keys are distinct |
| Calendar.RowStep | src/courses/scrape.py:73-109 | The three label tests keep the four quarter keys; failures are ValueError or OverflowError |
| Calendar.Rows | src/courses/scrape.py:73-109 | The row loop keeps the four quarter keys; failures are ValueError or OverflowError |
| Calendar.CalendarTimes | src/courses/scrape.py:67-109 | The calendar has exactly the four quarter keys, and every instant is valid and without microseconds |
| Calendar.PriorityHours | src/courses/scrape.py:85-88 | fp4 spans hours 0-72 from the start, fp3 72-96, fp2 96-120, fp1 120-144; each starts where the previous ends |
| Calendar.FirstYearHours | src/courses/scrape.py:106-109 | fpt spans hours 0-24, fpf 24-112, spt 120-144 and spf 144-232 from the start |
| Calendar.FirstYearNamesDistinct | src/courses/scrape.py:106-109 | The four first-year windows have distinct names |
| Calendar.SetWindowsClean | src/courses/scrape.py:85-88 | Setting windows from a valid start keeps every instant valid and without microseconds |
| Calendar.RowsClean | src/courses/scrape.py:73-109 | Every row keeps the table valid and without microseconds |
| Calendar.CalendarClean | src/courses/scrape.py:73-111 | Every instant the scraper builds is valid and can be rendered |
| Calendar.FillWindows | src/courses/scrape.py:85-88 | The window assignments compute the specified table |
| Calendar.FillQuarter | src/courses/scrape.py:81-88 | One quarter: unchanged without '/' in its cell, else its windows from the parsed date, or the first error |
| Calendar.FillQuarters | src/courses/scrape.py:80-88 | The per-quarter loop computes the specified table, skipping cells without '/' |
| Calendar.ScrapeCalendar | src/courses/scrape.py:73-111 | The row loop and the rendering compute the specified saved calendar, or the first error |
| Audit.Collect | server.py:82 | A comprehension whose element may raise succeeds iff every element does, giving the results in order |
| Audit.CollectFirstError | server.py:85-88 | A failing comprehension fails with the error of its first raising element |
| Audit.FirstDigit | server.py:44-45 | The position of the first digit, or none iff the code has no digit |
| Audit.NormalizeCode | server.py:43-46 | The early-return scan computes the specified normalization |
| Audit.NormalizedShape | server.py:43-46 | None iff there is no digit; otherwise a stripped digit-free part, one space and the stripped rest, losing no non-space character |
| Audit.Normalized | server.py:43-46 | None iff the code has no digit; otherwise the same non-space characters, in order |
| Audit.NormalizedParts | server.py:46 | The two parts at the first digit are in normal form |
| Audit.NormalizedKeepsText | server.py:46 | Splitting at the first digit and stripping keeps every non-space character, in order |
| Audit.NormalizedOfNormalForm | server.py:43-46 | A code in normal form is its own normalization |
| Audit.NormalizeIdempotent | server.py:43-46 | Normalizing a normalized code changes nothing |
| Audit.NormalizedJoined | server.py:43-46 | A digit-free department written straight before its number gains one space |
| Audit.NormalizeExample | server.py:43-46 | "CSE100" normalizes to "CSE 100" |
| Audit.NormalizeNoNumber | server.py:43-46 | "ELECTIVE" normalizes to None |
| Audit.SubreqTitle | server.py:56-62 | A title is stripped and single-spaced, has the same words as the stripped text and keeps the non-space characters; a missing one becomes the fallback text |
| Audit.MissingTitleCollapsed | server.py:59-62 | The fallback title is already collapsed |
| Audit.SubreqTitleIdempotent | server.py:62 | Collapsing a collapsed title changes nothing |
| Audit.ProgressOf | server.py:63-79 | Complete without cells; a count cell gives courses or a ValueError; an hours cell alone gives units |
| Audit.NeededCourseForm | server.py:85-88 | A needed course is the stripped department and number around one space, splitting back into them |
| Audit.NeededCourse | server.py:85-88 | An AttributeError iff an attribute is missing; otherwise the non-space text of department then number |
| Audit.ExtractSubreq | server.py:56-89 | Succeeds iff the progress reads, every taken row has its cell and every tag both attributes; then the collapsed title, the progress, each taken course normalized and each tag's course, in order |
| Audit.TakenCourses | server.py:82 | The taken-course comprehension succeeds iff every row has its cell, giving their normalizations |
| Audit.ExtractCategory | server.py:51-91 | A missing `reqTitle` is an AttributeError; otherwise succeeds iff every sub-requirement does, with the stripped title and the sub-requirements in order |
| Audit.ExtractMajorCategories | server.py:48-92 | The nested loops compute the comprehension of the per-category extraction |
| Audit.ExtractSubreqs | server.py:55-90 | The inner loop computes the comprehension of the per-sub-requirement extraction, or its first error |
| Audit.ExtractedShape | server.py:48-92 | One category per div, in order; one collapsed-title entry per sub-requirement; one course per tag and row |
| Commands.PidShape | src/discord_bot/commands.py:196-197 | A PID is accepted iff, cleaned, it is 'A' and eight digits |
| Commands.CleanPidIdempotent | src/discord_bot/commands.py:196 | Cleaning twice is cleaning once, so the cleaned PID is accepted iff the raw one is |
| Commands.PidAcceptedExample | src/discord_bot/commands.py:196-197 | " a12345678" is accepted |
| Commands.PidTooShortExample | src/discord_bot/commands.py:197 | "A1234567" is rejected |
| Commands.PidLetterExample | src/discord_bot/commands.py:197 | "B12345678" is rejected |
| Commands.PidDigitsExample | src/discord_bot/commands.py:197 | "A1234567X" is rejected |
| Commands.Chunks | src/discord_bot/commands.py:78 | ⌈n/3⌉ chunks, each of 1 to 3 items; all but the last have 3 |
| Commands.ChunksConcat | src/discord_bot/commands.py:78 | The chunks, read in order, are the list |
| Commands.FieldValue | src/discord_bot/commands.py:88-92 | At most 1024 characters; a shorter description unchanged; a longer one's first 1021 characters and "..." |
| Commands.FieldValueIdempotent | src/discord_bot/commands.py:88-92 | Truncating twice is truncating once |
| Commands.ResultPages | src/discord_bot/commands.py:79-98 | One page per chunk |
| Commands.ResultPagesFields | src/discord_bot/commands.py:79-98 | Each page holds its chunk's fields; all fields in order are the courses' fields |
| Commands.SearchPages | src/discord_bot/commands.py:76-109 | No results iff the list is empty; otherwise ⌈n/3⌉ pages with the total in the title, the fields in order, 1 to 3 per page, values within the limit |
| Commands.SearchReplyOf | src/discord_bot/commands.py:76-109 | For the list `functions.search` returns: no results iff the list is empty; otherwise ⌈n/3⌉ pages |
| Commands.Status | src/discord_bot/commands.py:132-138 | The progress text is never empty and does not end in a newline |
| Commands.CodeListRoundTrip | src/discord_bot/commands.py:165-167 | The ", "-joined needed courses read back through `/search`'s code-list cleaning as those codes |
| Commands.NeededSummaryLists | src/discord_bot/commands.py:162-167 | Up to 20 codes are all listed; beyond 20, exactly the first 20 and " or more..." |
| Commands.CategoryOverviewPage | src/discord_bot/commands.py:151-177 | The loop builds the category page: one field per sub-requirement under the category's name |
| Commands.CategoryOverview | src/discord_bot/commands.py:151-177 | The page is titled with the category's name and has one field per sub-requirement, named by its title |
| Commands.MajorOverview | src/discord_bot/commands.py:126-149 | The page is titled with the major's title and has one field per category, named by its name |
| Commands.AccumulatedLast | src/discord_bot/commands.py:129-138 | Each sub-requirement adds its overview line and a newline |
| Commands.AccumulatedLines | src/discord_bot/commands.py:129-138 | The accumulated text is the lines joined by newlines, plus a final newline |
| Commands.RStripNewlines | src/discord_bot/commands.py:142 | The result does not end in a newline |
| Commands.OverviewLineEnd | src/discord_bot/commands.py:131-138 | An overview line is never empty and does not end in a newline |
| Commands.SummaryIsLines | src/discord_bot/commands.py:129-143 | A category's summary is exactly its lines joined by newlines |
| Commands.MajorOverviewPage | src/discord_bot/commands.py:126-149 | The nested loops build the major page: one summary field per category under the major's title |
| Commands.PagesOfOrder | src/discord_bot/commands.py:178-186 | For any page builders: overviews first, then the major's category pages, then the second major's |
| Commands.Me | src/discord_bot/commands.py:115-186 | Not registered iff there is no stored object or it is empty (`not data`); otherwise the pages in the `/me` order |
| Commands.MeWithoutMajors | src/discord_bot/commands.py:117-186 | `{}` is answered as not registered; an object with other keys but no majors gives no pages |
| Commands.MePageOrder | src/discord_bot/commands.py:178-186 | /me pages: major overview, second-major overview, the major's categories, then the second major's |
| Commands.Started | src/discord_bot/commands.py:17-19 | The user's deadline is now + 30 minutes, overwriting any earlier one; other entries unchanged |
| Commands.TickedTimers | src/discord_bot/commands.py:30-53 | A tick leaves a well-formed dict |
| Commands.TickOutcome | src/discord_bot/commands.py:30-53 | Verified users are dropped, not deleted; timed-out users are dropped and deleted once; others stay in place |
| Commands.StartThenTick | src/discord_bot/commands.py:18-53 | An unverified link survives every tick up to 30 minutes and is deleted by the first tick after |
| Commands.EmptyTimers | src/discord_bot/commands.py:26-29 | The order is empty iff the dict is; a tick on an empty dict changes nothing and deletes nobody |
| Commands.Remove | src/discord_bot/commands.py:43 | After `pop(u)` the key order lacks `u` and keeps every other key |
| Commands.RemoveAbsent | src/discord_bot/commands.py:53 | `pop(u, None)` of an absent key changes nothing |
| Commands.TickedUpToStep | src/discord_bot/commands.py:31-53 | A visit drops a verified user, drops and deletes a timed-out one, and keeps the rest |
| Commands.VerificationTimers.constructor | src/discord_bot/commands.py:15 | The dict starts empty |
| Commands.VerificationTimers.Start | src/discord_bot/commands.py:17-22 | The state becomes `Started`; the loop is started iff the dict then holds one entry |
| Commands.VerificationTimers.Link | src/discord_bot/commands.py:195-222 | Accepted iff the PID passes the check; a timer starts only for an accepted, stored link |
| Commands.VerificationTimers.Pop | src/discord_bot/commands.py:43 | The key is gone from the deadlines and the order; nothing else changes |
| Commands.VerificationTimers.Visit | src/discord_bot/commands.py:31-53 | One loop iteration extends the loop invariant to the next user |
| Commands.VerificationTimers.Tick | src/discord_bot/commands.py:24-53 | Stops iff the dict was empty; the new state is `TickedTimers` and the deleted users are `TimedOutUsers` |
| Text.Upper | src/functions/search.py:12 | `str.upper`: same length; each character upper-cased |
| Text.UpperIdempotent | src/functions/search.py:12 | Upper-casing twice is upper-casing once |
| Text.Strip | src/functions/search.py:12 | `str.strip`: the middle slice of the text, with white space on neither end |
| Text.StripIdempotent | src/functions/search.py:12 | Stripping twice is stripping once |
| Text.Find | src/courses/scrape.py:48 | The first occurrence of a text, or none iff it does not occur |
| Text.JoinSplit | src/functions/search.py:12 | Joining the pieces of a split with the separator gives the text back |
| Text.SplitJoin | src/functions/search.py:12 | Splitting separator-free pieces joined by the separator gives the pieces back |
| Text.CollapseSpacesShape | server.py:62 | `' '.join(s.split())` is stripped, single-spaced, has the same words as the stripped text, keeps the non-space text, and is idempotent |
| Text.Words | server.py:62 | `s.split()` gives non-empty pieces without white space |
| Text.Split | src/functions/search.py:12 | `s.split(sep)` gives at least one piece |
| Text.ParseInt | src/const.py:27 | Succeeds iff the stripped text is digits, or a sign and at least one digit; the value is the decimal value, negated after '-' |
| Text.ParseZeroPad | src/const.py:27 | `int()` of a zero-padded rendering gives the number back |
| Lists.FilterCounts | src/functions/search.py:13 | A filter keeps every copy of a selected element and none of the others |
| Lists.FilterMembers | src/functions/search.py:13 | An element is in a filter iff it is in the list and selected |
| Lists.FilterIsSubsequence | src/functions/search.py:13 | A filter is a subsequence of its list |
| Lists.FilterFilter | src/functions/search.py:13-16 | Two filters in a row are one filter by the conjunction |

## Left out

- HTTP fetching, BeautifulSoup traversal and JSON file reads and writes are not modelled. Elements arrive as their extracted text or attributes.
- The SentenceTransformer encoder and faiss search are not modelled. The ranker is a parameter that returns positions.
- The sqlite database (`get_json_data`, `check_user_verified`, `delete_user` and the SQL in `link`) is not modelled. Its answers are inputs: `verified`, `linked`, and the `Option` of stored audit data. `/me` treats a missing or unreadable row as `None`. A stored object is reduced to its two majors and the number of its other keys.
- Discord embeds are modelled only as titles and fields. Colours, the filter description text and the paginator are not modelled.
- The async `tasks.loop` cadence and `cancel()` are not modelled. A tick is one call. `tasks.Loop.start` on a loop that is already running is not modelled; `Start` only reports that the source calls it.
- Commands.VerificationTimers.Tick: uses one `now` for the whole tick, where the source reads the clock for each user. `verified` is a snapshot for the same tick.
- Instants are whole seconds for timers and whole hours for the calendar. Time zones and microsecond arithmetic are not modelled.
- Audit.ProgressOf: keeps the hours cell as stripped text and does not model `float()`, so a non-numeric hours cell does not raise ValueError here. The text `/me` shows differs too: src/discord_bot/commands.py:136 prints the `float` ("8.0"), while the model shows the cell's text ("8.00").
- Text.Upper: `str.upper`, `isdigit` and `isnumeric` are modelled for ASCII only. Non-ASCII letters and digits are outside the model. White space covers the ASCII set plus U+0085 and U+00A0; other Unicode white space is outside the model.
- The filter description of an empty `/search` reply tests `dept` instead of `numbers` and `keywords` (src/discord_bot/commands.py:105-106). The model leaves that text out, so the defect is not represented.
- Calendar.EnrollmentRow: modelled as written. Line 83 of src/courses/scrape.py reads the date from the fall cell for every quarter, while the '/' test at line 81 looks at each quarter's own cell.
- Commands.SearchReplyOf: takes the list that `functions.search` would return. As written, `async def search` at src/discord_bot/commands.py:63 rebinds the name imported at line 9, so line 74 calls the slash command itself. That call gives a coroutine rather than a list, and `len(courses)` at line 77 raises TypeError. The model follows the evident intent, so the paging of lines 76-109 is reachable here but not in the source as written.
- Text.ParseInt: reads ASCII decimal digits only. `int()` also accepts underscores between digits (`int("1_0") == 10`) and non-ASCII decimal digits. The model answers None (ValueError) for both, so a calendar cell such as "1_0/5" fails here but gives 10 May in the source.
- src/functions/search.py ends at the department filter without `return courses`. The model returns the final value of `courses`.
- `process_audit`'s header parsing (PID and unit totals), its section titles, the Flask route and the unbound `processed_audit` at server.py:130 are not part of this model.
- `unlink`, `scrape_all` and `embed`'s writing of the index file are not part of this model. `embed` is modelled only for the order of the vectors it encodes.
