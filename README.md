# Property deals scraper and account codes, modelled in Dafny

This project models the core of a scraper for the Saudi Ministry of Justice
real-estate transactions portal, together with the one-time codes of its
user accounts.

The scraper is the class `PropertyDealsScraper` in `Scraper.py`. One `scrape`
call does the following:
- starts a Playwright browser session (playwright, browser, context, page);
- opens the portal;
- types a search window into a date form: the three parts of the date two
  days ago, the year of today, a city, then the month and day of today;
- clicks the search button;
- reads the result table row by row into two index-aligned lists, the plain
  records and the same records with a price category;
- releases the session in its `finally` block, whatever happened.

The `User` model in `models.py` issues six-digit codes for e-mail
verification and for password reset. Each code is valid for thirty minutes
and is accepted once.

The browser, the clock and the random number generator are not modelled as
such. They are inputs:
- which acquisition raises, and which release raises;
- which date input is missing, whether navigation and the search click work;
- what the result rows hold, and what each search selector's visibility probe
  says;
- `datetime.now()` / `datetime.utcnow()`, as a `Date` or as an `Instant`
  (microseconds);
- the six digit picks of `random.choices`.

Files:
- `wrappers.dfy`: `Option` and `Result`.
- `numerals.dfy`: ASCII digits, `str(n)` and its reading back.
- `coercion.dfy`: `extract_number`, `str.strip` and `determine_property_category`.
- `extraction.dfy`: the row loop and its two lists.
- `calendar.dfy`: Gregorian dates, day numbers and the two-day window.
- `quarter.dfy`: `_get_quarter`, with `strptime('%d/%m/%Y')`.
- `dateform.dfy`: the fill plan, its keystrokes and what the form holds
  afterwards.
- `search.dfy`: `click_search` and its selector fallback.
- `session.dfy`: the scraper class, covering `init_browser`, `cleanup`,
  `fill_date_fields` and `scrape`.
- `onetimecode.dfy`: the `User` class and its two code slots.

Behaviour of the code worth noting, which the model keeps:
- **Teardown.** `cleanup` makes its four release calls inside a single `try`.
  A release that raises therefore skips the releases after it (`Attempts`).
- **Search button.** `scrape` does not use `click_search`. It clicks
  `button:has-text("بحث")` directly, and a missing button raises and fails
  the scrape (`SearchButtonError`). The non-fatal selector fallback exists
  only in `click_search`, which is modelled on its own.
- **Failed start.** When `init_browser` fails, its `except` branch closes the
  browser and stops playwright. The `finally` of `scrape` then runs `cleanup`,
  which closes them again, because the fields keep their handles. The context
  is not closed by the rollback (`LaunchFailureExample`).
- **Year labels.** `str(year)[2:]` is taken literally. A four-digit year field
  below 1000, such as `0999`, gives a one-character year part (`Q93`).

## Model

| member | source | states |
|---|---|---|
| Numerals.Numeral | Scraper.py:92 | `str(n)` is a non-empty run of ASCII digits with no leading zero except for 0 itself |
| Numerals.NumeralValue | Scraper.py:92 | reading back the numeral typed for n gives n |
| Numerals.ValueNumeral | Scraper.py:92 | every digit string without leading zeros is the numeral of its own value, so numerals and their values correspond one to one |
| Numerals.NumeralLengthFour | Scraper.py:291 | years 1000 to 9999 are written with exactly four characters, the width `%Y` demands |
| Numerals.DigitsValue | Scraper.py:158 | the decimal reading that `float` gives a digit string is 0 exactly when every digit is '0' |
| Numerals.LeadingZero | Scraper.py:158 | a leading '0' does not change the value read |
| Coercion.KeepDigits | Scraper.py:158 | the digit filter keeps only digits, each taken from the input, and never lengthens the text |
| Coercion.ExtractNumber | Scraper.py:155-161 | the result is absent exactly when the text holds no digit, which is where `float('')` raises and the error is caught |
| Coercion.NoDigitsKept | Scraper.py:158 | the filter gives the empty string if and only if no character is a digit |
| Coercion.KeepDigitsAppend | Scraper.py:158 | filtering a concatenation filters each part, keeping their order |
| Coercion.KeepDigitsOfDigits | Scraper.py:158 | a string of digits passes the filter unchanged |
| Coercion.DroppedSeparator | Scraper.py:155-161 | any non-digit inserted between two runs of digits leaves the extracted number unchanged |
| Coercion.ExtractNumeral | Scraper.py:155-161 | extracting from `str(n)` gives n back |
| Coercion.ExtractNumberPlain | Scraper.py:155-161 | "1234" gives 1234 |
| Coercion.ThousandsSeparatorExample | Scraper.py:155-161 | "1,234" gives 1234 |
| Coercion.DecimalPointExample | Scraper.py:155-161 | "12.34" also gives 1234: the decimal point is dropped, not honoured |
| Coercion.LeadingSpaces | Scraper.py:214 | counts exactly the white space before the first other character |
| Coercion.TrailingSpaces | Scraper.py:214 | counts exactly the white space after the last other character |
| Coercion.Strip | Scraper.py:214 | the result is the contiguous middle of the cell text, starting after the leading white space, with only white space cut from the end, and neither end is white space |
| Coercion.StripIdempotent | Scraper.py:214 | stripping a stripped text changes nothing |
| Coercion.DetermineCategory | Scraper.py:163-174 | a category is given exactly when a price per metre is present; with `None` the comparison raises and the error is caught |
| Coercion.CategoryBands | Scraper.py:163-174 | Low if and only if p < 1000, Medium if and only if 1000 <= p < 2000, High if and only if p >= 2000; an absent price gives an absent category |
| Coercion.CategoryMonotonic | Scraper.py:166-171 | a higher price per metre never gets a lower category |
| Extraction.RecordOf | Scraper.py:213-219 | the district and the date of a record have no white space at either end, and each number is absent exactly when its cell (2, 3 or 4) holds no digit |
| Extraction.PlainRecords | Scraper.py:207-233 | there are no records exactly when no row is usable (short or raising rows only) |
| Extraction.CategorizedRecords | Scraper.py:224-229 | one categorized record per plain record, index-aligned, each being the plain record plus its category |
| Extraction.WithCategory | Scraper.py:225-228 | the copy keeps the record unchanged and adds a category, absent exactly when the price per metre is |
| Extraction.ExtractRows | Scraper.py:201-236 | the loop builds exactly the plain records of the usable rows in row order, and a second list of the same length whose i-th entry is the i-th plain record with its category |
| Extraction.PlainRecordsAppend | Scraper.py:207-233 | records follow row order: extracting two runs of rows is extracting each and concatenating |
| Extraction.SingleRow | Scraper.py:210-233 | a single row yields its record when it has at least six cells and nothing otherwise |
| Extraction.SkippedRow | Scraper.py:212 | a short row, or one whose reading raised, is dropped without changing the records of the rows around it |
| Extraction.PlainRecordsCount | Scraper.py:212-222 | there are exactly as many records as usable rows |
| Extraction.PlainRecordsFromRows | Scraper.py:212-222 | every record comes from some usable row |
| Extraction.RecordIgnoresFirstCell | Scraper.py:213-219 | cell 0 plays no part in the record |
| Calendar.DaysInMonth | Scraper.py:74 | every month has 28 to 31 days |
| Calendar.PrevDay | Scraper.py:74 | the day before is a valid date, and it is absent only before 0001-01-01 |
| Calendar.MinusDays | Scraper.py:74 | subtracting days gives a valid date whenever it gives one |
| Calendar.PrevDayOrdinal | Scraper.py:74 | the day before has a day number exactly one smaller |
| Calendar.OrdinalInjective | Scraper.py:74 | distinct valid dates have distinct day numbers |
| Calendar.OrdinalOfFirstDay | Scraper.py:74 | day numbers start at 1, and only 0001-01-01 has number 1 |
| Calendar.MinusDaysDefined | Scraper.py:74 | subtracting n days stays in the calendar if and only if the day number is above n |
| Calendar.MinusDaysShift | Scraper.py:74 | subtracting n days lowers the day number by exactly n |
| Calendar.WindowOf | Scraper.py:73-80 | a window ends today and starts at a valid date; there is none exactly on 0001-01-01 and 0001-01-02, where subtracting two days leaves the calendar |
| Calendar.WindowExact | Scraper.py:73-80 | the window exists exactly when today's day number exceeds 2; it ends today, and it starts at the one date whose day number is two less |
| Calendar.WindowExamples | Scraper.py:73-80 | 2024-06-15 gives 2024-06-13 to 2024-06-15; the window crosses leap and non-leap month ends and year ends; 0001-01-02 has no window |
| Quarter.ParseDate | Scraper.py:291 | whatever parses is a valid calendar date |
| Quarter.QuarterOf | Scraper.py:293 | the quarter is 1 to 4, and month m lies in months 3q-2 to 3q |
| Quarter.DropTwo | Scraper.py:292 | `s[2:]` is the characters of s from index 2 on, and empty for a string shorter than two |
| Quarter.QuarterLabel | Scraper.py:292-294 | the label starts with "Q" and ends with the quarter digit of the month; from year 1000 on it is "Q", the year's last two digits zero-padded, and that digit |
| Quarter.GetQuarter | Scraper.py:288-297 | a label exists exactly when the string parses; it starts with "Q" and ends with the quarter digit of the parsed month |
| Quarter.YearSuffix | Scraper.py:292 | `str(year)[2:]` of a four-digit year is its last two digits, zero-padded |
| Quarter.FourDigitTail | Scraper.py:291-292 | the last two digits of a four-digit field are the two-digit form of its value modulo 100 |
| Quarter.ParsedYearField | Scraper.py:291 | the year of a string that parses is the value of its last four characters, which are ASCII digits |
| Quarter.LabelOfParsed | Scraper.py:288-297 | for every string that parses with a year from 1000 on, however its day and month are written, the label is "Q", the string's last two characters and the quarter digit of the parsed month |
| Quarter.TwoDigits | Scraper.py:291 | a zero-padded two-digit field reads back as its number |
| Quarter.ParseFields | Scraper.py:291 | three slash-free fields parse exactly when each matches its directive and the date they name exists, and then to that date |
| Quarter.ParseFormatted | Scraper.py:291 | every date from year 1000 on, written `dd/mm/yyyy`, parses back to itself |
| Quarter.QuarterOfFormatted | Scraper.py:288-297 | for such a date the label is "Q", then characters 8 and 9 of the string (the last two year digits), then the quarter digit |
| Quarter.ParseExample | Scraper.py:291 | "15/08/2022" parses to 2022-08-15 |
| Quarter.LabelExample | Scraper.py:292-294 | 2022-08-15 is labelled "Q223" |
| Quarter.QuarterExample | Scraper.py:288-297 | "15/08/2022" gives "Q223" |
| Quarter.ImpossibleDateExample | Scraper.py:288-297 | "31/02/<anything>" gives no label |
| Quarter.WrongFormatExample | Scraper.py:288-297 | "2022-08-15" gives no label |
| SearchTrigger.FirstVisible | Scraper.py:260-264 | the result is the first selector whose control was located and visible, or absent exactly when there is none |
| SearchTrigger.LastLocated | Scraper.py:260-266 | the result is the last selector whose lookup did not raise, or absent exactly when every lookup raised |
| SearchTrigger.Chosen | Scraper.py:260-266 | the control kept after the loop was located; it is absent exactly when every lookup raised, and it is the first visible control when there is one |
| SearchTrigger.ClickSearch | Scraper.py:245-286 | over the three selectors: the kept control is clicked if and only if there is one, the second visibility check says visible and the click does not raise; "not found" exactly when no control was kept or the second check says hidden; the error warning exactly when the second check or the click raises; no outcome is an exception |
| SearchTrigger.FallbackExample | Scraper.py:253-266 | with the first selector hidden and the second visible, the second is clicked |
| SearchTrigger.NoneVisibleExample | Scraper.py:276-278 | with no visible selector the search is skipped with a warning |
| SearchTrigger.VanishedExample | Scraper.py:268-278 | a control visible in the loop but hidden at the second check gives the "not found" warning; one whose second check raises gives the error warning |
| SearchTrigger.NoLocatorExample | Scraper.py:260-278 | when every lookup raises, the "not found" warning is given |
| DateForm.FillPlan | Scraper.py:85-144 | the fill has seven blocks, the fifth is the city, and every number typed is at least 1 |
| DateForm.StepActions | Scraper.py:87-126 | a sub-field block is four actions that click its own input first and type its numeral last; the city block is three actions with no click; no block clicks the search button |
| DateForm.StopIndex | Scraper.py:81-153 | the fill stops at the first block whose input cannot be found, or runs through |
| DateForm.FillOrder | Scraper.py:85-144 | the inputs are filled from-year, from-month, from-day, to-year, then the city, then to-month, to-day |
| DateForm.TypedNumeral | Scraper.py:92 | the text typed into a sub-field has no leading zero and reads back as its number |
| DateForm.StopAtToYear | Scraper.py:85-121 | with only the to-year input missing, the fill stops at block 3 after the three from-date blocks |
| DateForm.FillFieldEffect | Scraper.py:87-92 | click, select all, delete and type leave exactly the numeral in that input, whatever it held, and change no other input |
| DateForm.ChooseCityEffect | Scraper.py:123-126 | the city block leaves every date input unchanged |
| DateForm.RunScriptValues | Scraper.py:85-144 | the date inputs after the keystrokes of a run of blocks are those computed block by block |
| DateForm.FormHoldsWindow | Scraper.py:70-153 | after a complete fill the six inputs hold the year, month and day of the window's start and end, given the key handling `Apply` assumes of the page |
| Session.Stage | Scraper.py:28-46 | all four acquisitions succeed exactly when none raises |
| Session.AcquireIndex | Scraper.py:31-46 | each resource's index is its place in the acquisition order playwright, browser, context, page |
| Session.Attempts | Scraper.py:58-68 | in a run of guarded calls inside one `try`, the first planned release is always made, whatever fails |
| Session.CleanupPlan | Scraper.py:59-66 | `cleanup` plans at most the four releases, and none exactly when no field is set |
| Session.RollbackPlan | Scraper.py:50-53 | the `except` branch of `init_browser` never closes the context or the page, and makes at most two calls |
| Session.AttemptsPrefix | Scraper.py:58-68 | the releases made are a prefix of the plan; all but the last succeeded; the run stops early only at a release that raised |
| Session.AttemptsAll | Scraper.py:58-68 | when no release raises, every planned release is made |
| Session.AttemptsStopAtFailure | Scraper.py:58-68 | the first release that raises is the last one made |
| Session.CleanupPlanHeld | Scraper.py:59-66 | `cleanup` plans a release for a resource if and only if its field is set |
| Session.CleanupPlanDescending | Scraper.py:56-68 | `cleanup` releases in the reverse of the acquisition order, each resource at most once |
| Session.FullCleanupPlan | Scraper.py:59-66 | with all four fields set, `cleanup` plans page, context, browser, playwright |
| Session.CleanupReleasesAll | Scraper.py:56-68 | when no set resource fails to close, `cleanup` releases every set resource |
| Session.FirstError | Scraper.py:176-243 | there is no error exactly when the scrape succeeds, and a failed start is always reported as a browser start error |
| Session.PageScript | Scraper.py:176-236 | the page sees the whole fill and the search click on success, the whole fill alone when the search button is missing, and nothing when the start, the navigation or the date window fails |
| Session.PropertyDealsScraper.constructor | Scraper.py:10-18 | a new scraper holds no handle and has released nothing |
| Session.PropertyDealsScraper.InitBrowser | Scraper.py:28-54 | it succeeds exactly when no acquisition raises; the resources before the failing one are acquired; on failure the browser then playwright are released, a raising close skipping the stop; which rollback call raises is decided apart from `cleanup`'s calls |
| Session.PropertyDealsScraper.Cleanup | Scraper.py:56-68 | runs once more each call, and appends to the release log exactly the planned releases up to and including the first that raises |
| Session.PropertyDealsScraper.Release | Scraper.py:59-66 | a release is made only when its field is set and raises exactly when it fails; the releases after a raising one are skipped |
| Session.PropertyDealsScraper.FillBlock | Scraper.py:85-144 | a block whose input is missing raises with that field and sends nothing; otherwise it sends its keystrokes after those of the blocks before it |
| Session.PropertyDealsScraper.RunStep | Scraper.py:85-144 | a block sends exactly its keystrokes |
| Session.PropertyDealsScraper.FillInput | Scraper.py:87-92 | a sub-field block sends click, select all, delete, then the numeral |
| Session.PropertyDealsScraper.SelectCity | Scraper.py:123-126 | the city block sends Tab, the city name, Enter |
| Session.PropertyDealsScraper.FillDateFields | Scraper.py:70-153 | a date out of range fails before any keystroke; otherwise the blocks before the first missing input are sent and the error names that input; the fill completes exactly when no input is missing, and then the whole script is sent |
| Session.PropertyDealsScraper.FillBlocks | Scraper.py:81-153 | the seven blocks run in order and the first that raises ends the fill |
| Session.PropertyDealsScraper.FillFromDate | Scraper.py:85-110 | the three from-date blocks run in order, stopping at the first missing input |
| Session.PropertyDealsScraper.FillToDate | Scraper.py:113-144 | the to-year, city, to-month and to-day blocks run in order, stopping at the first missing input |
| Session.PropertyDealsScraper.SearchAndExtract | Scraper.py:178-236 | the error is the first failing step; on success the records are those of the rows and the page saw the whole fill and the search click; a failed start or navigation sends nothing; on every path the page log grows by exactly `PageScript`, so a failed fill leaves the blocks before the missing input |
| Session.PropertyDealsScraper.Scrape | Scraper.py:176-243 | `cleanup` runs exactly once on every path; the scrape succeeds exactly when every step does, otherwise it re-raises the first error; on success it returns the two aligned lists and releases page, context, browser, playwright in that order; the release log is the rollback's releases followed by `cleanup`'s; on every path the page log grows by exactly `PageScript` |
| Session.ToYearMissing | Scraper.py:115-153 | with the session up, a missing to-year input is the error the scrape reports |
| Session.FillFailureExample | Scraper.py:176-243 | a fill that fails after the three from-date sub-fields fails the scrape with the to-year field, leaves on the page the keystrokes of the three from-date blocks and nothing after them, runs `cleanup` once and releases all four resources, page first |
| Session.LaunchFailureExample | Scraper.py:28-68 | a browser that cannot launch fails the scrape with a start error, and playwright is stopped twice, by the rollback and by `cleanup` |
| Session.RollbackFailureExample | Scraper.py:28-68 | when the context cannot be opened and the rollback's browser close raises, playwright is not stopped by the rollback; `cleanup` closes the browser again and then stops playwright |
| OneTimeCode.Accepts | models.py:63-74 | an accepted code is not empty, and the slot has an expiry that `now` is not after |
| OneTimeCode.CodeOf | models.py:58 | the code has one ASCII digit per pick, each worth its pick |
| OneTimeCode.IssuedAccepts | models.py:55-74 | a freshly issued code is accepted if and only if the same code is submitted no later than thirty minutes after issue, the expiry instant itself included |
| OneTimeCode.EmptyRejects | models.py:63-74 | a cleared slot accepts no code |
| OneTimeCode.EmptyCodeRejects | models.py:64-65 | a stored empty string counts as no code |
| OneTimeCode.User.constructor | models.py:43-46 | a new user has neither code |
| OneTimeCode.User.GenerateVerificationCode | models.py:55-61 | stores and returns a six-digit code made of the picks, expiring thirty minutes after now; the reset slot is untouched |
| OneTimeCode.User.VerifyCode | models.py:63-74 | accepted if and only if a code is stored, now is not after its expiry and the codes are equal; acceptance clears both fields; rejection changes nothing |
| OneTimeCode.User.GenerateResetCode | models.py:76-83 | the same for the reset slot; the verification slot is untouched |
| OneTimeCode.User.VerifyResetCode | models.py:85-96 | the same acceptance rule on the reset slot; the verification slot is untouched |
| OneTimeCode.SingleUseScenario | models.py:55-74 | a valid code is accepted once and rejected the second time |
| OneTimeCode.ExpiryScenario | models.py:63-74 | a code is accepted at its expiry instant and rejected one microsecond later, and the rejected code stays stored |
| OneTimeCode.WrongCodeScenario | models.py:63-74 | a wrong code is rejected and leaves the right one usable |
| OneTimeCode.IndependentSlotsScenario | models.py:55-96 | the verification code is not accepted as a reset code; using the reset code leaves the verification code usable |

## Left out

- Playwright itself: element lookup, XPath evaluation, network waits, timeouts, `time.sleep` pacing and the typing delay. Each call is reduced to its outcome.
- Logging and `print`: they have no effect on results.
- `main`, the JSON files and the `input()` pause: these are file and console I/O outside the core.
- `app.py`, `email_utils.py`, the migrations and `Property.to_dict` are not part of this model.
- `User.set_password` and `check_password` (password hashing) are not part of this model.
- `db.session.commit()`: persistence is not modelled. The in-memory fields are the model.
- The `User` columns other than the four code fields are not part of this model.
- The XPath strings of the date inputs: an input is named by the `Field` it holds.
- DateForm.Apply: how the page reacts to each key is an assumption of the model, not behaviour of the scraper: a click focuses that input, Control+a then Delete empties it, typing replaces a selection or appends, and Tab moves focus to the city box. `DateForm.FormHoldsWindow` rests on this assumption.
- Coercion.ExtractNumber: returns a natural number rather than a float. Float rounding of very long digit strings is not modelled.
- Coercion.KeepDigits: keeps ASCII digits only. `str.isdigit` also accepts other Unicode digits (Arabic-Indic digits, superscripts), and `float` would reject some of those.
- Calendar.WindowOf: works on the calendar date only. The time of day and the time zone of `datetime.now()` are not modelled.
- Quarter.ParseDate: reads `\d` in `%Y` and in the second character of `%d` as an ASCII digit only. Python's `_strptime` compiles these patterns without `re.ASCII`, so it also accepts other Unicode decimal digits there (`"15/08/٢٠٢٢"` parses as 2022-08-15 and gives "Q223"); the model rejects such strings and gives no label.
- Quarter.ParseDate: does not model the `strptime` locale, case rules or white-space rules beyond the three directives.
- OneTimeCode.User.GenerateVerificationCode: the random generator is a parameter (six picks below ten), so uniformity is not stated.
- OneTimeCode.User.GenerateResetCode: the random generator is a parameter (six picks below ten), so uniformity is not stated.
- Overflow of `datetime` arithmetic (`utcnow() + 30 minutes` past year 9999) is not modelled.
- Session.PropertyDealsScraper.FillBlocks: runs the seven blocks in two groups (`FillFromDate`, `FillToDate`) over the plan as a value. The source writes the seven blocks out inline.
- Session.PropertyDealsScraper.InitBrowser: reports failure as a `false` result instead of raising; `Scrape` turns it into `BrowserInitError`.
- Session.PropertyDealsScraper.Scrape: treats a failing `goto` and a failing `wait_for_load_state` as one navigation failure.
