# Hut reservation bot: a Dafny model of its decision logic

`book.py` books a place in a Swiss Alpine Club hut by driving the
reservation site's wizard in a browser. It loads and validates a YAML
booking configuration, then runs booking attempts. In each attempt it
logs in, picks the hut among the search results, steps the month picker
to the stay dates, picks the people input for the room type, and passes
the availability gate (taking the site's alternative dates only when
allowed). It then fills the overnight and personal-data steps, picks the
country, and either stops before the final submission (dry run) or
submits. With `--poll` it repeats attempts that found no availability,
pausing an interval plus a random jitter between them, up to an optional
attempt limit.

The model keeps every decision in the modelled core and replaces the browser
by what the script reads from it: option texts, aria-labels, enabled and
disabled flags, and the month the picker shows.

| module | file | what it models |
|---|---|---|
| `Results` | `results.dfy` | `Option` and `Result` |
| `Text` | `text.dfy` | Python's `str.strip`, `str.lower`, `in`, `split()`, `isdigit` and zero-padded decimals |
| `Yaml` | `yaml.dfy` | the values `yaml.safe_load` produces, Python truthiness, `int()` on them |
| `Dates` | `dates.dfy` | `strptime("%Y-%m-%d")`, `date` validity and order, `format_date_for_ui` |
| `Config` | `config.dfy` | the `require_*` / `optional_*` validators, `parse_date`, `load_config` |
| `Calendar` | `calendar.dfy` | `parse_calendar_period`, and `ensure_calendar_month` as a loop over a `DatePicker` object |
| `Selection` | `selection.dfy` | `choose_hut_option`, `choose_people_input` (a loop with early return), `fill_personal_value` over a `PersonalForm` object, `select_country` |
| `Attempt` | `attempt.dfy` | `snap`, the availability gate, the dry-run stop and the summary check of `run_attempt` |
| `Polling` | `polling.dfy` | `main`'s schedule checks and the polling loop as a `Poller` object |

Two behaviours of the code are easy to miss:

- The pause between attempts is `interval + randint(0, jitter)`, and
  `randint` includes both ends, so a pause can last exactly
  `interval + jitter` seconds.
- `ensure_calendar_month` compares before each of its 24 clicks and not
  after the last one, so a target exactly 24 months away is reached by the
  24th click and the function still raises.

## Model

| member | source | states |
|---|---|---|
| `Yaml.Truncate` | book.py:72 | `int()` of a float drops the fractional part toward zero, for negative floats too |
| `Yaml.IntOf` | book.py:71-74 | `int()` of a YAML value: integers as they are, booleans as 0 and 1, and null, lists, mappings and dates refused |
| `Yaml.ParseIntPadded` | book.py:72 | a string of decimal digits with an optional sign and blanks around it converts to its signed value |
| `Config.RequireStr` | book.py:62-65 | succeeds exactly for a present, non-blank string and returns it trimmed, non-empty, with no edge whitespace |
| `Config.RequireInt` | book.py:68-77 | succeeds exactly for a present value that `int()` converts to at least 1, returning that number; a missing key, an unconvertible value and a value below 1 are each reported with their own error |
| `Config.RequireBool` | book.py:80-83 | succeeds exactly for a present boolean, returned unchanged |
| `Config.OptionalBool` | book.py:86-91 | a missing key gives the default; a present non-boolean, null included, is an error |
| `Config.OptionalInt` | book.py:94-103 | missing or null gives the default; otherwise the converted value if `int()` accepts it and it is not negative |
| `Config.OptionalStr` | book.py:106-112 | missing or null gives `None`; a non-string is an error; a string is trimmed and a blank one becomes `None` |
| `Config.RequireDict` | book.py:115-118 | succeeds exactly for a present mapping, returned unchanged |
| `Config.ParseDate` | book.py:121-125 | succeeds exactly when the text is a valid `YYYY-MM-DD` date; the error names the key |
| `Config.LoadHeader` | book.py:137-149 | succeeds iff the provider is `default`/`sac` in any case, hut and dates are non-blank, the party is at least 1 and check-out is strictly after check-in; returns the lower-cased provider, the trimmed texts and the party size `int()` gives |
| `Config.LoadContact` | book.py:151-161 | succeeds iff `contact` is a mapping with the eight non-blank strings; each field is the trimmed entry of the same name |
| `Config.LoadPreferences` | book.py:163-169 | a missing or falsy `preferences` counts as empty; a truthy non-mapping is an error; `room_type` and `remarks` are passed through, or `None` when absent |
| `Config.LoadStay` | book.py:174-183 | succeeds iff every count is absent, null, or a value `int()` converts to a number at least 0 (such as `3`, `"3"`, `2.5` or `true`), and every text is absent, null or a string; each count is 0 when absent or null and its `int()` otherwise; each of the four texts is `None` when absent, null or blank and the trimmed entry otherwise |
| `Config.LoadConfig` | book.py:128-201 | succeeds iff the document is a mapping and every stage succeeds and `accept_terms` is present and exactly `true` |
| `Config.LoadConfigSucceedsIff` | book.py:137-188 | `load_config` accepts exactly the documents meeting all its conditions, stated independently of the order it checks them in |
| `Config.LoadConfigAccepted` | book.py:190-201 | an accepted configuration has the trimmed, lower-cased provider entry, which is `default` or `sac`, the trimmed hut and dates, check-in before check-out, the party size `int()` gives (at least 1), the trimmed contact fields, both preference entries, `half_board` as given, `allow_alternative_dates` as given or `false` when absent, every stay field as `optional_int`/`optional_str` give it, and terms accepted with `true` |
| `Config.UnknownProviderReportedFirst` | book.py:137-139 | an unknown login provider is the error reported, whatever else is wrong |
| `Config.TermsMustBeLiteralTrue` | book.py:185-188 | any `accept_terms` other than the boolean `true` (1, "yes", missing) is refused |
| `Dates.DaysInMonth` | book.py:123 | month lengths are 28 to 31 days, February has 29 exactly in leap years |
| `Dates.BeforeIsStrictOrder` | book.py:148 | the date comparison used for check-in and check-out is a strict total order |
| `Dates.ParseIsoDate` | book.py:121-125 | a parsed date is valid and formats back to exactly the text it came from |
| `Dates.ParseFormatIso` | book.py:249 | every valid date formatted as `YYYY-MM-DD` parses back to itself |
| `Dates.FormatDateForUi` | book.py:248-250 | succeeds iff the input is a valid ISO date; the output is its day, month and year digits as `DD.MM.YYYY` and reads back as the same date |
| `Dates.FormatDateForUiExample` | book.py:248-250 | `2026-02-01` becomes `01.02.2026` |
| `Calendar.ParseCalendarPeriod` | book.py:253-296 | a refused label raises with the label itself; numeric labels give months 0 to 99 unchecked; month-name labels give months 1 to 12 |
| `Calendar.MonthNumber` | book.py:267-292 | a month name from the table denotes a month from 1 to 12, and a name is known exactly when it is in the Italian or the English half |
| `Calendar.MonthNumberExamples` | book.py:267-292 | an Italian name and its English counterpart give the same month; an abbreviation such as `feb` is not a month name |
| `Calendar.NumericLabelRoundTrip` | book.py:260-265 | the label `MM/YYYY` reads as (year, month) in that swapped order, for any two digits of month |
| `Calendar.NamedLabelRoundTrip` | book.py:260-295 | an Italian or English month name in any case, blanks, and digits, with blanks around, reads as (digits, month number) |
| `Calendar.AcceptedLabelForms` | book.py:260-296 | an accepted label is, trimmed and lower-cased, either `MM/YYYY` read as (YYYY, MM) or a month name, blanks and digits read as (digits, month); every other label raises |
| `Text.TwoWordsJoined` | book.py:293-294 | a label without edge blanks that `split()` cuts into two words is those two words joined by a non-empty run of blanks |
| `Calendar.LexicographicIsIndexOrder` | book.py:311-313 | the tuple comparison of (year, month) pairs agrees with counting months, so each click moves one month towards the target |
| `Calendar.DatePicker.ClickNext` | book.py:314 | the picker shows the following month, across a year boundary too, and the click is recorded |
| `Calendar.DatePicker.ClickPrevious` | book.py:316 | the picker shows the preceding month and the click is recorded |
| `Calendar.DatePicker.EnsureMonth` | book.py:299-318 | a target `d` months away is reached with exactly `abs(d)` clicks in its direction when `abs(d) < 24`; otherwise 24 clicks are made and it raises; a malformed target raises before any click |
| `Selection.MatchIndices` | book.py:331-336 | the positions of all matching options, in increasing order and nothing else |
| `Selection.ChooseHutOption` | book.py:321-341 | no options raises; the result is the unique exact match if there is one, else the unique case-insensitive substring match; otherwise it raises as ambiguous |
| `Selection.TwoExactMatchesAreAmbiguous` | book.py:331-341 | two options reading exactly as the hut name make the choice fail rather than pick one |
| `Selection.UniqueExactMatchWins` | book.py:331-334 | a single exact match is chosen however many options contain the name |
| `Selection.Keywords` | book.py:43-46 | a room type other than `dorm` and `private` is its own only keyword |
| `Selection.FirstLabelMatching` | book.py:366-369 | the first input whose lower-cased label contains a keyword, no earlier one matching, or none when no label matches |
| `Selection.ChoosePeopleInput` | book.py:360-373 | with a room type: the first input whose lower-cased label contains a keyword, no earlier one matching, or an error when none does; without one: the only input, or an error |
| `Selection.UpperCaseRoomTypeNeverMatches` | book.py:365-368 | an unmapped room type holding a capital letter matches no label, since only the label is lower-cased |
| `Selection.FirstWithLabel` | book.py:396-399 | the first field with the aria-label, or none exists |
| `Selection.PersonalForm.FillPersonalValue` | book.py:393-405 | `None` changes nothing; a missing field raises; an enabled field gets the value and no other field changes; a disabled field is kept and raises unless it already shows the value |
| `Selection.PrefilledValueAccepted` | book.py:400-405 | a disabled field pre-filled with the configured value in any case, padded with blanks, passes the check |
| `Selection.CountryOptionText` | book.py:408-415 | an empty country raises; the Swiss aliases, trimmed and in any case, map to `Svizzera - CH`; any other country is kept as written |
| `Selection.SwissAliasSpellings` | book.py:411-414 | `  SWITZERLAND `, `Ch` and other spellings of the aliases all select the site's entry |
| `Selection.FirstContaining` | book.py:421-423 | the first option containing the text, ignoring case, or none does |
| `Selection.SelectCountry` | book.py:408-425 | the first option containing the mapped text, else the first containing the configured value; when no option contains either, and only then, `CountryNotFound` |
| `Attempt.Snap` | book.py:213-218 | a screenshot is taken exactly when a directory is set, numbered with the new counter; otherwise the counter stays |
| `Attempt.SnapRunNumbering` | book.py:213-218 | the screenshots of an attempt are numbered consecutively from 1; without a directory none is taken |
| `Attempt.AvailabilityGate` | book.py:478-489 | passes iff the button ends enabled and, if it started disabled, alternatives are allowed and offered; refused alternatives and a still-disabled button are availability errors, a missing alternative button a plain error |
| `Attempt.RunAttempt` | book.py:478-535 | completes iff nothing earlier failed, the gate passes, the later steps pass, it is not a dry run and the summary button is enabled; a dry run stops exactly where a real run would submit; once the gate has passed, a later step or a missing or disabled summary button fails the attempt with a plain error |
| `Attempt.DryRunNeverSubmits` | book.py:527-529 | a dry run never submits, and the summary page does not affect it |
| `Attempt.UnavailableOnlyBeforeSummary` | book.py:478-533 | an availability error comes only from the steps before the gate or from the gate itself failing, never from the later ones |
| `Attempt.StrictDatesNeverTakeAlternative` | book.py:479-486 | with alternatives refused, a disabled availability button is an availability error |
| `Polling.CheckSchedule` | book.py:541-546 | accepts exactly a positive interval, a non-negative jitter and a non-negative limit, reporting the first failing check in that order |
| `Polling.Poll` | book.py:551-564 | the number of attempts never exceeds the supplied outcomes and never goes backwards |
| `Polling.Poller.Run` | book.py:551-564 | the loop makes the attempts and ends as `Poll` says; it pauses once after each retried attempt, each pause within the interval and the interval plus the jitter, both included |
| `Polling.RunOnce` | book.py:565-566 | without polling, one attempt and its outcome is the program's, an availability error included; this is how the polling loop ends with a limit of one attempt |
| `Polling.OnlyAvailabilityRetried` | book.py:555-564 | every attempt but the last ended with the availability error; when the outcomes run out, all did |
| `Polling.EndsWithLastAttempt` | book.py:555-561 | the run ends as its last attempt did; an availability error ends it only at the limit; the limit is never exceeded |
| `Polling.UnlimitedNeverGivesUp` | book.py:560 | with a limit of 0 the availability error never ends the run |
| `Polling.GivesUpAtLimit` | book.py:559-561 | when the first `max_attempts` attempts find no availability, the run raises after exactly that many attempts |

## Left out

- Driving the browser (Playwright), reading the YAML file, the `.env` credentials, command-line parsing, printing and the exit-code wrapper are outside the model. The page is represented by the option texts, labels and flags the script reads from it.
- Screenshot files: only their numbering is modelled, not the file names, the per-attempt `attempt_NNNN` directory or the writing.
- The login, hut search, date-cell, overnight-stay and personal-data steps of `run_attempt` are straight-line browser work. `Attempt.RunAttempt` receives the exception they raised, if any. The selection rules each of them uses are modelled on their own in `Selection`.
- `fill_by_placeholder`, `select_half_board`, `set_value`, `must_locator` and the terms checkboxes only locate and fill elements and hold no decision worth modelling.
- Real sleeping and real randomness: each pause is recorded instead, and its random part is any whole number from 0 to the jitter.
- Polling.Poller.Run: the loop runs over a finite sequence of attempt outcomes. An unlimited run that never stops is captured only up to the outcomes supplied, where it ends as `StillPolling`.
- Calendar.DatePicker.EnsureMonth: the picker is read as a (year, month) pair, not as its label text. An unreadable label, which makes the script raise, does not arise in the model.
- Dates.ParseIsoDate: strict zero-padded `YYYY-MM-DD` only. `strptime` also accepts one-digit months and days such as `2026-2-1`, and those are refused here.
- Dates.FormatDateForUi: the year is always written in four digits. `strftime("%Y")` on some platforms writes years below 1000 without padding.
- Text.Lower and Text.IsDigit: ASCII only. Python lower-cases and recognises digits across Unicode, so non-ASCII capitals and digits are outside the model wherever the script lower-cases or reads digits: month names and picker labels, hut option texts, people-input labels, pre-filled field contents, and country names and options.
- Yaml.IntOf: no underscores in numeric strings, no infinities or NaN, and no non-string keys.
- Selection.SelectCountry: Playwright's `has_text` also collapses whitespace before its case-insensitive substring match. The model matches the substring without that collapsing.
