# Late-sleep tracker: a verified model of its core logic

The late-sleep tracker is a small web app. Users record the night they went
to bed late and why. An AI classifies each reason. The app shows a day
streak, statistics of bedtimes across midnight, the most frequent reasons,
a fourteen-night trend and a CSV export. This project models the logic
under the app's HTTP and database glue, and proves what that logic
promises:

- `Streak`: the day-streak counter. It walks back from today and stops at
  the first day without a record, or after 365 days. Dates are day
  numbers and today is a parameter. The counter is an imperative loop,
  proved equal to a recursive specification whose properties are lemmas.
- `Clock`: the "HH:MM" parsing shared by the insights endpoint and the
  statistics card. A time before noon is shifted by a day (1440 minutes),
  so evening and early-morning times sort in order. `formatMin` folds a
  value back into text.
- `Insights`: the insights endpoint. It tallies the reasons of the
  records' analyses, keeps the top five after a stable sort by count, and
  computes the average, earliest and latest bedtime with integer rounding.
  It builds the trend of the last fourteen records and gates the AI
  pattern analysis (Pro users with at least three records). The tally is
  built in a loop, as in the source.
- `Export`: the CSV branch of the export endpoint. Every field is quoted
  with embedded quotes doubled, as in section 2 of RFC 4180, rules 6 and 7.
  Lines are joined with "\n". A reader for that format is defined next to
  it, and the whole export is proved to read back as the header and the
  records' values.
- `Subscription`: whether a user is Pro and whether the free limit of five
  AI analyses a month is reached.
- `AiReply` and `Analyze`: choosing the text of an AI reply and stripping
  its Markdown fences. Also the analyze handler, with the AI call and
  `JSON.parse` as oracle parameters, and a trace of the effectful steps
  it takes.
- `RouteGuard`: the redirect decision of the session middleware.
- `StreakCard`, `RecordForm`, `SleepStats`, `ReasonChart`: the
  arithmetic of four UI components:
  - the message index;
  - the half-hour slot grid and the submit guard;
  - bar heights, using exact `real` arithmetic;
  - bar widths, using exact `real` arithmetic.
- `Strings` and `Wrappers`: the JavaScript string built-ins the core uses,
  over ASCII, and an `Option` type.

Where the code and its documentation disagree, the model follows the code.
The comment above the slot generator in
`components/record/record-form.tsx` says the grid ends at 04:00. Its loop
runs to hour 28, so the last slot is 04:30 (`RecordForm.SlotExamples`).

## Model

| member | source | states |
|---|---|---|
| Streak.CalculateStreak | lib/streak.ts:5-19 | the loop returns the streak of the set of dates; it is at most 365; every counted day is recorded, and unless the cap was reached the next day back is not |
| Streak.RunFrom | lib/streak.ts:9-18 | the run counted from offset i never passes the 365-day cap |
| Streak.StreakOf | lib/streak.ts:5-19 | the streak is at most 365, and positive only when today is recorded |
| Streak.DaySet | lib/streak.ts:6 | the set holds exactly the listed dates and has no more elements than the list has entries |
| Streak.StreakCharacterization | lib/streak.ts:9-18 | the streak is k exactly when days today .. today-(k-1) are recorded and, below the cap, day today-k is not |
| Streak.RunFromCharacterization | lib/streak.ts:9-18 | the same characterisation for the run starting i days back |
| Streak.StreakBounded | lib/streak.ts:9 | the streak lies between 0 and 365 |
| Streak.StreakNeedsToday | lib/streak.ts:13-17 | without a record for today the streak is 0, whatever earlier days hold |
| Streak.StreakMonotone | lib/streak.ts:13-17 | recording more days never shortens the streak |
| Streak.RunFromMonotone | lib/streak.ts:13-17 | a superset of days gives a run at least as long from every offset |
| Streak.StreakIgnoresOlderDays | lib/streak.ts:13-17 | days older than the first missing day do not change the streak |
| Streak.StreakIgnoresOrderAndRepeats | lib/streak.ts:6 | two date lists with the same elements give the same streak, whatever their order or repetitions |
| Streak.StreakExamples | lib/streak.ts:5-19 | no days 0; today 1; today and yesterday 2; yesterday alone 0; three days out of order 3; {9,8,5,4,3} from day 9 gives 2 |
| Subscription.DeriveStatus | lib/subscription.ts:17-38 | Pro exactly for a row with status active or trialing; usage is the count or 0; limited exactly when not Pro and usage >= 5; period end is the stored non-empty value or null; cancel flag is the stored true or false |
| Subscription.IsProStatus | lib/subscription.ts:17 | only the stored statuses active and trialing grant Pro; canceled, past_due and incomplete do not |
| Subscription.ProNeverLimited | lib/subscription.ts:35 | a Pro user is never limited, whatever the usage |
| Subscription.FreeLimitThreshold | lib/subscription.ts:30-35 | for a free user usage 4 passes, usage 5 is limited, a null count passes; no row means not Pro |
| Subscription.LimitMonotoneInUsage | lib/subscription.ts:35 | more usage never lifts the limit |
| RouteGuard.WithPathname | lib/supabase/middleware.ts:36-38 | a redirect target keeps origin and query and replaces only the pathname |
| RouteGuard.Guard | lib/supabase/middleware.ts:35-48 | signed out: redirect to /login exactly for paths other than /, /login and /auth/...; signed in: redirect to / exactly from /login; the target is the request URL with only the pathname replaced |
| RouteGuard.IsPublicPath | lib/supabase/middleware.ts:35 | every public path starts with a slash; /auth without its trailing slash and /login/ are not public |
| RouteGuard.GuardNeverLoops | lib/supabase/middleware.ts:35-46 | a redirect goes to a different path, and the redirected request passes through |
| RouteGuard.GuardExamples | lib/supabase/middleware.ts:35-48 | /history needs a user, /auth/callback does not, /auth does; a signed-in /login goes to / |
| AiReply.FindText | app/api/analyze/route.ts:44 | the index found holds a text block and no earlier block is text; none means there is no text block |
| AiReply.RawText | app/api/analyze/route.ts:44-45 | the raw text is "{}" or the text of one of the reply's text blocks |
| AiReply.StripLeadingFence | app/api/analyze/route.ts:46 | the result is a suffix of the input; without a leading fence the input is unchanged; after a fence the result does not start with whitespace |
| AiReply.LeadingJsonFence | app/api/analyze/route.ts:46 | "```json" + B strips to B without its leading whitespace |
| AiReply.LeadingPlainFence | app/api/analyze/route.ts:46 | "```" + B, for B starting with a line feed, strips to B without its leading whitespace |
| AiReply.StripTrailingFence | app/api/analyze/route.ts:46 | the result is a prefix of the input, and where it was cut the trailing-fence pattern matches |
| AiReply.StripFences | app/api/analyze/route.ts:46 | stripping both fences never lengthens the text |
| AiReply.ReplyContent | app/api/analyze/route.ts:44-46 | the text handed to the JSON parser is the raw reply text with fences stripped, never longer than it |
| AiReply.EmptyBodyAfterFence | app/api/analyze/route.ts:46 | after the opening fence of an empty fenced reply only the closing fence is left, and it strips to the empty text |
| AiReply.FencedBodyStrips | app/api/analyze/route.ts:46 | a line feed, X and a closing fence strip to X, for X empty or not starting with whitespace |
| AiReply.RawTextSelectsFirstText | app/api/analyze/route.ts:44-45 | the raw text is the text of the first text block, skipping other blocks |
| AiReply.RawTextWithoutText | app/api/analyze/route.ts:45 | without a text block the raw text is "{}" |
| AiReply.FindTrailingFence | app/api/analyze/route.ts:46 | the position found is the leftmost where the trailing-fence pattern matches |
| AiReply.StripTrailingAfterBody | app/api/analyze/route.ts:46 | a body followed by "\n```" loses exactly that fence |
| AiReply.StripJsonFence | app/api/analyze/route.ts:46 | "```json\n" + X + "\n```" strips to X, for X empty or not starting with whitespace (the leading `\s*` would also eat whitespace at the start of X) |
| AiReply.StripPlainFence | app/api/analyze/route.ts:46 | "```\n" + X + "\n```" strips to X, for X empty or not starting with whitespace (the leading `\s*` would also eat whitespace at the start of X) |
| AiReply.StripWithoutFences | app/api/analyze/route.ts:46 | text with neither fence passes through unchanged |
| Analyze.HandleAnalyze | app/api/analyze/route.ts:9-64 | 401 before any other step when signed out; 403 without calling the AI when limited; usage is recorded exactly when the reply parsed; AI or parse failure gives the failure response without recording |
| Analyze.StatusCode | app/api/analyze/route.ts:10-63 | 401 exactly for the sign-in failure, 403 for the limit, 200 for an analysis, 500 for a failed one |
| Analyze.AnalyzePrompt | app/api/analyze/route.ts:38 | the prompt holds the sleep time after "Sleep time: " and ends with the reason, with 21 characters of labels |
| Export.DoubleQuotes | app/api/export/route.ts:31 | the escaped text is the input's length plus its number of quotes |
| Export.FieldText | app/api/export/route.ts:29-30 | null is written as the empty text; a number as digits that read back as the number |
| Export.CsvRow | app/api/export/route.ts:27-32 | a record's line reads back as its six field texts in header order |
| Export.Csv | app/api/export/route.ts:34 | the export starts with the header line, and is only the header line without records |
| Export.DecodeQuoted | app/api/export/route.ts:31 | a text with quotes doubled, between quotes, decodes to that text |
| Export.EscapeField | app/api/export/route.ts:29-31 | an escaped field starts and ends with a quote and has length len + 2 + quotes |
| Export.Lookup | app/api/export/route.ts:29 | a column reads as null exactly when it is absent or stored as null; otherwise it is the stored value |
| Export.RowCells | app/api/export/route.ts:27-31 | a row has one cell per header, each wrapped in quotes |
| Export.ExportBody | app/api/export/route.ts:13-44 | the CSV is built exactly for format "csv"; an absent or empty format gives the JSON records |
| Export.DoubleQuotesWithoutQuotes | app/api/export/route.ts:31 | text without quotes is unchanged by escaping |
| Export.DoubleQuotesAppend | app/api/export/route.ts:31 | escaping works character by character: it distributes over concatenation |
| Export.EscapeExamples | app/api/export/route.ts:29-31 | a"b escapes to "a""b", null to "", and a comma and line feed stay inside the quotes |
| Export.HeaderLine | app/api/export/route.ts:26-34 | the header line is id, record_date, sleep_time, reason_text, mood_score, created_at joined by commas, unquoted |
| Export.ReadQuotedRoundTrip | app/api/export/route.ts:31 | reading the escaped text up to its closing quote gives back the value and what follows |
| Export.DecodeEscapeRoundTrip | app/api/export/route.ts:29-31 | dropping the outer quotes and collapsing "" recovers every value's text, commas, quotes and line feeds included |
| Export.ReadUnquotedRoundTrip | app/api/export/route.ts:26 | an unquoted plain field (a header name) reads back as itself |
| Export.ReadFieldRoundTrip | app/api/export/route.ts:26-31 | any cell as written reads back as its value, up to the next comma or line feed |
| Export.ReadRecordRoundTrip | app/api/export/route.ts:32 | cells joined by commas read back as the row of their values |
| Export.ReadCsvRoundTrip | app/api/export/route.ts:34 | lines joined by line feeds read back as the table of their rows |
| Export.HeadersArePlain | app/api/export/route.ts:26 | no header name contains a comma, quote or line feed |
| Export.RowCellsEncode | app/api/export/route.ts:25-32 | each of a record's six cells encodes its value in header order, null as "" |
| Export.CsvCellsEncodeTable | app/api/export/route.ts:25-34 | every line of the export encodes the matching row of values |
| Export.CsvLinesJoinCells | app/api/export/route.ts:32-34 | the lines of the export are the header line followed by one row per record in query order |
| Export.CsvRoundTrip | app/api/export/route.ts:25-34 | the export reads back as the header names followed by each record's six values in header order |
| Insights.CountReasons | app/api/insights/route.ts:34-41 | the loops build the tally of all reasons in visiting order: one entry per distinct reason, each counting its occurrences across the analysed records |
| Insights.ItemReasons | app/api/insights/route.ts:36-37 | a record without an analysis or without top reasons contributes nothing; otherwise it contributes the reason of each item, in order |
| Insights.ReasonsOf | app/api/insights/route.ts:34-37 | the reasons are visited record by record: no records give none, and an added record only appends |
| Insights.ReasonsOfCoversEach | app/api/insights/route.ts:34-37 | every reason a record lists is visited, as many times as the record lists it |
| Insights.Bump | app/api/insights/route.ts:38 | an increment adds at most one entry |
| Insights.Tally | app/api/insights/route.ts:34-41 | the tally has at most one entry per reason visited, and is non-empty once a reason was visited |
| Insights.BumpCount | app/api/insights/route.ts:38 | one increment adds 1 to the count of that reason and changes no other |
| Insights.BumpKeys | app/api/insights/route.ts:38 | an increment adds its reason to the keys and keeps them distinct |
| Insights.TallyCharacterization | app/api/insights/route.ts:34-41 | the tally has distinct keys, exactly the reasons seen, each with its number of occurrences |
| Insights.SortByCountPermutes | app/api/insights/route.ts:44 | the sort is a permutation |
| Insights.SortByCount | app/api/insights/route.ts:44 | the sort keeps the number of entries |
| Insights.SortByCountOrdered | app/api/insights/route.ts:44 | the sorted counts do not increase |
| Insights.SortByCountStable | app/api/insights/route.ts:44 | entries of equal count keep their order |
| Insights.SortByCountIsStableSort | app/api/insights/route.ts:44 | the sort is a stable sort by count, highest first |
| Insights.TopReasons | app/api/insights/route.ts:43-46 | the top list has min(5, n) entries |
| Insights.TopReasonsAreTop | app/api/insights/route.ts:43-46 | at most five entries, counts not increasing, drawn from the tally, and every entry left out counts no more than any kept |
| Insights.TopReasonsCountOccurrences | app/api/insights/route.ts:34-46 | every top reason's count is its number of occurrences across the analysed records, at least 1 |
| Insights.UnanalysedRecordIgnored | app/api/insights/route.ts:36 | a record without analysis leaves the tally unchanged |
| Insights.MinOf | app/api/insights/route.ts:64 | the minimum is an element and no element is smaller |
| Insights.MaxOf | app/api/insights/route.ts:65 | the maximum is an element and no element is larger |
| Insights.NightMinutes | app/api/insights/route.ts:49-56 | at most one value per record, each at least 720 (noon) once normalised |
| Insights.RoundedMean | app/api/insights/route.ts:63 | the result is the sum over n rounded to the nearest integer, halves up: 2n*r <= 2*sum + n < 2n*(r + 1) |
| Insights.StatsOf | app/api/insights/route.ts:58-77 | each statistic is empty exactly when there is no time at all |
| Insights.ComputeSleepStats | app/api/insights/route.ts:58-77 | the three reassigned statistics are those of the normalised non-empty times |
| Insights.MeanBetween | app/api/insights/route.ts:63-65 | earliest <= rounded average <= latest |
| Insights.StatsWithoutTimes | app/api/insights/route.ts:49-62 | records whose times are all empty give three empty statistics |
| Insights.EmptyTimeSkipped | app/api/insights/route.ts:51 | a record with an empty time adds no minute value |
| Insights.StatsOfSingleTime | app/api/insights/route.ts:58-76 | one zero-padded "HH:MM" clock string gives that same string as average, earliest and latest |
| Insights.PairStats | app/api/insights/route.ts:63-65 | for two ordered values the minimum is the first, the maximum the second, and the mean is (a+b)/2 rounded with halves up, (a+b+1)/2 |
| Insights.FormatExamples | app/api/insights/route.ts:67-72 | 1380, 1500 and 1440 format as 23:00, 01:00 and 00:00 |
| Insights.StatsAcrossMidnight | app/api/insights/route.ts:62-76 | 23:00 and 01:00 give average 00:00, earliest 23:00, latest 01:00 |
| Insights.StatsAreOrderedClockTimes | app/api/insights/route.ts:62-76 | over normalised clock times the statistics are valid clock strings, ordered earliest <= average <= latest, each normalising back to its value |
| Insights.NightMinutesInRange | app/api/insights/route.ts:49-56 | clock-string times normalise into 720 .. 2159 |
| Insights.Trend | app/api/insights/route.ts:80-83 | the trend is the last min(14, n) records' date and time, in their order |
| Insights.TrendAppend | app/api/insights/route.ts:80-83 | a new record becomes the last point; the oldest drops out once there are fourteen |
| Insights.PatternGate | app/api/insights/route.ts:88 | free users and users with fewer than three records get no pattern analysis |
| Insights.PatternAnalysis | app/api/insights/route.ts:89-121 | a failed AI call gives null; a successful one gives exactly the parse of its stripped reply to the summary prompt (null when that parse fails) |
| Insights.SummaryLine | app/api/insights/route.ts:90-91 | a summary line is the date, a space, the time, " - " and the reason |
| Insights.PatternPrompt | app/api/insights/route.ts:90-108 | the prompt starts with "Here are my sleep records:" and a line feed, followed by the first record's summary line; without records it is only that heading |
| Insights.GetInsights | app/api/insights/route.ts:9-131 | 401 when signed out, an error on a failed query, otherwise the top reasons, statistics, trend, total and Pro flag; the AI is called exactly for a Pro user with at least three records |
| Clock.FirstField | app/api/insights/route.ts:53 | the first colon field is a colon-free prefix, followed by a colon unless it is all of the text |
| Clock.FieldNumber | app/api/insights/route.ts:53 | the empty field reads as 0; a field reads as a number exactly when it is all digits; a one- or two-digit field is below 100 |
| Clock.ClockText | app/api/insights/route.ts:71 | an hour and a minute below 100 are written as two digits each, separated by a colon |
| Clock.ParseTime | app/api/insights/route.ts:53 | text without a colon does not parse; a parsed hour is the value of the digits before the first colon |
| Clock.Normalize | app/api/insights/route.ts:55 | every value is at least 720, a morning time is shifted to at least 1440, and the minute is kept modulo 60 |
| Clock.FormatMin | app/api/insights/route.ts:67-72 | the text has at least five characters, and every value below two days formats to a valid clock string |
| Clock.ClockTextIsClockString | app/api/insights/route.ts:71 | every hour 0-23 and minute 0-59 is written as a zero-padded clock string reading back as them |
| Clock.ClockStringIsClockText | app/api/insights/route.ts:71 | every clock string is the padded text of its own hour and minute |
| Clock.ParseClockString | app/api/insights/route.ts:53 | a clock string parses into its hour and minute |
| Clock.ParseDropsSeconds | app/api/insights/route.ts:53 | "HH:MM:SS" parses like "HH:MM": the seconds are lost |
| Clock.NormalizeRange | app/api/insights/route.ts:55 | normalisation adds 1440 exactly below hour 12, giving values in 720 .. 2159 |
| Clock.FormatNormalizeRoundTrip | app/api/insights/route.ts:53-72 | formatting the normalised value of a clock string gives the string back |
| Clock.NormalizeFormatRoundTrip | app/api/insights/route.ts:67-72 | every value in 720 .. 2159 formats to a clock string (hour 00-23) that normalises back to it |
| Clock.NormalizeExamples | app/api/insights/route.ts:53-55 | 23:00 is 1380, 01:00 is 1500, 00:00 is 1440, 11:59 is 2159, 12:00 is 720 |
| Clock.NormalizeCrossesMidnight | app/api/insights/route.ts:54-55 | an evening time sorts before a morning time, by the minutes between them across midnight |
| StreakCard.MessageIndex | components/record/streak-card.tsx:17-21 | the index is never negative, is in bounds for a non-empty list, and is 0 exactly for a streak below 2 or a list of at most one message |
| StreakCard.Message | components/record/streak-card.tsx:21 | the message is the list entry at that index, for a non-empty list |
| StreakCard.MessageIndexSteps | components/record/streak-card.tsx:17-20 | each two days move one message on, up to the last, reached from 2*(len-1) |
| StreakCard.MessageExamples | components/record/streak-card.tsx:17-21 | with six messages: streaks 0 and 1 show the first, 2 the second, 10 and 100 the last |
| StreakCard.MessageIndexMonotone | components/record/streak-card.tsx:17-20 | a longer streak never shows an earlier message |
| RecordForm.TimeSlots | components/record/record-form.tsx:12-18 | the nested loops produce 16 slots, the i-th being hour 21 + i/2 wrapped past midnight and minute 0 or 30 |
| RecordForm.SlotAt | components/record/record-form.tsx:15-16 | a slot text has at least five characters |
| RecordForm.WrapHour | components/record/record-form.tsx:15 | hours 24 to 47 wrap to the next morning's hour; the hour is taken modulo 24 |
| RecordForm.SlotNormalizes | components/record/record-form.tsx:13-17 | every slot is a zero-padded clock string with minute 00 or 30, normalising to 1260 + 30i |
| RecordForm.SlotsIncrease | components/record/record-form.tsx:13-17 | slots strictly increase by 30 minutes each under normalisation, so they are pairwise distinct |
| RecordForm.SlotExamples | components/record/record-form.tsx:11-17 | the grid starts 21:00, 21:30, passes 00:00 and ends at 04:30 |
| RecordForm.InitialForm | components/record/record-form.tsx:35-39 | the form opens on today's date, with no time, no reason and mood 3 |
| RecordForm.Submit | components/record/record-form.tsx:41-49 | nothing is sent exactly when the time is empty or the reason is blank; otherwise date, time and mood pass through and the reason is trimmed |
| RecordForm.SubmitDisabled | components/record/record-form.tsx:110 | the button is disabled exactly for an empty time, a blank reason, or while loading |
| RecordForm.DisabledMatchesGuard | components/record/record-form.tsx:110 | the button is disabled exactly when submit would send nothing, or while loading |
| RecordForm.InitialFormDisabled | components/record/record-form.tsx:37-42 | the fresh form cannot be submitted |
| RecordForm.SubmittedReasonTrimmed | components/record/record-form.tsx:46 | a sent reason is a non-empty infix of the typed one, with no whitespace at either end |
| Strings.TrimSpec | components/record/record-form.tsx:42-46 | trim keeps an infix, drops only whitespace, keeps no outer whitespace, and is empty exactly for blank text |
| Strings.Trim | components/record/record-form.tsx:42-46 | trim never lengthens, and its result neither starts nor ends with whitespace |
| Strings.NatToString | app/api/export/route.ts:30 | String(n) is a non-empty run of digits without a leading zero |
| Strings.PadStart2 | app/api/insights/route.ts:71 | the padded text has at least two characters and is never shorter than the input |
| Strings.PadStart2Pads | app/api/insights/route.ts:71 | the padded text ends with the input and has only zeros in front of it |
| Strings.Join | app/api/export/route.ts:32-34 | a joined non-empty list starts with its first element |
| Strings.JoinEndsWithLast | app/api/export/route.ts:32-34 | a joined non-empty list ends with its last element |
| Strings.DigitsValueOfNatToString | app/api/export/route.ts:30 | reading back the digits String(n) writes gives n |
| Strings.Pad2Small | app/api/insights/route.ts:71 | below 100, padStart(2, '0') gives exactly the tens and units digits |
| SleepStats.Shown | components/insights/sleep-stats.tsx:43-51 | an empty statistic shows as --:--, any other unchanged |
| SleepStats.TrendMinutes | components/insights/sleep-stats.tsx:22-28 | each point's minutes are 0 for an empty time, else the noon-cutoff normalisation |
| SleepStats.TimeToMin | components/insights/sleep-stats.tsx:22-26 | 0 exactly for an empty time, otherwise at least 720 (noon) |
| SleepStats.Range | components/insights/sleep-stats.tsx:29-31 | the range is at least 1, and max - min + 60 for a non-empty trend |
| SleepStats.MinMin | components/insights/sleep-stats.tsx:29 | 0 for an empty trend, otherwise at least 30 minutes below every minute of the trend |
| SleepStats.MaxMin | components/insights/sleep-stats.tsx:30 | 1 for an empty trend, otherwise at least 30 minutes above every minute of the trend, and always above the lower bound |
| SleepStats.DisplayedHeight | components/insights/sleep-stats.tsx:71 | the drawn height is the larger of the height and 4% |
| SleepStats.Height | components/insights/sleep-stats.tsx:61 | every raw height is positive |
| SleepStats.HeightInBounds | components/insights/sleep-stats.tsx:29-61 | every raw height lies strictly between 0% and 100% |
| SleepStats.SingleHeight | components/insights/sleep-stats.tsx:29-61 | a one-night trend draws a bar of exactly 50% |
| SleepStats.HeightMonotone | components/insights/sleep-stats.tsx:61 | a later bedtime draws a taller bar, equal bedtimes equal bars |
| SleepStats.TooltipDropsYearAndSeconds | components/insights/sleep-stats.tsx:75 | the tooltip is the date without its year and the time without its seconds |
| SleepStats.Tooltip | components/insights/sleep-stats.tsx:75 | the tooltip starts with the date from its sixth character on and ends with the first five characters of the time |
| SleepStats.DropFive | components/insights/sleep-stats.tsx:75 | the first five characters followed by the result give back the text; a text of at most five characters gives the empty text |
| SleepStats.TakeFive | components/insights/sleep-stats.tsx:75 | a prefix of at most five characters, exactly five when the text has them |
| SleepStats.TooltipExample | components/insights/sleep-stats.tsx:75 | 2024-02-05 at 01:15:00 reads "02-05 01:15" |
| ReasonChart.MaxCount | components/insights/reason-chart.tsx:13 | the maximum count is attained and no count exceeds it |
| ReasonChart.Counts | components/insights/reason-chart.tsx:13 | one count per reason, in order |
| ReasonChart.Widths | components/insights/reason-chart.tsx:11-30 | nothing is drawn exactly for an empty list; otherwise one width per reason, count / max * 100 |
| ReasonChart.Width | components/insights/reason-chart.tsx:30 | a width times the largest count is the count times 100 |
| ReasonChart.MaxBarIsFull | components/insights/reason-chart.tsx:13-30 | every bar with the largest count is drawn at 100% |
| ReasonChart.WidthInRange | components/insights/reason-chart.tsx:13-30 | with positive counts every width lies in (0, 100] |
| ReasonChart.WidthFollowsCount | components/insights/reason-chart.tsx:30 | widths are ordered exactly as the counts are |
| ReasonChart.WidthExample | components/insights/reason-chart.tsx:30 | counts 10 and 5 give 100% and 50% |

## Left out

- Supabase, Stripe and cookie handling are not modelled: authentication, the database queries and inserts, the records and usage routes, the Stripe routes, and the export's DELETE handler. They are I/O. Whether a user is signed in, and what a query returns, are parameters.
- The AI calls and `JSON.parse` are oracle parameters (`string -> Option<...>`). `None` stands for a thrown error. Logging in the catch blocks is not modelled.
- In the analyze handler, `request.json()` can throw outside the `try`. That case is not modelled: the body's fields are parameters.
- Clocks and calendars are not modelled: `new Date()`, `setDate`, time zones, the `days` window of the insights query, and the month boundary of the usage count. Dates are day numbers (streak) or opaque strings, and today is a parameter.
- Rendering, React state (`hoveredIndex`, the form's `useState` setters) and the locale hook are not modelled. The duplicate streak loop in app/page.tsx is modelled once, from lib/streak.ts.
- Insights.NightMinutes: JavaScript's `Number` also reads fields with surrounding spaces, a sign or a decimal point. The model reads only empty fields and runs of ASCII digits, and treats anything else like NaN, giving "NaN:NaN" statistics.
- Insights.CountReasons: `Object.entries` lists integer-like keys first, in numeric order. The model keeps every key in insertion order.
- Insights.CountReasons: reason names inherited from `Object.prototype` are not modelled. The source tallies into a plain object: `__proto__` is never counted, and names such as `constructor` or `toString` start from an inherited function, so their counts are strings and sort as NaN. The model counts every name alike, so Insights.TopReasonsCountOccurrences holds only for other names.
- Strings.TrimSpec: whitespace is the six ASCII whitespace characters. Unicode spaces that `trim()` and the regex class `\s` also accept are not modelled.
- SleepStats.TrendMinutes: the bar heights require every non-empty trend time to parse (`TimesParse`). Otherwise the source computes NaN.
- ReasonChart.Widths: requires some positive count (`Drawable`) for a non-empty list. An all-zero list would divide 0 by 0. The tally never produces a zero count.
- StreakCard.Message: requires a non-empty message list. With no messages the source reads past the end of the list.
- Column values in the export are null, text or natural numbers. Other column types and their `String()` forms are not modelled.
- The CSV uses "\n" between lines, as the code does, not the CRLF that RFC 4180 specifies. The reader is defined for that choice.
