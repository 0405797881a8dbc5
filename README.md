# Ceilometer cloud-base records, modelled in Dafny

`lara_cloud_data.py` reads one day of ceilometer data from the SkyWatch web
feed into a `cloud_height` record. It computes daily statistics of the
lowest cloud layer and stores each day in a file named after the year and
the day of the year. The batch driver converts days of the year into
calendar dates with `jday2yyyymmdd`. This project models the sequential
logic of that file:

- `calendar.dfy` (module `Calendar`): `jday2yyyymmdd` as the `while` loop it
  is. Month lengths follow Gregorian rules, as `calendar.monthrange` gives
  them. The loop asks for the month's length before it tests
  `month <= 12`, so a day number past the end of the year makes
  `monthrange(y, 13)` raise. The model returns that error as `Err(IllegalMonth(13))`.
- `text.dfy` (module `Text`): the Python string operations the parser and
  the file names rely on:
  - `str.split` on one character;
  - clamped slicing;
  - `str()` of a natural number;
  - `zfill`.
- `feed.dfy` (module `Feed`): the web branch of `cloud_height.__init__`.
  - `ReadSeries` is the parse loop and `ReadLine` its body. They are proved
    against the specification functions `Step`, `Run` and `Parse`.
  - The parser skips five header lines and keeps tab fields longer than one
    character. It reads `HH:MM:SS` from characters 0-1, 3-4 and 6-7, and the
    three cloud bases from the next three kept fields.
  - `hh0` and `loc0previous` carry the midnight rollover from line to line.
  - On a rollover the code adds 24 to `hh0` and then adds the *new* `hh0` to
    a time that already holds the old one. The model keeps this double
    offset exactly as written. The first rollover of a day comes out right;
    from a second rollover on, every later sample whose reading lies in
    [0, 24) takes the rollover branch again (`SecondRollover`, `RunawayRun`).
  - Any exception ends the loop. Whatever was appended before it stays, so
    the time lists can be one longer than some height lists.
- `stats.dfy` (module `DailyStats`): the cloudy samples `h1[h1 > 0]`, the
  cloud fraction, and the minimum, maximum and mean of the cloudy samples.
  - `Update` gives what `stats` leaves in the four statistic attributes.
  - `Saved` and `Restored` describe how `save` writes those attributes only
    when `mean` exists, and how loading falls back to zeros.
- `record.dfy` (module `CloudRecord`): the record as a class.
  - The constructor `FromFeed` runs the parse loop and sets `doy` and `year`.
  - The method `Stats` changes only `cf`, `min`, `max` and `mean`.
  - The module also builds the store file name, as `save` and as the driver
    build it.
- `optional.dfy` (module `Optional`): the `Option` type, used for attributes
  not yet set, conversions that raise, and a feed that cannot be retrieved.

Inputs the program gets from outside are parameters:

- The retrieved lines are `Option<seq<string>>`, with `None` when the
  retrieval raises.
- `float()` of a field is `conv: string -> Option<real>`, with `None` where
  it raises.
- The day of the year `jday` is a natural number.

## Model

| member | source | states |
|---|---|---|
| Calendar.DaysInMonth | lara_cloud_data.py:140 | a month has 28 to 31 days; February has 29 exactly in a Gregorian leap year |
| Calendar.MonthRange | lara_cloud_data.py:140 | `monthrange(y, m)[1]` is the month length for 1 <= m <= 12 and raises for any other m |
| Calendar.YearLength | lara_cloud_data.py:140-142 | the twelve month lengths add up to 365 or 366 days |
| Calendar.DaysBeforeGrows | lara_cloud_data.py:140-142 | the days before a later month cover an earlier month entirely |
| Calendar.DayOfYearInjective | lara_cloud_data.py:138-143 | two valid dates of one year with the same day number are the same date |
| Calendar.DayOfYearInRange | lara_cloud_data.py:138-143 | a valid date's day number lies in 1..days-in-year |
| Calendar.JdayToYmd | lara_cloud_data.py:138-143 | the result keeps y; jd past the year's end raises for month 13, otherwise month is 1..12 and the earlier months' days plus the day give jd; 1 <= jd <= days-in-year yields a valid date; jd <= 31 gives (y, 1, jd) |
| Calendar.DateRoundTrip | lara_cloud_data.py:138-143 | converting the day number of any valid date returns that date |
| Text.Split | lara_cloud_data.py:43 | `split` always yields at least one piece |
| Text.SplitPiecesFree | lara_cloud_data.py:43 | no piece of a split holds the separator |
| Text.JoinSplit | lara_cloud_data.py:43 | joining the pieces with the separator gives the line back |
| Text.SplitJoin | lara_cloud_data.py:43 | splitting separator-free pieces joined by the separator gives the pieces back |
| Text.Slice | lara_cloud_data.py:47-51 | `s[i:j]` is the exact slice when in range, the empty string when i is at or past the end or j <= i, and the tail `s[i:]` when only j is past the end |
| Text.NatToString | lara_cloud_data.py:120 | `str(n)` is all decimal digits, without a leading zero |
| Text.NatToStringValue | lara_cloud_data.py:120 | reading back `str(n)` gives n |
| Text.NatToStringInjective | lara_cloud_data.py:120 | distinct numbers print differently |
| Text.ZFill | lara_cloud_data.py:120 | `zfill(w)` pads with leading zeros to width w and ends with the original string |
| Text.ZFillValue | lara_cloud_data.py:120 | `str(n).zfill(w)` still denotes n |
| Feed.BodyAppend | lara_cloud_data.py:42 | once the five header lines are complete, further lines are visited after the earlier ones, in order |
| Feed.LongFieldsKept | lara_cloud_data.py:45-46 | a field is kept exactly when it is one of the line's fields and longer than one character; nothing is added and the row is no longer than the fields |
| Feed.LongFieldsConcat | lara_cloud_data.py:45-46 | filtering a concatenation is filtering each part in turn, so the kept fields stay in their original order |
| Feed.LongFieldsSingle | lara_cloud_data.py:46 | a single field is kept, exactly once, when it is longer than one character, and dropped otherwise |
| Feed.ColumnsKept | lara_cloud_data.py:43-46 | the kept columns are exactly the tab-separated fields longer than one character (shorter ones are dropped), and none holds a tab; since `Columns` filters the split line with `LongFields`, `LongFieldsConcat` and `LongFieldsSingle` fix their order and count, which `columns[0..3]` relies on |
| Feed.RawHours | lara_cloud_data.py:47-52 | the time converts exactly when characters 0-1, 3-4 and 6-7 all convert; hours 0-23, minutes 0-59 and seconds below 60 give a reading within [0, 24); `RawHoursValue` gives its value |
| Feed.RawHoursValue | lara_cloud_data.py:48-52 | the reading is hh + mm/60 + ss/3600 of the three converted slices |
| Feed.Advance | lara_cloud_data.py:52-56 | a sample rolls over exactly when reading plus hh0 falls below the previous time; hh0 then grows by 24 and the local time is reading + old hh0 + new hh0; otherwise it is reading + hh0 |
| Feed.AppendHeights | lara_cloud_data.py:59-61 | times and clock stay unchanged; h1 grows by one exactly when column 1 exists and converts, h2 exactly when h1 grew and column 2 exists and converts, h3 likewise after h2; each appended value is that column's conversion; the line completes exactly when h3 grew |
| Feed.Step | lara_cloud_data.py:47-61 | a line without a convertible time raises before anything is appended; otherwise the clock advances with the rollover rule, and loc gets the new time and jul gets jday + loc/24 |
| Feed.ReadLine | lara_cloud_data.py:43-61 | the loop body leaves exactly the lists, offset, previous time and outcome that `Step` prescribes |
| Feed.ReadSeries | lara_cloud_data.py:36-69 | the parse loop's lists equal `Parse` of the feed and are aligned |
| Feed.StepAligned | lara_cloud_data.py:57-61 | one line only appends, keeps the lists aligned, and completes them unless it raises |
| Feed.RunAligned | lara_cloud_data.py:42-62 | a run keeps jul = jday + loc/24 and the length bounds between the lists, and completes them if no line raised |
| Feed.Parse | lara_cloud_data.py:40-69 | parsed lists are aligned with at most one sample per data line; a failed retrieval leaves all five empty |
| Feed.Run | lara_cloud_data.py:42-62 | a run only appends to the lists it starts from, at most one sample per line, and exactly one per line when no line raised; `RunStops` and `TailIgnored` state that the first raising line ends it |
| Feed.RunPrefix | lara_cloud_data.py:42-62 | more lines never change samples already collected |
| Feed.RowsAppend | lara_cloud_data.py:42-46 | lines are cut into rows one by one |
| Feed.ParseExtends | lara_cloud_data.py:40-64 | a longer feed yields lists that extend those of its prefix |
| Feed.HeaderIgnored | lara_cloud_data.py:42 | the five header lines never affect the result |
| Feed.TruncatedLine | lara_cloud_data.py:59-62 | a line with a time and only two heights raises at the third height and leaves loc and h2 one longer than h3 |
| Feed.TabFields | lara_cloud_data.py:43-46 | tab-joined fields longer than one character are exactly the kept columns |
| Feed.AllLong | lara_cloud_data.py:45-46 | no field longer than one character is discarded |
| Feed.FeedOfRows | lara_cloud_data.py:42-46 | five header lines followed by tab-joined rows parse as the loop run over those rows |
| Feed.ColumnValues | lara_cloud_data.py:59-61 | one converted value per row |
| Feed.ColumnValuesAt | lara_cloud_data.py:59-61 | entry k of column j is `float(columns[j])` of data line k |
| Feed.StepFull | lara_cloud_data.py:47-61 | a line with a time and three convertible heights does not raise and adds one sample |
| Feed.StepColumns | lara_cloud_data.py:59-61 | such a line appends its columns 1, 2 and 3 to h1, h2 and h3 |
| Feed.RunFull | lara_cloud_data.py:42-61 | if every data line is full, the loop reaches the end with one sample per line |
| Feed.RunColumns | lara_cloud_data.py:59-61 | if every data line is full, h1, h2 and h3 gain columns 1, 2 and 3 of the lines, in order |
| Feed.RunTail | lara_cloud_data.py:42-62 | after a line that does not raise, the loop continues from the state it left |
| Feed.RunStops | lara_cloud_data.py:42-64 | a line that raises ends the loop: the result is exactly what that line left |
| Feed.TailIgnored | lara_cloud_data.py:42-64 | once a line has raised, any lines after it, whatever they hold, leave the result unchanged |
| Feed.ParseFull | lara_cloud_data.py:42-69 | a feed of full data lines parses to complete lists, one sample per data line, with heights from columns 1-3 |
| Feed.AdvanceWholeDays | lara_cloud_data.py:53-54 | one sample leaves hh0 unchanged or adds exactly 24 |
| Feed.NextDay | lara_cloud_data.py:54 | a whole number of days plus 24 hours is a whole number of days |
| Feed.OffsetWholeDays | lara_cloud_data.py:36-56 | hh0 never decreases and stays a non-negative multiple of 24 |
| Feed.ParseOffset | lara_cloud_data.py:36-56 | starting from 0, the final offset is a whole number of days |
| Feed.AdvanceOrdered | lara_cloud_data.py:52-56 | with a reading in [0, 24), the next local time is no earlier than the previous one, and the bound between previous time and offset is kept |
| Feed.RunOrdered | lara_cloud_data.py:52-57 | local times appended by a run, after non-decreasing ones, stay non-decreasing |
| Feed.LocalTimesNonDecreasing | lara_cloud_data.py:52-57 | if every reading lies in [0, 24), the parsed local times are non-decreasing |
| Feed.SecondRollover | lara_cloud_data.py:52-56 | a rollover from an offset of at least a day leaves a previous time of at least twice the new offset minus 24 |
| Feed.RunawayStep | lara_cloud_data.py:52-56 | from that state every reading within the day is a rollover again |
| Feed.RunawayRun | lara_cloud_data.py:52-57 | once runaway, hh0 grows by 24 for every later sample |
| Feed.ExampleReadings | lara_cloud_data.py:47-52 | 09:00:00, 09:30:00 and 08:00:00 read as 9, 9.5 and 8 hours |
| Feed.ExampleSteps | lara_cloud_data.py:52-61 | the third of those samples rolls over to offset 24 and local time 32 |
| Feed.MidnightExample | lara_cloud_data.py:52-61 | the three samples yield local times 9.0, 9.5, 32.0 with jul = 1 + loc/24 and their heights |
| DailyStats.Positives | lara_cloud_data.py:104 | the cloudy samples are positive members of h1, no more of them than samples |
| DailyStats.PositivesCount | lara_cloud_data.py:104-105 | each positive value occurs among the cloudy samples exactly as often as in h1, and no other value occurs, so `cld` counts the positive samples |
| DailyStats.PositivesConcat | lara_cloud_data.py:104 | filtering a concatenation filters each part in turn, so cloudy samples keep their order |
| DailyStats.PositivesSingle | lara_cloud_data.py:104 | a single sample is kept exactly when it is positive |
| DailyStats.Min | lara_cloud_data.py:107 | `np.min` is a member no larger than any other |
| DailyStats.Max | lara_cloud_data.py:108 | `np.max` is a member no smaller than any other |
| DailyStats.Mean | lara_cloud_data.py:109 | `np.mean` times the count is the sum |
| DailyStats.PositivesComplete | lara_cloud_data.py:104 | every positive sample of h1 is among the cloudy ones |
| DailyStats.PositivesAll | lara_cloud_data.py:104-105 | the cloudy count equals the sample count exactly when every sample is positive |
| DailyStats.PositivesNone | lara_cloud_data.py:104-106 | the cloudy count is zero exactly when no sample is positive |
| DailyStats.CloudFraction | lara_cloud_data.py:114-117 | cf lies in [0, 100] and, for a non-empty day, cf times the sample count is 100 times the cloudy count |
| DailyStats.CloudFractionAll | lara_cloud_data.py:114-117 | cf is 100 exactly when h1 is non-empty and all positive |
| DailyStats.CloudFractionNone | lara_cloud_data.py:114-117 | cf is 0 exactly when no sample is positive, an empty day included |
| DailyStats.SumBounds | lara_cloud_data.py:109 | bounds on each sample bound the sum by count times the bounds |
| DailyStats.MeanBounds | lara_cloud_data.py:109 | bounds on each sample bound `np.mean` |
| DailyStats.MeanBetween | lara_cloud_data.py:107-109 | min <= mean <= max |
| DailyStats.QuotientBounds | lara_cloud_data.py:109 | dividing bounds on a sum by a positive count bounds the mean |
| DailyStats.CloudyStats | lara_cloud_data.py:104-112 | on a cloudy day min and max are positive members of h1 that bracket the mean and every cloudy sample |
| DailyStats.ExampleDay | lara_cloud_data.py:103-117 | samples 150, 0, 200 give cf 200/3, min 150, max 200, mean 175 |
| DailyStats.Update | lara_cloud_data.py:102-117 | `stats` always sets cf to the cloud fraction, within [0, 100]; on a cloudy day min and max are positive members of h1 that bracket every cloudy sample (so they are the least and greatest), and mean is `Mean` of the cloudy samples; otherwise min, max and mean are left as they were |
| DailyStats.Saved | lara_cloud_data.py:131-135 | `save` writes the statistics exactly when mean exists, and loading them back gives the four values; with none written, loading gives zeros |
| DailyStats.SaveRestore | lara_cloud_data.py:83-92 | saving the statistics of a freshly read day and loading them back gives the computed cf, even on a clear day when nothing is written; on a cloudy day it gives all four |
| CloudRecord.CloudHeight.FromFeed | lara_cloud_data.py:23-72 | the record's lists are the parse of the feed and aligned; doy = jday and year = date[0:4] whether or not parsing succeeded; no statistic attribute yet |
| CloudRecord.CloudHeight.Stats | lara_cloud_data.py:102-117 | only cf, min, max and mean change; the new values are `Update` of h1 and the old values, with cf in [0, 100] and the cloudy-day facts |
| CloudRecord.FourDigitYear | lara_cloud_data.py:169 | a year 1000..9999 prints as four characters, so `zfill(2)` leaves it unchanged |
| CloudRecord.StoreFileName | lara_cloud_data.py:120 | the name is `./`, the year, `_`, at least three digits and `.h5`, and those digits denote `doy` |
| CloudRecord.DriverFileName | lara_cloud_data.py:171 | the driver's name is the store name of `str(year)` |
| CloudRecord.DateString | lara_cloud_data.py:169 | the date string has digits and underscores only; for a four-digit year it starts with `str(y)` and `_` |
| CloudRecord.FileNamesAgree | lara_cloud_data.py:169-171 | for a four-digit year, `save` on the record built from the driver's date writes the file the driver checks for |
| CloudRecord.StoreFileNameInjective | lara_cloud_data.py:120 | different days of one year are saved to different files |

## Left out

- Network retrieval: the URL built from the dataset tag and the date, and
  `urlopen` (lines 25, 34-35 and 41). The lines come in as a parameter, and
  `None` stands for any exception raised while retrieving them.
- The message printed by the `except` branch (line 63). Only its effect
  of ending the loop is modelled.
- `line.decode("utf-8")` (line 43). Lines are already strings, so the
  `UnicodeDecodeError` that an ill-formed line would raise, ending the loop
  like any other exception, is not modelled.
- The `datetime` computation of `jday` and the parsing of `date` into
  `y0`, `m0` and `d0` (lines 27 and 38). `jday` is a natural number input.
  An ill-formed date, which raises before the `try`, is not modelled.
- `float()` (lines 48-51 and 59-61) is the parameter `conv`. IEEE rounding,
  `nan`, `inf` and numpy arrays are not modelled; heights and times are
  `real`.
- The assignment `self.doy = jday` inside the loop (line 49). Line 71
  always overwrites it, so it has no visible effect.
- The HDF5 branch of the constructor and `save` (lines 73-93 and 121-136).
  They are foreign library calls. What they keep of the statistics is
  abstracted as `Saved`/`Restored`. Only the file name string of `save` is
  modelled.
- `plot` (lines 95-99) and the `__main__` driver (lines 145-183). This
  covers plotting, printing, `os.path.isfile` and the loops over days.
  Only the driver's date string and file name are modelled.
- The weekday half of `calendar.monthrange`. `jday2yyyymmdd` uses only the
  day count.
- `str()` of negative numbers. Years and day numbers are natural numbers.
