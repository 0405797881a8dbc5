/**
 * The ceilometer feed parser: the web branch of `cloud_height.__init__`.
 * The retrieved text lines come in as a value (`None` when the retrieval
 * itself failed); `float()` of a field is the parameter `conv`, which gives
 * `None` where Python raises.  Times are hours as `real`.
 *
 * The specification functions take each data line already cut into its kept
 * columns (a `Row`); cutting never fails, so this is the same computation
 * as the source's split inside the loop, which `ReadLine` performs.
 */
module Feed {
  import opened Optional
  import opened Text

  /** `float()` of a string: its value, or `None` where it raises. */
  type Conv = string -> Option<real>

  /** The kept columns of one data line. */
  type Row = seq<string>

  /** The five lists the parser appends to: julian time, local time, three cloud bases. */
  datatype Series = Series(jul: seq<real>, loc: seq<real>, h1: seq<real>, h2: seq<real>, h3: seq<real>)

  const NoSamples := Series([], [], [], [], [])

  /** The rollover state: the running offset `hh0` and the previous local time. */
  datatype Clock = Clock(hh0: real, previous: real)

  const Midnight := Clock(0.0, 0.0)

  /** Where a run of the parser stands: what it collected, its clock, and whether a line raised. */
  datatype Progress = Progress(series: Series, clock: Clock, failed: bool)

  /** Lines of header the parser skips (`lines[5:]`). */
  const HeaderLines := 5

  /** The lines the loop visits. */
  function Body(lines: seq<string>): seq<string> {
    if |lines| <= HeaderLines then [] else lines[HeaderLines..]
  }

  /** The fields longer than one character, in order. */
  function LongFields(fields: seq<string>): seq<string>
    decreases |fields|
  {
    if |fields| == 0 then []
    else if |fields[0]| > 1 then [fields[0]] + LongFields(fields[1..])
    else LongFields(fields[1..])
  }

  /** The filter keeps exactly the fields longer than one character, and adds nothing. */
  lemma {:induction false} LongFieldsKept(fields: seq<string>)
    ensures |LongFields(fields)| <= |fields|
    ensures forall f :: f in LongFields(fields) <==> f in fields && |f| > 1
    decreases |fields|
  {
    if |fields| > 0 {
      LongFieldsKept(fields[1..]);
      assert fields == [fields[0]] + fields[1..];
    }
  }

  /** Filtering a list is filtering its parts one after the other: the kept fields stay in order. */
  lemma {:induction false} LongFieldsConcat(a: seq<string>, b: seq<string>)
    ensures LongFields(a + b) == LongFields(a) + LongFields(b)
    decreases |a|
  {
    if |a| > 0 {
      assert (a + b)[1..] == a[1..] + b;
      LongFieldsConcat(a[1..], b);
    } else {
      assert a + b == b;
    }
  }

  /** One field is kept, once, exactly when it is longer than one character. */
  lemma LongFieldsSingle(f: string)
    ensures LongFields([f]) == if |f| > 1 then [f] else []
  {
  }

  /** The kept columns of a line: its tab fields longer than one character. */
  function Columns(line: string): Row {
    LongFields(Split(line, '\t'))
  }

  /**
   * A field of the line is a column exactly when it is longer than one
   * character: shorter fields are dropped, nothing else is, and no column
   * holds a tab.
   */
  lemma ColumnsKept(line: string)
    ensures forall f :: f in Columns(line) <==> f in Split(line, '\t') && |f| > 1
    ensures forall k :: 0 <= k < |Columns(line)| ==> '\t' !in Columns(line)[k]
  {
    SplitPiecesFree(line, '\t');
    LongFieldsKept(Split(line, '\t'));
  }

  /** Every line of the body cut into its columns. */
  function Rows(lines: seq<string>): seq<Row> {
    seq(|lines|, i requires 0 <= i < |lines| => Columns(lines[i]))
  }

  /** `hh + mm/60 + ss/3600` from characters 0-1, 3-4 and 6-7 of the time field. */
  function RawHours(field: string, conv: Conv): (r: Option<real>)
    ensures r.Some? <==> conv(Slice(field, 0, 2)).Some? && conv(Slice(field, 3, 5)).Some? && conv(Slice(field, 6, 8)).Some?
    ensures r.Some? && 0.0 <= conv(Slice(field, 0, 2)).value <= 23.0
            && 0.0 <= conv(Slice(field, 3, 5)).value <= 59.0 && 0.0 <= conv(Slice(field, 6, 8)).value < 60.0
            ==> 0.0 <= r.value < 24.0
  {
    var hh := conv(Slice(field, 0, 2));
    var mm := conv(Slice(field, 3, 5));
    var ss := conv(Slice(field, 6, 8));
    if hh.Some? && mm.Some? && ss.Some? then
      Some(hh.value + mm.value / 60.0 + ss.value / 3600.0)
    else None
  }

  /** The reading is the hours, plus the minutes over 60, plus the seconds over 3600. */
  lemma RawHoursValue(field: string, conv: Conv)
    ensures RawHours(field, conv).Some? ==>
              3600.0 * RawHours(field, conv).value == 3600.0 * conv(Slice(field, 0, 2)).value
                + 60.0 * conv(Slice(field, 3, 5)).value + conv(Slice(field, 6, 8)).value
  {
  }

  /** The clock reading of a row's first column, if it has one that converts. */
  function Reading(row: Row, conv: Conv): Option<real> {
    if |row| == 0 then None else RawHours(row[0], conv)
  }

  /**
   * The midnight rollover of one sample with clock reading `raw`: the new
   * clock, whose `previous` is the sample's local time.  On a rollover the
   * offset grows by 24 and is added a second time, on top of the old offset
   * already in the candidate.
   */
  function Advance(c: Clock, raw: real): (c': Clock)
    ensures c'.hh0 == c.hh0 || c'.hh0 == c.hh0 + 24.0
    ensures c'.hh0 != c.hh0 <==> raw + c.hh0 < c.previous
    ensures c'.previous == raw + c.hh0 + (if c'.hh0 == c.hh0 then 0.0 else c'.hh0)
  {
    var candidate := raw + c.hh0;
    if candidate < c.previous then
      var hh0 := c.hh0 + 24.0;
      Clock(hh0, candidate + hh0)
    else Clock(c.hh0, candidate)
  }

  /** The three height columns, appended one by one until one is missing or raises. */
  function AppendHeights(s: Series, c: Clock, row: Row, conv: Conv): (p: Progress)
    ensures p.clock == c && p.series.jul == s.jul && p.series.loc == s.loc
    ensures s.h1 <= p.series.h1 && s.h2 <= p.series.h2 && s.h3 <= p.series.h3
    ensures |p.series.h3| <= |p.series.h2| - |s.h2| + |s.h3| <= |p.series.h1| - |s.h1| + |s.h3| <= |s.h3| + 1
    ensures !p.failed <==> |p.series.h3| == |s.h3| + 1
    ensures |p.series.h1| == |s.h1| + 1 <==> |row| > 1 && conv(row[1]).Some?
    ensures |p.series.h2| == |s.h2| + 1 <==> |p.series.h1| == |s.h1| + 1 && |row| > 2 && conv(row[2]).Some?
    ensures |p.series.h3| == |s.h3| + 1 <==> |p.series.h2| == |s.h2| + 1 && |row| > 3 && conv(row[3]).Some?
    ensures |p.series.h1| > |s.h1| ==> |row| > 1 && conv(row[1]) == Some(p.series.h1[|s.h1|])
    ensures |p.series.h2| > |s.h2| ==> |row| > 2 && conv(row[2]) == Some(p.series.h2[|s.h2|])
    ensures |p.series.h3| > |s.h3| ==> |row| > 3 && conv(row[3]) == Some(p.series.h3[|s.h3|])
  {
    var v1 := if |row| > 1 then conv(row[1]) else None;
    if v1.None? then Progress(s, c, true)
    else
      var s1 := s.(h1 := s.h1 + [v1.value]);
      var v2 := if |row| > 2 then conv(row[2]) else None;
      if v2.None? then Progress(s1, c, true)
      else
        var s2 := s1.(h2 := s1.h2 + [v2.value]);
        var v3 := if |row| > 3 then conv(row[3]) else None;
        if v3.None? then Progress(s2, c, true)
        else Progress(s2.(h3 := s2.h3 + [v3.value]), c, false)
  }

  /** One pass of the loop body over one data line. */
  function Step(s: Series, c: Clock, row: Row, jday: nat, conv: Conv): (p: Progress)
    ensures Reading(row, conv).None? ==> p == Progress(s, c, true)
    ensures Reading(row, conv).Some? ==>
              && p.clock == Advance(c, Reading(row, conv).value)
              && p.series.loc == s.loc + [p.clock.previous]
              && p.series.jul == s.jul + [jday as real + p.clock.previous / 24.0]
  {
    match Reading(row, conv)
    case None => Progress(s, c, true)
    case Some(raw) =>
      var c' := Advance(c, raw);
      var t := c'.previous;
      var s' := s.(loc := s.loc + [t], jul := s.jul + [jday as real + t / 24.0]);
      AppendHeights(s', c', row, conv)
  }

  /** The loop over data lines; the first line that raises ends it. */
  function Run(s: Series, c: Clock, rows: seq<Row>, jday: nat, conv: Conv): (p: Progress)
    ensures Extends(s, p.series)
    ensures |p.series.loc| <= |s.loc| + |rows|
    ensures !p.failed ==> |p.series.loc| == |s.loc| + |rows|
    decreases |rows|
  {
    if |rows| == 0 then Progress(s, c, false)
    else
      var p := Step(s, c, rows[0], jday, conv);
      if p.failed then p else Run(p.series, p.clock, rows[1..], jday, conv)
  }

  /** What the parser leaves in its five lists for a feed (`None`: retrieval failed). */
  function Parse(feed: Option<seq<string>>, jday: nat, conv: Conv): (r: Series)
    ensures Aligned(r, jday)
    ensures feed.None? ==> r == NoSamples
    ensures feed.Some? ==> |r.loc| <= |Body(feed.value)|
  {
    match feed
    case None => NoSamples
    case Some(lines) =>
      RunAligned(NoSamples, Midnight, Rows(Body(lines)), jday, conv);
      Run(NoSamples, Midnight, Rows(Body(lines)), jday, conv).series
  }

  /**
   * The parallel lists agree: julian and local time have one entry per
   * sample, with `jul = jday + loc/24`; the height lists trail the time lists
   * by at most the one sample whose line raised part-way.
   */
  predicate Aligned(s: Series, jday: nat) {
    && |s.jul| == |s.loc|
    && |s.h3| <= |s.h2| <= |s.h1| <= |s.loc| <= |s.h3| + 1
    && forall i :: 0 <= i < |s.loc| ==> s.jul[i] == jday as real + s.loc[i] / 24.0
  }

  predicate Complete(s: Series) {
    |s.h1| == |s.loc| && |s.h2| == |s.loc| && |s.h3| == |s.loc|
  }

  /** Every list of `s` is a prefix of the same list of `t`. */
  predicate Extends(s: Series, t: Series) {
    && s.jul <= t.jul && s.loc <= t.loc
    && s.h1 <= t.h1 && s.h2 <= t.h2 && s.h3 <= t.h3
  }

  /**
   * The loop body for one data line.  `ok` is false where Python raises; the
   * lists then keep whatever was appended before the failing conversion.
   */
  method ReadLine(s0: Series, hh0: real, previous: real, line: string, jday: nat, conv: Conv)
    returns (s: Series, hh0': real, previous': real, ok: bool)
    ensures Step(s0, Clock(hh0, previous), Columns(line), jday, conv) == Progress(s, Clock(hh0', previous'), !ok)
  {
    s, hh0', previous', ok := s0, hh0, previous, false;
    var columns := Columns(line);
    if |columns| == 0 {
      return;
    }
    var hh := conv(Slice(columns[0], 0, 2));
    var mm := conv(Slice(columns[0], 3, 5));
    var ss := conv(Slice(columns[0], 6, 8));
    if hh.None? || mm.None? || ss.None? {
      return;
    }
    ghost var raw := hh.value + mm.value / 60.0 + ss.value / 3600.0;
    assert Reading(columns, conv) == Some(raw);
    var loc0 := hh.value + mm.value / 60.0 + ss.value / 3600.0 + hh0';
    if loc0 < previous' {
      hh0' := hh0' + 24.0;
      loc0 := loc0 + hh0';
    }
    previous' := loc0;
    assert Clock(hh0', previous') == Advance(Clock(hh0, previous), raw);
    s := s.(loc := s.loc + [loc0], jul := s.jul + [jday as real + loc0 / 24.0]);
    var v1 := if |columns| > 1 then conv(columns[1]) else None;
    if v1.None? {
      return;
    }
    s := s.(h1 := s.h1 + [v1.value]);
    var v2 := if |columns| > 2 then conv(columns[2]) else None;
    if v2.None? {
      return;
    }
    s := s.(h2 := s.h2 + [v2.value]);
    var v3 := if |columns| > 3 then conv(columns[3]) else None;
    if v3.None? {
      return;
    }
    s := s.(h3 := s.h3 + [v3.value]);
    ok := true;
  }

  /**
   * The parse loop over the lines after the header, with the offset and the
   * previous local time carried from line to line.  The first line that
   * raises ends it; an unreachable feed leaves every list empty.
   */
  method ReadSeries(feed: Option<seq<string>>, jday: nat, conv: Conv) returns (s: Series)
    ensures s == Parse(feed, jday, conv)
    ensures Aligned(s, jday)
  {
    s := NoSamples;
    if feed.None? {
      return;
    }
    var hh0 := 0.0;
    var previous := 0.0;
    var lines := Body(feed.value);
    ghost var rows := Rows(lines);
    var i := 0;
    while i < |lines|
      invariant 0 <= i <= |lines|
      invariant Run(s, Clock(hh0, previous), rows[i..], jday, conv) == Run(NoSamples, Midnight, rows, jday, conv)
    {
      assert rows[i..][1..] == rows[i + 1..];
      var ok;
      s, hh0, previous, ok := ReadLine(s, hh0, previous, lines[i], jday, conv);
      if !ok {
        return;
      }
      i := i + 1;
    }
  }

  // ---------------------------------------------------------------------
  // Shape of the result

  /** One line only appends, keeps the lists aligned, and completes them unless it raises. */
  lemma StepAligned(s: Series, c: Clock, row: Row, jday: nat, conv: Conv)
    ensures Extends(s, Step(s, c, row, jday, conv).series)
    ensures Aligned(s, jday) && Complete(s) ==> Aligned(Step(s, c, row, jday, conv).series, jday)
    ensures Complete(s) && !Step(s, c, row, jday, conv).failed ==> Complete(Step(s, c, row, jday, conv).series)
  {
  }

  /** A run keeps the lists aligned; one that reaches the end leaves them complete. */
  lemma {:induction false} RunAligned(s: Series, c: Clock, rows: seq<Row>, jday: nat, conv: Conv)
    requires Aligned(s, jday) && Complete(s)
    ensures Aligned(Run(s, c, rows, jday, conv).series, jday)
    ensures !Run(s, c, rows, jday, conv).failed ==> Complete(Run(s, c, rows, jday, conv).series)
    ensures |Run(s, c, rows, jday, conv).series.loc| <= |s.loc| + |rows|
    decreases |rows|
  {
    if |rows| > 0 {
      var p := Step(s, c, rows[0], jday, conv);
      StepAligned(s, c, rows[0], jday, conv);
      if !p.failed {
        RunAligned(p.series, p.clock, rows[1..], jday, conv);
      }
    }
  }

  /** Samples already collected are never changed by more lines of feed. */
  lemma {:induction false} RunPrefix(s: Series, c: Clock, a: seq<Row>, b: seq<Row>, jday: nat, conv: Conv)
    ensures Extends(Run(s, c, a, jday, conv).series, Run(s, c, a + b, jday, conv).series)
    decreases |a|
  {
    if |a| == 0 {
      assert a + b == b;
    } else {
      assert (a + b)[0] == a[0];
      assert (a + b)[1..] == a[1..] + b;
      var p := Step(s, c, a[0], jday, conv);
      if !p.failed {
        RunPrefix(p.series, p.clock, a[1..], b, jday, conv);
      }
    }
  }

  /** Cutting lines into rows works line by line. */
  lemma RowsAppend(a: seq<string>, b: seq<string>)
    ensures Rows(a + b) == Rows(a) + Rows(b)
  {
    forall k | 0 <= k < |a| + |b| ensures Rows(a + b)[k] == (Rows(a) + Rows(b))[k] {
      if k < |a| {
        assert (a + b)[k] == a[k];
      } else {
        assert (a + b)[k] == b[k - |a|];
      }
    }
  }

  /** Once the header is complete, further lines are visited in order after the earlier ones. */
  lemma BodyAppend(lines: seq<string>, more: seq<string>)
    requires |lines| >= HeaderLines
    ensures Body(lines + more) == Body(lines) + more
  {
    assert |lines| == HeaderLines ==> lines + more == lines[..HeaderLines] + more;
    assert (lines + more)[HeaderLines..] == lines[HeaderLines..] + more;
  }

  /** A longer feed yields lists that begin with those of the shorter one. */
  lemma ParseExtends(lines: seq<string>, more: seq<string>, jday: nat, conv: Conv)
    ensures Extends(Parse(Some(lines), jday, conv), Parse(Some(lines + more), jday, conv))
  {
    if |lines| > HeaderLines {
      BodyAppend(lines, more);
      RowsAppend(Body(lines), more);
      RunPrefix(NoSamples, Midnight, Rows(Body(lines)), Rows(more), jday, conv);
    }
  }

  /** The header's content never matters: only the lines after the fifth are read. */
  lemma HeaderIgnored(header1: seq<string>, header2: seq<string>, data: seq<string>, jday: nat, conv: Conv)
    requires |header1| == HeaderLines && |header2| == HeaderLines
    ensures Parse(Some(header1 + data), jday, conv) == Parse(Some(header2 + data), jday, conv)
  {
    assert Body(header1 + data) == data;
    assert Body(header2 + data) == data;
  }

  /**
   * A data line with a time and only two height columns raises at the third:
   * its time and first two heights are kept, the run stops, and the time
   * lists end one longer than the third height list.
   */
  lemma TruncatedLine(s: Series, c: Clock, row: Row, rest: seq<Row>, jday: nat, conv: Conv)
    requires Aligned(s, jday) && Complete(s)
    requires |row| == 3 && Reading(row, conv).Some?
    requires conv(row[1]).Some? && conv(row[2]).Some?
    ensures Run(s, c, [row] + rest, jday, conv).failed
    ensures Run(s, c, [row] + rest, jday, conv).series.h3 == s.h3
    ensures |Run(s, c, [row] + rest, jday, conv).series.h2| == |s.h3| + 1
    ensures |Run(s, c, [row] + rest, jday, conv).series.loc| == |s.h3| + 1
  {
  }

  // ---------------------------------------------------------------------
  // Layout of a data line

  /** Tab-separated fields, each longer than one character, are exactly the kept columns. */
  lemma TabFields(fields: seq<string>)
    requires |fields| >= 1
    requires forall i :: 0 <= i < |fields| ==> '\t' !in fields[i] && |fields[i]| > 1
    ensures Columns(Join(fields, '\t')) == fields
  {
    SplitJoin(fields, '\t');
    AllLong(fields);
  }

  lemma {:induction false} AllLong(fields: seq<string>)
    requires forall i :: 0 <= i < |fields| ==> |fields[i]| > 1
    ensures LongFields(fields) == fields
    decreases |fields|
  {
    if |fields| > 0 {
      AllLong(fields[1..]);
      assert [fields[0]] + fields[1..] == fields;
    }
  }

  /** A row whose columns are all longer than one character and hold no tab. */
  predicate TabRow(row: Row) {
    |row| >= 1 && forall i :: 0 <= i < |row| ==> '\t' !in row[i] && |row[i]| > 1
  }

  /** The feed lines that carry the given rows: their columns joined by tabs. */
  function TabLines(rows: seq<Row>): (lines: seq<string>)
    ensures |lines| == |rows|
  {
    seq(|rows|, k requires 0 <= k < |rows| => Join(rows[k], '\t'))
  }

  /**
   * Any five header lines followed by tab-joined rows parse exactly as the
   * loop run over those rows.
   */
  lemma FeedOfRows(header: seq<string>, rows: seq<Row>, jday: nat, conv: Conv)
    requires |header| == HeaderLines
    requires forall k :: 0 <= k < |rows| ==> TabRow(rows[k])
    ensures Parse(Some(header + TabLines(rows)), jday, conv) == Run(NoSamples, Midnight, rows, jday, conv).series
  {
    assert Body(header + TabLines(rows)) == TabLines(rows);
    forall k | 0 <= k < |rows| ensures Rows(TabLines(rows))[k] == rows[k] {
      assert TabRow(rows[k]);
      TabFields(rows[k]);
    }
    assert Rows(TabLines(rows)) == rows;
  }

  /** A row with a time and three heights that all convert. */
  predicate FullRow(row: Row, conv: Conv) {
    && |row| >= 4
    && RawHours(row[0], conv).Some?
    && conv(row[1]).Some? && conv(row[2]).Some? && conv(row[3]).Some?
  }

  /** Every row is full. */
  predicate AllFull(rows: seq<Row>, conv: Conv)
    decreases |rows|
  {
    |rows| == 0 || (FullRow(rows[0], conv) && AllFull(rows[1..], conv))
  }

  /** Column `j` of a row, converted (0 where it is missing or does not convert). */
  function ColumnValue(row: Row, j: nat, conv: Conv): real {
    if |row| > j && conv(row[j]).Some? then conv(row[j]).value else 0.0
  }

  /** Column `j` of each row, converted, in row order. */
  function ColumnValues(rows: seq<Row>, j: nat, conv: Conv): (v: seq<real>)
    ensures |v| == |rows|
    decreases |rows|
  {
    if |rows| == 0 then []
    else [ColumnValue(rows[0], j, conv)] + ColumnValues(rows[1..], j, conv)
  }

  /** Entry `k` of column `j` is the conversion of that row's column `j`. */
  lemma {:induction false} ColumnValuesAt(rows: seq<Row>, j: nat, k: nat, conv: Conv)
    requires 1 <= j <= 3 && AllFull(rows, conv) && k < |rows|
    ensures |rows[k]| > j && Some(ColumnValues(rows, j, conv)[k]) == conv(rows[k][j])
    decreases k
  {
    if k > 0 {
      ColumnValuesAt(rows[1..], j, k - 1, conv);
    }
  }

  /** A full row never raises: it appends one local time. */
  lemma StepFull(s: Series, c: Clock, row: Row, jday: nat, conv: Conv)
    requires FullRow(row, conv)
    ensures !Step(s, c, row, jday, conv).failed
    ensures |Step(s, c, row, jday, conv).series.loc| == |s.loc| + 1
  {
  }

  /** A full row appends its columns 1, 2 and 3 to the three height lists. */
  lemma StepColumns(s: Series, c: Clock, row: Row, jday: nat, conv: Conv)
    requires FullRow(row, conv)
    ensures Step(s, c, row, jday, conv).series.h1 == s.h1 + [ColumnValue(row, 1, conv)]
    ensures Step(s, c, row, jday, conv).series.h2 == s.h2 + [ColumnValue(row, 2, conv)]
    ensures Step(s, c, row, jday, conv).series.h3 == s.h3 + [ColumnValue(row, 3, conv)]
  {
  }

  /** When every row is full, the run reaches the end with one sample per row. */
  lemma {:induction false} RunFull(s: Series, c: Clock, rows: seq<Row>, jday: nat, conv: Conv)
    requires AllFull(rows, conv)
    ensures !Run(s, c, rows, jday, conv).failed
    ensures |Run(s, c, rows, jday, conv).series.loc| == |s.loc| + |rows|
    decreases |rows|
  {
    if |rows| > 0 {
      var p := Step(s, c, rows[0], jday, conv);
      StepFull(s, c, rows[0], jday, conv);
      RunFull(p.series, p.clock, rows[1..], jday, conv);
    }
  }

  /** When every row is full, height list `j` gains column `j` of every row, in line order. */
  lemma {:induction false} RunColumns(s: Series, c: Clock, rows: seq<Row>, jday: nat, conv: Conv)
    requires AllFull(rows, conv)
    ensures Run(s, c, rows, jday, conv).series.h1 == s.h1 + ColumnValues(rows, 1, conv)
    ensures Run(s, c, rows, jday, conv).series.h2 == s.h2 + ColumnValues(rows, 2, conv)
    ensures Run(s, c, rows, jday, conv).series.h3 == s.h3 + ColumnValues(rows, 3, conv)
    decreases |rows|
  {
    if |rows| == 0 {
      assert s.h1 + [] == s.h1 && s.h2 + [] == s.h2 && s.h3 + [] == s.h3;
    } else {
      var p := Step(s, c, rows[0], jday, conv);
      var t := p.series;
      assert Run(s, c, rows, jday, conv) == Run(t, p.clock, rows[1..], jday, conv) by {
        StepFull(s, c, rows[0], jday, conv);
        RunTail(s, c, rows, jday, conv);
      }
      assert t.h1 == s.h1 + [ColumnValue(rows[0], 1, conv)]
          && t.h2 == s.h2 + [ColumnValue(rows[0], 2, conv)]
          && t.h3 == s.h3 + [ColumnValue(rows[0], 3, conv)] by {
        StepColumns(s, c, rows[0], jday, conv);
      }
      RunColumns(t, p.clock, rows[1..], jday, conv);
      ShiftHead(s.h1, ColumnValue(rows[0], 1, conv), ColumnValues(rows[1..], 1, conv));
      ShiftHead(s.h2, ColumnValue(rows[0], 2, conv), ColumnValues(rows[1..], 2, conv));
      ShiftHead(s.h3, ColumnValue(rows[0], 3, conv), ColumnValues(rows[1..], 3, conv));
    }
  }

  lemma ShiftHead(a: seq<real>, x: real, b: seq<real>)
    ensures a + ([x] + b) == (a + [x]) + b
  {
  }

  /** A run whose first row does not raise goes on from the state that row leaves. */
  lemma RunTail(s: Series, c: Clock, rows: seq<Row>, jday: nat, conv: Conv)
    requires |rows| > 0 && !Step(s, c, rows[0], jday, conv).failed
    ensures Run(s, c, rows, jday, conv)
            == Run(Step(s, c, rows[0], jday, conv).series, Step(s, c, rows[0], jday, conv).clock, rows[1..], jday, conv)
  {
  }

  /** A row that raises ends the run: what it left is what the parser keeps. */
  lemma RunStops(s: Series, c: Clock, rows: seq<Row>, jday: nat, conv: Conv)
    requires |rows| > 0 && Step(s, c, rows[0], jday, conv).failed
    ensures Run(s, c, rows, jday, conv) == Step(s, c, rows[0], jday, conv)
  {
  }

  /** Once a run has raised, the lines after it make no difference, whatever they hold. */
  lemma {:induction false} TailIgnored(s: Series, c: Clock, a: seq<Row>, b: seq<Row>, jday: nat, conv: Conv)
    requires Run(s, c, a, jday, conv).failed
    ensures Run(s, c, a + b, jday, conv) == Run(s, c, a, jday, conv)
    decreases |a|
  {
    assert |a| > 0;
    assert (a + b)[0] == a[0];
    var p := Step(s, c, a[0], jday, conv);
    if !p.failed {
      assert (a + b)[1..] == a[1..] + b;
      TailIgnored(p.series, p.clock, a[1..], b, jday, conv);
    }
  }

  /**
   * A feed whose data lines are all full parses to one complete sample per
   * data line, with heights from columns 1, 2 and 3.
   */
  lemma ParseFull(lines: seq<string>, jday: nat, conv: Conv)
    requires AllFull(Rows(Body(lines)), conv)
    ensures Complete(Parse(Some(lines), jday, conv))
    ensures |Parse(Some(lines), jday, conv).loc| == |Body(lines)|
    ensures Parse(Some(lines), jday, conv).h1 == ColumnValues(Rows(Body(lines)), 1, conv)
    ensures Parse(Some(lines), jday, conv).h2 == ColumnValues(Rows(Body(lines)), 2, conv)
    ensures Parse(Some(lines), jday, conv).h3 == ColumnValues(Rows(Body(lines)), 3, conv)
  {
    RunFull(NoSamples, Midnight, Rows(Body(lines)), jday, conv);
    RunColumns(NoSamples, Midnight, Rows(Body(lines)), jday, conv);
  }

  // ---------------------------------------------------------------------
  // The rollover offset and the ordering of local times

  /** A non-negative whole number of days, in hours. */
  predicate WholeDays(x: real) {
    x >= 0.0 && x == ((x / 24.0).Floor * 24) as real
  }

  /** One sample moves the offset by nothing or by exactly one day. */
  lemma AdvanceWholeDays(c: Clock, raw: real)
    requires WholeDays(c.hh0)
    ensures Advance(c, raw).hh0 == c.hh0 || Advance(c, raw).hh0 == c.hh0 + 24.0
    ensures WholeDays(Advance(c, raw).hh0)
  {
    if Advance(c, raw).hh0 != c.hh0 {
      NextDay(c.hh0);
    }
  }

  /** A whole number of days plus one day is again a whole number of days. */
  lemma NextDay(x: real)
    requires WholeDays(x)
    ensures WholeDays(x + 24.0)
  {
    var n := (x / 24.0).Floor;
    assert x / 24.0 == n as real;
    assert (x + 24.0) / 24.0 == (n + 1) as real;
  }

  /** The offset `hh0` never decreases and stays a whole number of days. */
  lemma {:induction false} OffsetWholeDays(s: Series, c: Clock, rows: seq<Row>, jday: nat, conv: Conv)
    requires WholeDays(c.hh0)
    ensures WholeDays(Run(s, c, rows, jday, conv).clock.hh0)
    ensures Run(s, c, rows, jday, conv).clock.hh0 >= c.hh0
    decreases |rows|
  {
    if |rows| > 0 {
      var p := Step(s, c, rows[0], jday, conv);
      if Reading(rows[0], conv).Some? {
        AdvanceWholeDays(c, Reading(rows[0], conv).value);
      }
      if !p.failed {
        OffsetWholeDays(p.series, p.clock, rows[1..], jday, conv);
      }
    }
  }

  /** Parsing starts from offset 0, so the final offset is a whole number of days. */
  lemma ParseOffset(lines: seq<string>, jday: nat, conv: Conv)
    ensures WholeDays(Run(NoSamples, Midnight, Rows(Body(lines)), jday, conv).clock.hh0)
  {
    assert WholeDays(0.0);
    OffsetWholeDays(NoSamples, Midnight, Rows(Body(lines)), jday, conv);
  }

  /** The row's clock reading lies within one day (or the row does not parse). */
  predicate InDay(row: Row, conv: Conv) {
    Reading(row, conv).Some? ==> 0.0 <= Reading(row, conv).value < 24.0
  }

  predicate AllInDay(rows: seq<Row>, conv: Conv) {
    forall k :: 0 <= k < |rows| ==> InDay(rows[k], conv)
  }

  predicate NonDecreasing(xs: seq<real>) {
    forall i, j :: 0 <= i < j < |xs| ==> xs[i] <= xs[j]
  }

  /**
   * What keeps local times ordered despite the double offset: the offset is
   * non-negative and the previous local time is at most twice it plus a day.
   */
  predicate ClockBound(c: Clock) {
    c.hh0 >= 0.0 && c.previous <= 2.0 * c.hh0 + 24.0
  }

  /** A sample read within the day is never earlier than the previous one. */
  lemma AdvanceOrdered(c: Clock, raw: real)
    requires ClockBound(c) && 0.0 <= raw < 24.0
    ensures Advance(c, raw).previous >= c.previous
    ensures ClockBound(Advance(c, raw))
  {
  }

  lemma {:induction false} RunOrdered(s: Series, c: Clock, rows: seq<Row>, jday: nat, conv: Conv)
    requires ClockBound(c)
    requires NonDecreasing(s.loc) && forall i :: 0 <= i < |s.loc| ==> s.loc[i] <= c.previous
    requires AllInDay(rows, conv)
    ensures NonDecreasing(Run(s, c, rows, jday, conv).series.loc)
    decreases |rows|
  {
    if |rows| > 0 {
      var p := Step(s, c, rows[0], jday, conv);
      if Reading(rows[0], conv).Some? {
        assert InDay(rows[0], conv);
        AdvanceOrdered(c, Reading(rows[0], conv).value);
      }
      if !p.failed {
        RunOrdered(p.series, p.clock, rows[1..], jday, conv);
      }
    }
  }

  /** If every clock reading lies in [0, 24), the local times come out non-decreasing. */
  lemma LocalTimesNonDecreasing(lines: seq<string>, jday: nat, conv: Conv)
    requires AllInDay(Rows(Body(lines)), conv)
    ensures NonDecreasing(Parse(Some(lines), jday, conv).loc)
  {
    RunOrdered(NoSamples, Midnight, Rows(Body(lines)), jday, conv);
  }

  /**
   * A clock whose offset has reached two days and whose previous time sits
   * near twice it: the state every rollover from an offset of at least a day
   * leaves behind.
   */
  predicate RunawayClock(c: Clock) {
    c.hh0 >= 48.0 && c.previous >= 2.0 * c.hh0 - 24.0
  }

  /** A second (or later) rollover puts the clock into the runaway state. */
  lemma SecondRollover(c: Clock, raw: real)
    requires c.hh0 >= 24.0 && 0.0 <= raw
    requires raw + c.hh0 < c.previous
    ensures RunawayClock(Advance(c, raw))
  {
  }

  /** From the runaway state every sample read within the day is a rollover again. */
  lemma RunawayStep(c: Clock, raw: real)
    requires RunawayClock(c) && 0.0 <= raw < 24.0
    ensures raw + c.hh0 < c.previous
    ensures Advance(c, raw).hh0 == c.hh0 + 24.0
    ensures RunawayClock(Advance(c, raw))
  {
  }

  /**
   * Once runaway, the offset grows by a day for every later sample: each of
   * them takes the rollover branch.
   */
  lemma {:induction false} RunawayRun(s: Series, c: Clock, rows: seq<Row>, jday: nat, conv: Conv)
    requires RunawayClock(c)
    requires AllInDay(rows, conv)
    ensures |Run(s, c, rows, jday, conv).series.loc| >= |s.loc|
    ensures Run(s, c, rows, jday, conv).clock.hh0
            == c.hh0 + 24.0 * (|Run(s, c, rows, jday, conv).series.loc| - |s.loc|) as real
    decreases |rows|
  {
    if |rows| > 0 {
      var p := Step(s, c, rows[0], jday, conv);
      if Reading(rows[0], conv).Some? {
        assert InDay(rows[0], conv);
        RunawayStep(c, Reading(rows[0], conv).value);
        if !p.failed {
          RunawayRun(p.series, p.clock, rows[1..], jday, conv);
        }
      }
    }
  }

  // ---------------------------------------------------------------------
  // A worked feed

  /** The conversions the worked feed needs, as `float()` gives them. */
  predicate ExampleConv(conv: Conv) {
    && conv("09") == Some(9.0) && conv("08") == Some(8.0)
    && conv("00") == Some(0.0) && conv("30") == Some(30.0)
    && conv("150.0") == Some(150.0) && conv("200.0") == Some(200.0)
    && conv("0.0") == Some(0.0) && conv("0.0\n") == Some(0.0)
  }

  /** The clock readings of the worked feed's rows: 9, 9.5 and 8 hours. */
  lemma ExampleReadings(conv: Conv)
    requires ExampleConv(conv)
    ensures Reading(["09:00:00", "150.0", "0.0", "0.0\n"], conv) == Some(9.0)
    ensures Reading(["09:30:00", "0.0", "0.0", "0.0\n"], conv) == Some(9.5)
    ensures Reading(["08:00:00", "200.0", "0.0", "0.0\n"], conv) == Some(8.0)
  {
    assert Slice("09:00:00", 0, 2) == "09" && Slice("09:00:00", 3, 5) == "00" && Slice("09:00:00", 6, 8) == "00";
    assert Slice("09:30:00", 0, 2) == "09" && Slice("09:30:00", 3, 5) == "30" && Slice("09:30:00", 6, 8) == "00";
    assert Slice("08:00:00", 0, 2) == "08" && Slice("08:00:00", 3, 5) == "00" && Slice("08:00:00", 6, 8) == "00";
  }

  /** The worked feed's rows, one step at a time: the third reading is a rollover. */
  lemma ExampleSteps(conv: Conv)
    requires ExampleConv(conv)
    ensures Step(NoSamples, Midnight, ["09:00:00", "150.0", "0.0", "0.0\n"], 1, conv)
            == Progress(Series([1.0 + 9.0 / 24.0], [9.0], [150.0], [0.0], [0.0]), Clock(0.0, 9.0), false)
    ensures Step(Series([1.0 + 9.0 / 24.0], [9.0], [150.0], [0.0], [0.0]), Clock(0.0, 9.0),
                 ["09:30:00", "0.0", "0.0", "0.0\n"], 1, conv)
            == Progress(Series([1.0 + 9.0 / 24.0, 1.0 + 9.5 / 24.0], [9.0, 9.5], [150.0, 0.0], [0.0, 0.0], [0.0, 0.0]),
                        Clock(0.0, 9.5), false)
    ensures Step(Series([1.0 + 9.0 / 24.0, 1.0 + 9.5 / 24.0], [9.0, 9.5], [150.0, 0.0], [0.0, 0.0], [0.0, 0.0]),
                 Clock(0.0, 9.5), ["08:00:00", "200.0", "0.0", "0.0\n"], 1, conv)
            == Progress(Series([1.0 + 9.0 / 24.0, 1.0 + 9.5 / 24.0, 1.0 + 32.0 / 24.0], [9.0, 9.5, 32.0],
                               [150.0, 0.0, 200.0], [0.0, 0.0, 0.0], [0.0, 0.0, 0.0]),
                        Clock(24.0, 32.0), false)
  {
    ExampleReadings(conv);
    FirstStep(conv);
    SecondStep(conv);
    ThirdStep(conv);
  }

  lemma FirstStep(conv: Conv)
    requires ExampleConv(conv) && Reading(["09:00:00", "150.0", "0.0", "0.0\n"], conv) == Some(9.0)
    ensures Step(NoSamples, Midnight, ["09:00:00", "150.0", "0.0", "0.0\n"], 1, conv)
            == Progress(Series([1.0 + 9.0 / 24.0], [9.0], [150.0], [0.0], [0.0]), Clock(0.0, 9.0), false)
  {
    assert Advance(Midnight, 9.0) == Clock(0.0, 9.0);
  }

  lemma SecondStep(conv: Conv)
    requires ExampleConv(conv) && Reading(["09:30:00", "0.0", "0.0", "0.0\n"], conv) == Some(9.5)
    ensures Step(Series([1.0 + 9.0 / 24.0], [9.0], [150.0], [0.0], [0.0]), Clock(0.0, 9.0),
                 ["09:30:00", "0.0", "0.0", "0.0\n"], 1, conv)
            == Progress(Series([1.0 + 9.0 / 24.0, 1.0 + 9.5 / 24.0], [9.0, 9.5], [150.0, 0.0], [0.0, 0.0], [0.0, 0.0]),
                        Clock(0.0, 9.5), false)
  {
    assert Advance(Clock(0.0, 9.0), 9.5) == Clock(0.0, 9.5);
  }

  lemma ThirdStep(conv: Conv)
    requires ExampleConv(conv) && Reading(["08:00:00", "200.0", "0.0", "0.0\n"], conv) == Some(8.0)
    ensures Step(Series([1.0 + 9.0 / 24.0, 1.0 + 9.5 / 24.0], [9.0, 9.5], [150.0, 0.0], [0.0, 0.0], [0.0, 0.0]),
                 Clock(0.0, 9.5), ["08:00:00", "200.0", "0.0", "0.0\n"], 1, conv)
            == Progress(Series([1.0 + 9.0 / 24.0, 1.0 + 9.5 / 24.0, 1.0 + 32.0 / 24.0], [9.0, 9.5, 32.0],
                               [150.0, 0.0, 200.0], [0.0, 0.0, 0.0], [0.0, 0.0, 0.0]),
                        Clock(24.0, 32.0), false)
  {
    assert Advance(Clock(0.0, 9.5), 8.0) == Clock(24.0, 32.0);
  }

  /**
   * Three samples read at 09:00:00, 09:30:00 and 08:00:00 on day 1: the
   * third is earlier than the second, so it rolls over and comes out at
   * 8 + 0 + 24 = 32 hours.  `FeedOfRows` turns these rows into feed lines.
   */
  lemma MidnightExample(conv: Conv)
    requires ExampleConv(conv)
    ensures var r := Run(NoSamples, Midnight, [["09:00:00", "150.0", "0.0", "0.0\n"],
                                               ["09:30:00", "0.0", "0.0", "0.0\n"],
                                               ["08:00:00", "200.0", "0.0", "0.0\n"]], 1, conv);
      && !r.failed
      && r.series.loc == [9.0, 9.5, 32.0]
      && r.series.jul == [1.0 + 9.0 / 24.0, 1.0 + 9.5 / 24.0, 1.0 + 32.0 / 24.0]
      && r.series.h1 == [150.0, 0.0, 200.0]
      && r.series.h2 == [0.0, 0.0, 0.0] && r.series.h3 == [0.0, 0.0, 0.0]
  {
    var r1, r2, r3 := ["09:00:00", "150.0", "0.0", "0.0\n"], ["09:30:00", "0.0", "0.0", "0.0\n"], ["08:00:00", "200.0", "0.0", "0.0\n"];
    ExampleSteps(conv);
    assert [r1, r2, r3][1..] == [r2, r3];
    assert [r2, r3][1..] == [r3];
  }
}
