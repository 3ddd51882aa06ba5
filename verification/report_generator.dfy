/** The log activity analyser: a log file is read line by line, every line
    that starts with a bracketed `YYYY-MM-DD HH:MM:SS` timestamp is counted
    in the bucket of its minute, and the buckets are ordered by time to
    form the plotted series. A log file is given as its lines (`None` when
    the file does not exist). */
module ReportGenerator {
  import opened TextUtil

  /** A `datetime.datetime` without sub-second part. */
  datatype DateTime = DateTime(year: int, month: int, day: int, hour: int, minute: int, second: int)

  predicate IsLeapYear(year: int) {
    year % 4 == 0 && (year % 100 != 0 || year % 400 == 0)
  }

  function DaysInMonth(year: int, month: int): int
    requires 1 <= month <= 12
  {
    if month == 2 then (if IsLeapYear(year) then 29 else 28)
    else if month == 4 || month == 6 || month == 9 || month == 11 then 30
    else 31
  }

  /** The values `datetime.datetime` accepts (years 1 to 9999). */
  predicate ValidDateTime(t: DateTime) {
    && 1 <= t.year <= 9999
    && 1 <= t.month <= 12
    && 1 <= t.day <= DaysInMonth(t.year, t.month)
    && 0 <= t.hour < 24
    && 0 <= t.minute < 60
    && 0 <= t.second < 60
  }

  /** Chronological order: compares year, month, day, hour, minute and
      second, in that order. */
  predicate Before(a: DateTime, b: DateTime): (earlier: bool)
    ensures earlier ==> a != b
  {
    if a.year != b.year then a.year < b.year
    else if a.month != b.month then a.month < b.month
    else if a.day != b.day then a.day < b.day
    else if a.hour != b.hour then a.hour < b.hour
    else if a.minute != b.minute then a.minute < b.minute
    else a.second < b.second
  }

  predicate StrictlyAscending(ts: seq<DateTime>) {
    forall i, j :: 0 <= i < j < |ts| ==> Before(ts[i], ts[j])
  }

  // ---------------------------------------------------------------------
  // Timestamp text: `%Y-%m-%d %H:%M:%S`, every field written at full width

  predicate IsDigit(c: char) {
    '0' <= c <= '9'
  }

  function DigitValue(c: char): nat
    requires IsDigit(c)
  {
    (c as int) - ('0' as int)
  }

  function DigitChar(d: nat): (c: char)
    requires d < 10
    ensures IsDigit(c) && DigitValue(c) == d
  {
    (('0' as int) + d) as char
  }

  /** Two digits, zero-padded. */
  function Pad2(n: nat): (s: string)
    requires n < 100
  {
    [DigitChar(n / 10), DigitChar(n % 10)]
  }

  /** Four digits, zero-padded. */
  function Pad4(n: nat): (s: string)
    requires n < 10000
  {
    Pad2(n / 100) + Pad2(n % 100)
  }

  /** The zero-padded `YYYY-MM-DD HH:MM:SS` text of a valid timestamp. */
  function Format(t: DateTime): (s: string)
    requires ValidDateTime(t)
  {
    Pad4(t.year) + "-" + Pad2(t.month) + "-" + Pad2(t.day) + " "
      + Pad2(t.hour) + ":" + Pad2(t.minute) + ":" + Pad2(t.second)
  }

  /** Nineteen characters: digits with `-`, `-`, ` `, `:`, `:` at offsets
      4, 7, 10, 13 and 16. */
  predicate WellShaped(s: string) {
    && |s| == 19
    && s[4] == '-' && s[7] == '-' && s[10] == ' ' && s[13] == ':' && s[16] == ':'
    && forall i :: 0 <= i < 19 && i != 4 && i != 7 && i != 10 && i != 13 && i != 16 ==> IsDigit(s[i])
  }

  function Number2(s: string, i: nat): nat
    requires i + 2 <= |s| && IsDigit(s[i]) && IsDigit(s[i + 1])
  {
    10 * DigitValue(s[i]) + DigitValue(s[i + 1])
  }

  function Number4(s: string, i: nat): nat
    requires i + 4 <= |s| && IsDigit(s[i]) && IsDigit(s[i + 1]) && IsDigit(s[i + 2]) && IsDigit(s[i + 3])
  {
    100 * Number2(s, i) + Number2(s, i + 2)
  }

  lemma Pad2Number2(s: string, i: nat)
    requires i + 2 <= |s| && IsDigit(s[i]) && IsDigit(s[i + 1])
    ensures Number2(s, i) < 100 && Pad2(Number2(s, i)) == s[i..i + 2]
  {
    var n := Number2(s, i);
    assert n / 10 == DigitValue(s[i]) && n % 10 == DigitValue(s[i + 1]);
    assert DigitChar(DigitValue(s[i])) == s[i];
    assert DigitChar(DigitValue(s[i + 1])) == s[i + 1];
  }

  lemma Pad4Number4(s: string, i: nat)
    requires i + 4 <= |s| && IsDigit(s[i]) && IsDigit(s[i + 1]) && IsDigit(s[i + 2]) && IsDigit(s[i + 3])
    ensures Number4(s, i) < 10000 && Pad4(Number4(s, i)) == s[i..i + 4]
  {
    var n := Number4(s, i);
    Pad2Number2(s, i);
    Pad2Number2(s, i + 2);
    assert n / 100 == Number2(s, i) && n % 100 == Number2(s, i + 2);
    assert s[i..i + 4] == s[i..i + 2] + s[i + 2..i + 4];
  }

  /** `datetime.strptime(s, "%Y-%m-%d %H:%M:%S")` on full-width fields:
      `None` where Python raises, otherwise a valid timestamp. */
  function ParseTimestamp(s: string): (r: Option<DateTime>)
    ensures r.Some? ==> ValidDateTime(r.value)
  {
    if !WellShaped(s) then None
    else
      var t := DateTime(Number4(s, 0), Number2(s, 5), Number2(s, 8), Number2(s, 11), Number2(s, 14), Number2(s, 17));
      if ValidDateTime(t) then Some(t) else None
  }

  /** Only the formatted text of a valid timestamp parses, and it parses to
      that timestamp. */
  lemma FormatParsed(s: string)
    requires ParseTimestamp(s).Some?
    ensures Format(ParseTimestamp(s).value) == s
  {
    var t := ParseTimestamp(s).value;
    Pad4Number4(s, 0);
    Pad2Number2(s, 5);
    Pad2Number2(s, 8);
    Pad2Number2(s, 11);
    Pad2Number2(s, 14);
    Pad2Number2(s, 17);
    assert s == s[0..4] + [s[4]] + s[5..7] + [s[7]] + s[8..10] + [s[10]]
      + s[11..13] + [s[13]] + s[14..16] + [s[16]] + s[17..19];
  }

  lemma Number2Pad2(n: nat)
    requires n < 100
    ensures Number2(Pad2(n), 0) == n
  {
  }

  lemma Number4Pad4(n: nat)
    requires n < 10000
    ensures Number4(Pad4(n), 0) == n
  {
    var s := Pad4(n);
    Number2Pad2(n / 100);
    Number2Pad2(n % 100);
    assert Number2(s, 0) == Number2(Pad2(n / 100), 0);
    assert Number2(s, 2) == Number2(Pad2(n % 100), 0);
  }

  /** Parsing inverts formatting: every valid timestamp is read back from
      its own text. With `ParseTimestamp`'s postcondition this makes the
      parser accept exactly the formatted texts of valid timestamps. */
  lemma ParseFormat(t: DateTime)
    requires ValidDateTime(t)
    ensures ParseTimestamp(Format(t)) == Some(t)
  {
    var s := Format(t);
    assert s[0..4] == Pad4(t.year);
    assert s[5..7] == Pad2(t.month);
    assert s[8..10] == Pad2(t.day);
    assert s[11..13] == Pad2(t.hour);
    assert s[14..16] == Pad2(t.minute);
    assert s[17..19] == Pad2(t.second);
    Number4Pad4(t.year);
    Number2Pad2(t.month);
    Number2Pad2(t.day);
    Number2Pad2(t.hour);
    Number2Pad2(t.minute);
    Number2Pad2(t.second);
    assert Number4(s, 0) == Number4(s[0..4], 0);
    assert Number2(s, 5) == Number2(s[5..7], 0);
    assert Number2(s, 8) == Number2(s[8..10], 0);
    assert Number2(s, 11) == Number2(s[11..13], 0);
    assert Number2(s, 14) == Number2(s[14..16], 0);
    assert Number2(s, 17) == Number2(s[17..19], 0);
  }

  // ---------------------------------------------------------------------
  // One log line

  /** `line.split("]")[0]`: the text before the first `]`, or the whole
      line when it has none. */
  function BeforeFirstBracket(line: string): (r: string)
    ensures |r| <= |line| && r == line[..|r|]
    ensures forall i :: 0 <= i < |r| ==> r[i] != ']'
    ensures |r| < |line| ==> line[|r|] == ']'
  {
    if line == [] || line[0] == ']' then []
    else [line[0]] + BeforeFirstBracket(line[1..])
  }

  /** `s.lstrip("[")`: `s` without its leading `[` characters. */
  function StripOpenBrackets(s: string): (r: string)
    ensures |r| <= |s| && r == s[|s| - |r|..]
    ensures forall i :: 0 <= i < |s| - |r| ==> s[i] == '['
    ensures r != [] ==> r[0] != '['
  {
    if s != [] && s[0] == '[' then StripOpenBrackets(s[1..]) else s
  }

  /** The timestamp text of a log line. */
  function TimestampText(line: string): string {
    StripOpenBrackets(BeforeFirstBracket(line))
  }

  /** `timestamp.replace(second=0)`. */
  function TruncateToMinute(t: DateTime): (minute: DateTime)
    ensures minute.second == 0 && minute.(second := t.second) == t
    ensures ValidDateTime(t) ==> ValidDateTime(minute) && !Before(t, minute)
  {
    t.(second := 0)
  }

  /** The minute bucket a log line is counted in, or `None` when the line
      is skipped: it does not start with `[`, or its timestamp text does
      not parse. A counted line starts with `[`, and its bucket is a valid
      timestamp with zero seconds that agrees with the line's parsed
      timestamp on year, month, day, hour and minute. */
  function LineMinute(line: string): (r: Option<DateTime>)
    ensures r.Some? ==> |line| > 0 && line[0] == '['
    ensures r.Some? ==>
      var t := ParseTimestamp(TimestampText(line));
      && t.Some?
      && ValidDateTime(r.value) && r.value.second == 0
      && r.value.year == t.value.year && r.value.month == t.value.month && r.value.day == t.value.day
      && r.value.hour == t.value.hour && r.value.minute == t.value.minute
    ensures r.None? <==> (|line| == 0 || line[0] != '[' || ParseTimestamp(TimestampText(line)).None?)
  {
    if |line| > 0 && line[0] == '[' then
      match ParseTimestamp(TimestampText(line))
      case None => None
      case Some(t) => Some(TruncateToMinute(t))
    else None
  }

  // ---------------------------------------------------------------------
  // The per-minute tally

  /** `counts.get(minute, 0) + 1` stored under `minute`. */
  function Increment(counts: map<DateTime, nat>, minute: DateTime): (updated: map<DateTime, nat>)
    ensures updated.Keys == counts.Keys + {minute}
    ensures minute in counts ==> updated[minute] == counts[minute] + 1
    ensures minute !in counts ==> updated[minute] == 1
    ensures forall m :: m in counts && m != minute ==> updated[m] == counts[m]
  {
    counts[minute := (if minute in counts then counts[minute] else 0) + 1]
  }

  /** The mapping `parse_log_dates` builds from the lines of an existing
      log file: the lines are taken in order and each counted line
      increments its minute's bucket. */
  function Tally(lines: seq<string>): (counts: map<DateTime, nat>)
    ensures |counts| <= |lines|
    ensures forall m :: m in counts ==> 1 <= counts[m] <= |lines|
    decreases |lines|
  {
    if lines == [] then map[]
    else
      var counts := Tally(lines[..|lines| - 1]);
      match LineMinute(lines[|lines| - 1])
      case None => counts
      case Some(minute) => Increment(counts, minute)
  }

  /** The number of lines counted in the bucket of `minute`. */
  function Count(lines: seq<string>, minute: DateTime): (n: nat)
    ensures n <= |lines|
    decreases |lines|
  {
    if lines == [] then 0
    else Count(lines[..|lines| - 1], minute) + (if LineMinute(lines[|lines| - 1]) == Some(minute) then 1 else 0)
  }

  /** The number of lines that are counted at all. */
  function EntryCount(lines: seq<string>): (n: nat)
    ensures n <= |lines|
    decreases |lines|
  {
    if lines == [] then 0
    else EntryCount(lines[..|lines| - 1]) + (if LineMinute(lines[|lines| - 1]).Some? then 1 else 0)
  }

  /** One more line: a skipped line leaves the mapping unchanged; a counted
      line raises its own bucket by exactly 1 (creating it if needed) and
      leaves every other bucket as it was. */
  lemma {:induction false} TallyAppend(lines: seq<string>, line: string)
    ensures LineMinute(line).None? ==> Tally(lines + [line]) == Tally(lines)
    ensures LineMinute(line).Some? ==>
      var minute, before, after := LineMinute(line).value, Tally(lines), Tally(lines + [line]);
      && after.Keys == before.Keys + {minute}
      && after[minute] == (if minute in before then before[minute] else 0) + 1
      && forall k :: k in before && k != minute ==> after[k] == before[k]
  {
    assert (lines + [line])[..|lines|] == lines;
  }

  /** One more line of a log read from the start, as `Tally` takes it. */
  lemma TallyPrefixStep(lines: seq<string>, n: nat)
    requires n < |lines|
    ensures LineMinute(lines[n]).None? ==> Tally(lines[..n + 1]) == Tally(lines[..n])
    ensures LineMinute(lines[n]).Some? ==>
      Tally(lines[..n + 1]) == Increment(Tally(lines[..n]), LineMinute(lines[n]).value)
  {
    assert lines[..n + 1][..n] == lines[..n];
  }

  /** The buckets are exactly the minutes of the counted lines, and each
      bucket holds the number of lines counted in it, which is at least 1. */
  lemma {:induction false} TallyIsCount(lines: seq<string>, minute: DateTime)
    ensures minute in Tally(lines) <==> Count(lines, minute) > 0
    ensures minute in Tally(lines) ==> Tally(lines)[minute] == Count(lines, minute) >= 1
    decreases |lines|
  {
    if lines != [] {
      TallyIsCount(lines[..|lines| - 1], minute);
    }
  }

  /** A bucket exists exactly when some line is counted in it. */
  lemma {:induction false} TallyKeys(lines: seq<string>, minute: DateTime)
    ensures minute in Tally(lines) <==> exists i :: 0 <= i < |lines| && LineMinute(lines[i]) == Some(minute)
    decreases |lines|
  {
    if lines != [] {
      var prefix, line := lines[..|lines| - 1], lines[|lines| - 1];
      assert lines == prefix + [line];
      TallyKeys(prefix, minute);
      TallyAppend(prefix, line);
      if minute in Tally(lines) {
        if LineMinute(line) != Some(minute) {
          var i :| 0 <= i < |prefix| && LineMinute(prefix[i]) == Some(minute);
          assert lines[i] == prefix[i];
        }
      } else {
        forall i | 0 <= i < |lines|
          ensures LineMinute(lines[i]) != Some(minute)
        {
          if i < |prefix| {
            assert lines[i] == prefix[i];
          }
        }
      }
    }
  }

  /** A skipped line, wherever it stands, can be deleted from the log
      without changing the mapping. */
  lemma {:induction false} SkippedLineIrrelevant(before: seq<string>, line: string, after: seq<string>)
    requires LineMinute(line).None?
    ensures Tally(before + [line] + after) == Tally(before + after)
    decreases |after|
  {
    if after == [] {
      EmptyRight(before + [line]);
      EmptyRight(before);
      TakeSnoc(before, line);
    } else {
      var rest, last := after[..|after| - 1], after[|after| - 1];
      DropLast(after);
      SnocAssociative(before + [line], rest, last);
      SnocAssociative(before, rest, last);
      SkippedLineIrrelevant(before, line, rest);
      TallySameTail(before + [line] + rest, before + rest, last);
    }
  }

  /** Logs with the same mapping still have the same mapping after the
      same line is added to both. */
  lemma TallySameTail(a: seq<string>, b: seq<string>, line: string)
    requires Tally(a) == Tally(b)
    ensures Tally(a + [line]) == Tally(b + [line])
  {
    TakeSnoc(a, line);
    TakeSnoc(b, line);
  }

  /** `parse_log_dates(log_file)`: a missing file gives the empty mapping;
      otherwise the lines are read in order and every line that starts
      with `[` and whose timestamp text parses increments the bucket of its
      minute. */
  method ParseLogDates(logFile: Option<seq<string>>) returns (counts: map<DateTime, nat>)
    ensures logFile.None? ==> counts == map[]
    ensures logFile.Some? ==> counts == Tally(logFile.value)
  {
    counts := map[];
    if logFile.None? {
      return;
    }
    var lines := logFile.value;
    for n := 0 to |lines|
      invariant counts == Tally(lines[..n])
    {
      var line := lines[n];
      TallyPrefixStep(lines, n);
      if |line| > 0 && line[0] == '[' {
        var timestamp := ParseTimestamp(TimestampText(line));
        if timestamp.Some? {
          var minute := TruncateToMinute(timestamp.value);
          assert LineMinute(line) == Some(minute);
          counts := Increment(counts, minute);
        } else {
          assert LineMinute(line).None?;
        }
      } else {
        assert LineMinute(line).None?;
      }
    }
    assert lines[..|lines|] == lines;
  }

  // ---------------------------------------------------------------------
  // The plotted series

  /** `m` is in `keys` and comes before every other element of it. */
  predicate IsEarliest(m: DateTime, keys: set<DateTime>) {
    m in keys && forall k :: k in keys && k != m ==> Before(m, k)
  }

  /** The earliest element of a non-empty set of timestamps. */
  function Earliest(keys: set<DateTime>): (m: DateTime)
    requires keys != {}
    ensures m in keys && forall k :: k in keys && k != m ==> Before(m, k)
  {
    EarliestExists(keys);
    var m :| IsEarliest(m, keys);
    m
  }

  lemma {:induction false} EarliestExists(keys: set<DateTime>)
    requires keys != {}
    ensures exists m :: IsEarliest(m, keys)
    decreases |keys|
  {
    var x :| x in keys;
    if keys == {x} {
      assert IsEarliest(x, keys);
    } else {
      var others := keys - {x};
      EarliestExists(others);
      var m :| IsEarliest(m, others);
      if Before(x, m) {
        EarliestBeforeEarliest(x, m, keys, others);
        assert IsEarliest(x, keys);
      } else {
        BeforeTotal(x, m);
        assert IsEarliest(m, keys);
      }
    }
  }

  /** An element before the earliest of the others is the earliest of all. */
  lemma EarliestBeforeEarliest(x: DateTime, m: DateTime, keys: set<DateTime>, others: set<DateTime>)
    requires others == keys - {x} && x in keys
    requires IsEarliest(m, others) && Before(x, m)
    ensures IsEarliest(x, keys)
  {
    forall k | k in keys && k != x
      ensures Before(x, k)
    {
      if k != m {
        BeforeTransitive(x, m, k);
      }
    }
  }

  /** Distinct timestamps are ordered one way or the other. */
  lemma BeforeTotal(a: DateTime, b: DateTime)
    requires a != b
    ensures Before(a, b) || Before(b, a)
  {
  }

  lemma BeforeTransitive(a: DateTime, b: DateTime, c: DateTime)
    requires Before(a, b) && Before(b, c)
    ensures Before(a, c)
  {
  }

  /** `sorted(keys)`: the keys, each once, in strictly ascending order. */
  function SortedKeys(keys: set<DateTime>): (ts: seq<DateTime>)
    ensures |ts| == |keys|
    ensures forall i :: 0 <= i < |ts| ==> ts[i] in keys
    ensures forall k :: k in keys ==> k in ts
    ensures StrictlyAscending(ts)
    decreases |keys|
  {
    if keys == {} then []
    else
      var first := Earliest(keys);
      [first] + SortedKeys(keys - {first})
  }

  /** What is handed to the plot: the times and, aligned with them, their counts. */
  datatype Series = Series(times: seq<DateTime>, counts: seq<nat>)

  /** The ordering step of `plot_log_activity`: no plot for an empty
      mapping; otherwise the mapping's keys in strictly ascending order,
      each with its own count at the same position. */
  function PlotSeries(data: map<DateTime, nat>): (r: Option<Series>)
    ensures r.None? <==> |data| == 0
    ensures r.Some? ==>
      && StrictlyAscending(r.value.times)
      && |r.value.times| == |data| == |r.value.counts|
      && (forall k :: k in data ==> k in r.value.times)
      && forall i :: 0 <= i < |r.value.times| ==> r.value.times[i] in data && r.value.counts[i] == data[r.value.times[i]]
  {
    if |data| == 0 then None
    else
      var times := SortedKeys(data.Keys);
      Some(Series(times, seq(|times|, i requires 0 <= i < |times| => data[times[i]])))
  }

  /** `plot_log_activity(log_file)` up to the drawing: the series that
      would be plotted, or `None` when "No data to plot." is printed. */
  method PlotLogActivity(logFile: Option<seq<string>>) returns (plot: Option<Series>)
    ensures logFile.None? ==> plot.None?
    ensures logFile.Some? ==> plot == PlotSeries(Tally(logFile.value))
  {
    var data := ParseLogDates(logFile);
    plot := PlotSeries(data);
  }

  // ---------------------------------------------------------------------
  // Totals

  function Sum(xs: seq<nat>): nat {
    if xs == [] then 0 else xs[0] + Sum(xs[1..])
  }

  /** The number of lines counted in the buckets listed in `ks`. */
  function CountIn(lines: seq<string>, ks: seq<DateTime>): nat {
    if ks == [] then 0 else Count(lines, ks[0]) + CountIn(lines, ks[1..])
  }

  predicate Distinct(ks: seq<DateTime>) {
    forall i, j :: 0 <= i < j < |ks| ==> ks[i] != ks[j]
  }

  lemma {:induction false} CountInAppend(lines: seq<string>, line: string, ks: seq<DateTime>)
    requires Distinct(ks)
    ensures CountIn(lines + [line], ks)
         == CountIn(lines, ks) + (if LineMinute(line).Some? && LineMinute(line).value in ks then 1 else 0)
    decreases |ks|
  {
    if ks != [] {
      DistinctTail(ks);
      CountInAppend(lines, line, ks[1..]);
      CountSnoc(lines, line, ks[0]);
      if LineMinute(line).Some? {
        InCons(ks, LineMinute(line).value);
      }
    }
  }

  lemma CountSnoc(lines: seq<string>, line: string, minute: DateTime)
    ensures Count(lines + [line], minute) == Count(lines, minute) + (if LineMinute(line) == Some(minute) then 1 else 0)
  {
    TakeSnoc(lines, line);
  }

  lemma DistinctTail(ks: seq<DateTime>)
    requires Distinct(ks) && ks != []
    ensures Distinct(ks[1..]) && ks[0] !in ks[1..]
  {
    forall i, j | 0 <= i < j < |ks[1..]| ensures ks[1..][i] != ks[1..][j] {
      assert ks[1..][i] == ks[i + 1] && ks[1..][j] == ks[j + 1];
    }
    forall j | 0 <= j < |ks[1..]| ensures ks[1..][j] != ks[0] {
      assert ks[1..][j] == ks[j + 1];
    }
  }

  // Facts about sequences used by the proofs above.

  lemma InCons<T>(xs: seq<T>, x: T)
    requires xs != []
    ensures x in xs <==> x == xs[0] || x in xs[1..]
  {
    assert xs == [xs[0]] + xs[1..];
  }

  lemma TakeSnoc<T>(xs: seq<T>, x: T)
    ensures (xs + [x])[..|xs|] == xs
  {
  }

  lemma SnocAssociative<T>(a: seq<T>, b: seq<T>, x: T)
    ensures a + (b + [x]) == (a + b) + [x]
  {
  }

  lemma DropLast<T>(xs: seq<T>)
    requires xs != []
    ensures xs == xs[..|xs| - 1] + [xs[|xs| - 1]]
  {
  }

  lemma EmptyRight<T>(xs: seq<T>)
    ensures xs + [] == xs
  {
  }

  /** Summed over distinct buckets that include every bucket of the tally,
      the counts add up to the number of counted lines. */
  lemma {:induction false} CountInCovering(lines: seq<string>, ks: seq<DateTime>)
    requires Distinct(ks)
    requires forall k :: k in Tally(lines) ==> k in ks
    ensures CountIn(lines, ks) == EntryCount(lines)
    decreases |lines|
  {
    if lines == [] {
      CountInEmpty(lines, ks);
    } else {
      var prefix, line := lines[..|lines| - 1], lines[|lines| - 1];
      assert lines == prefix + [line];
      TallyAppend(prefix, line);
      CountInCovering(prefix, ks);
      CountInAppend(prefix, line, ks);
    }
  }

  lemma {:induction false} CountInEmpty(lines: seq<string>, ks: seq<DateTime>)
    requires lines == []
    ensures CountIn(lines, ks) == 0
    decreases |ks|
  {
    if ks != [] {
      CountInEmpty(lines, ks[1..]);
    }
  }

  lemma {:induction false} SumIsCountIn(lines: seq<string>, counts: seq<nat>, ks: seq<DateTime>)
    requires |counts| == |ks|
    requires forall i :: 0 <= i < |ks| ==> counts[i] == Count(lines, ks[i])
    ensures Sum(counts) == CountIn(lines, ks)
    decreases |ks|
  {
    if ks != [] {
      SumIsCountIn(lines, counts[1..], ks[1..]);
    }
  }

  /** The plotted counts add up to the number of counted lines, which is at
      most the number of lines; no plot is made only when no line counts. */
  lemma ActivityTotal(lines: seq<string>)
    ensures PlotSeries(Tally(lines)).None? <==> EntryCount(lines) == 0
    ensures PlotSeries(Tally(lines)).Some? ==> Sum(PlotSeries(Tally(lines)).value.counts) == EntryCount(lines) <= |lines|
  {
    var data := Tally(lines);
    match PlotSeries(data)
    case None =>
      assert data == map[];
      CountInCovering(lines, []);
    case Some(series) =>
      forall i | 0 <= i < |series.times|
        ensures series.counts[i] == Count(lines, series.times[i])
      {
        TallyIsCount(lines, series.times[i]);
      }
      assert Distinct(series.times);
      CountInCovering(lines, series.times);
      SumIsCountIn(lines, series.counts, series.times);
      var k :| k in data;
      TallyIsCount(lines, k);
      CountBelowEntries(lines, k);
  }

  lemma {:induction false} CountBelowEntries(lines: seq<string>, minute: DateTime)
    ensures Count(lines, minute) <= EntryCount(lines)
    decreases |lines|
  {
    if lines != [] {
      CountBelowEntries(lines[..|lines| - 1], minute);
    }
  }
}
