/** The two transforms of the time-series chart: zipping the time, actual
    and ideal arrays by index into chart rows, and turning a `snake_case`
    signal name into its title. */
module TimeseriesGraph {
  import opened Common

  /** `FormattedTimeSeriesDataType`. */
  datatype FormattedTimeSeries = FormattedTimeSeries(time: seq<int>, actual: seq<int>, ideal: seq<int>)

  /** A chart row; reading past the end of `actual` or `ideal` gives
      `undefined`. */
  datatype ChartRow = ChartRow(time: int, actual: Option<int>, ideal: Option<int>)

  function At(s: seq<int>, i: nat): (v: Option<int>)
    ensures v.Some? <==> i < |s|
    ensures v.Some? ==> v.value == s[i]
  {
    if i < |s| then Some(s[i]) else None
  }

  // ------------------------------------------------------ formatTimeSeriesData

  /** One row per time value, zipped with `actual` and `ideal` by index. */
  function FormatTimeSeriesData(d: Option<FormattedTimeSeries>): (rows: seq<ChartRow>)
    ensures d.None? ==> rows == []
    ensures d.Some? ==> |rows| == |d.value.time|
    ensures d.Some? ==> forall i :: 0 <= i < |rows| ==>
              rows[i] == ChartRow(d.value.time[i], At(d.value.actual, i), At(d.value.ideal, i))
  {
    match d
    case None => []
    case Some(ts) => seq(|ts.time|, i requires 0 <= i < |ts.time| => ChartRow(ts.time[i], At(ts.actual, i), At(ts.ideal, i)))
  }

  function Times(rows: seq<ChartRow>): (t: seq<int>)
    ensures |t| == |rows| && forall i :: 0 <= i < |rows| ==> t[i] == rows[i].time
  {
    seq(|rows|, i requires 0 <= i < |rows| => rows[i].time)
  }

  /** The defined prefix of a column: values up to the first `undefined`. */
  function Defined(col: seq<Option<int>>): seq<int>
  {
    if col == [] || col[0].None? then [] else [col[0].value] + Defined(col[1..])
  }

  function Actuals(rows: seq<ChartRow>): seq<Option<int>>
  {
    seq(|rows|, i requires 0 <= i < |rows| => rows[i].actual)
  }

  function Ideals(rows: seq<ChartRow>): seq<Option<int>>
  {
    seq(|rows|, i requires 0 <= i < |rows| => rows[i].ideal)
  }

  lemma {:induction false} DefinedOfZipped(s: seq<int>, n: nat)
    ensures Defined(seq(n, i requires 0 <= i < n => At(s, i))) == s[..if n < |s| then n else |s|]
  {
    var col := seq(n, i requires 0 <= i < n => At(s, i));
    if n > 0 && |s| > 0 {
      var tail := seq(n - 1, i requires 0 <= i < n - 1 => At(s[1..], i));
      assert col[1..] == tail;
      DefinedOfZipped(s[1..], n - 1);
      var k := if n < |s| then n else |s|;
      assert s[..k] == [s[0]] + s[1..][..k - 1];
    }
  }

  /** Unzipping the rows gives back the time array, and each of `actual`
      and `ideal` as far as the time array reaches: the zip is by index and
      loses only values past the end of `time`. */
  lemma ZipRoundTrip(ts: FormattedTimeSeries)
    ensures var rows := FormatTimeSeriesData(Some(ts));
            && Times(rows) == ts.time
            && Defined(Actuals(rows)) == ts.actual[..if |ts.time| < |ts.actual| then |ts.time| else |ts.actual|]
            && Defined(Ideals(rows)) == ts.ideal[..if |ts.time| < |ts.ideal| then |ts.time| else |ts.ideal|]
  {
    var rows := FormatTimeSeriesData(Some(ts));
    var n := |ts.time|;
    assert Actuals(rows) == seq(n, i requires 0 <= i < n => At(ts.actual, i));
    assert Ideals(rows) == seq(n, i requires 0 <= i < n => At(ts.ideal, i));
    DefinedOfZipped(ts.actual, n);
    DefinedOfZipped(ts.ideal, n);
  }

  // ------------------------------------------------------ formatSignalName

  /** `char.toUpperCase()` on ASCII letters; other characters are kept. */
  function ToUpper(c: char): (u: char)
    ensures 'a' <= c <= 'z' ==> u as int == c as int - 32
    ensures !('a' <= c <= 'z') ==> u == c
  {
    if 'a' <= c <= 'z' then (c as int - 32) as char else c
  }

  /** `s.split(sep)`: never empty; n separators give n + 1 parts. */
  function Split(s: string, sep: char): (parts: seq<string>)
    ensures |parts| >= 1
    decreases |s|
  {
    if s == [] then [""]
    else
      var rest := Split(s[1..], sep);
      if s[0] == sep then [""] + rest else [[s[0]] + rest[0]] + rest[1..]
  }

  /** `parts.join(sep)`. */
  function Join(parts: seq<string>, sep: char): string
  {
    if parts == [] then ""
    else if |parts| == 1 then parts[0]
    else parts[0] + [sep] + Join(parts[1..], sep)
  }

  /** Upper-case the first character of a part, keep the rest. */
  function CapitalizeFirst(part: string): (r: string)
    ensures |r| == |part|
  {
    if part == [] then "" else [ToUpper(part[0])] + part[1..]
  }

  function CapitalizeAll(parts: seq<string>): (r: seq<string>)
    ensures |r| == |parts|
  {
    seq(|parts|, i requires 0 <= i < |parts| => CapitalizeFirst(parts[i]))
  }

  function FormatSignalName(name: string): string
  {
    Join(CapitalizeAll(Split(name, '_')), ' ')
  }

  function Count(s: string, c: char): nat
  {
    if s == [] then 0 else (if s[0] == c then 1 else 0) + Count(s[1..], c)
  }

  /** What `formatSignalName` does to each character: `_` becomes a space,
      the first character of each part is upper-cased, the rest is kept. */
  function Titled(s: string, atStart: bool): (r: string)
    ensures |r| == |s|
  {
    if s == [] then ""
    else if s[0] == '_' then " " + Titled(s[1..], true)
    else [if atStart then ToUpper(s[0]) else s[0]] + Titled(s[1..], false)
  }

  lemma {:induction false} SplitPartsCount(s: string, sep: char)
    ensures |Split(s, sep)| == Count(s, sep) + 1
    ensures forall p :: p in Split(s, sep) ==> sep !in p
    decreases |s|
  {
    if s != [] {
      SplitPartsCount(s[1..], sep);
    }
  }

  /** Joining the parts again with the separator gives the input back. */
  lemma {:induction false} SplitJoinRoundTrip(s: string, sep: char)
    ensures Join(Split(s, sep), sep) == s
    decreases |s|
  {
    if s != [] {
      var rest := Split(s[1..], sep);
      SplitJoinRoundTrip(s[1..], sep);
      if s[0] == sep {
        assert Split(s, sep)[1..] == rest;
      } else {
        JoinConsFirst(s[0], rest, sep);
      }
    }
  }

  /** Putting a character in front of the first part puts it in front of
      the joined string. */
  lemma JoinConsFirst(c: char, parts: seq<string>, sep: char)
    requires |parts| >= 1
    ensures Join([[c] + parts[0]] + parts[1..], sep) == [c] + Join(parts, sep)
  {
    var q := [[c] + parts[0]] + parts[1..];
    if |parts| > 1 {
      assert q[1..] == parts[1..];
    }
  }

  /** The parts with every part capitalized except, unless `capFirst`,
      the first one. */
  function Capped(parts: seq<string>, capFirst: bool): (r: seq<string>)
    requires |parts| >= 1
    ensures |r| == |parts|
  {
    [if capFirst then CapitalizeFirst(parts[0]) else parts[0]] + CapitalizeAll(parts[1..])
  }

  lemma CappedAfterSeparator(rest: seq<string>, capFirst: bool)
    requires |rest| >= 1
    ensures Join(Capped([""] + rest, capFirst), ' ') == " " + Join(Capped(rest, true), ' ')
  {
    var parts := [""] + rest;
    assert parts[1..] == rest;
    assert CapitalizeAll(rest) == Capped(rest, true);
    assert Capped(parts, capFirst) == [""] + Capped(rest, true);
    assert ([""] + Capped(rest, true))[1..] == Capped(rest, true);
  }

  lemma CappedAfterChar(c: char, rest: seq<string>, capFirst: bool)
    requires |rest| >= 1
    ensures Join(Capped([[c] + rest[0]] + rest[1..], capFirst), ' ')
            == [if capFirst then ToUpper(c) else c] + Join(Capped(rest, false), ' ')
  {
    var parts := [[c] + rest[0]] + rest[1..];
    var c' := if capFirst then ToUpper(c) else c;
    assert parts[1..] == rest[1..];
    assert (if capFirst then CapitalizeFirst(parts[0]) else parts[0]) == [c'] + rest[0];
    var q := Capped(rest, false);
    assert Capped(parts, capFirst) == [[c'] + q[0]] + q[1..];
    JoinConsFirst(c', q, ' ');
  }

  /** The split-capitalize-join pipeline is the character-wise `Titled`. */
  lemma {:induction false} FormatIsTitled(s: string, capFirst: bool)
    ensures Join(Capped(Split(s, '_'), capFirst), ' ') == Titled(s, capFirst)
    decreases |s|
  {
    if s != [] {
      var rest := Split(s[1..], '_');
      if s[0] == '_' {
        FormatIsTitled(s[1..], true);
        CappedAfterSeparator(rest, capFirst);
      } else {
        FormatIsTitled(s[1..], false);
        CappedAfterChar(s[0], rest, capFirst);
      }
    }
  }

  lemma FormatSignalNameIsTitled(name: string)
    ensures FormatSignalName(name) == Titled(name, true)
  {
    var parts := Split(name, '_');
    assert CapitalizeAll(parts) == Capped(parts, true);
    FormatIsTitled(name, true);
  }

  lemma {:induction false} TitledAt(s: string, atStart: bool, i: nat)
    requires i < |s|
    ensures Titled(s, atStart)[i] ==
              if s[i] == '_' then ' '
              else if (i == 0 && atStart) || (i > 0 && s[i - 1] == '_') then ToUpper(s[i])
              else s[i]
    decreases |s|
  {
    if i > 0 {
      TitledAt(s[1..], s[0] == '_', i - 1);
    }
  }

  /** The title's character at index i of the name. */
  function TitleChar(name: string, i: nat): char
    requires i < |name|
  {
    if name[i] == '_' then ' '
    else if i == 0 || name[i - 1] == '_' then ToUpper(name[i])
    else name[i]
  }

  /** Character by character: the same length, every `_` a space, the first
      character of every part upper-cased and every other character kept. */
  lemma SignalNameAt(name: string)
    ensures |FormatSignalName(name)| == |name|
    ensures forall i :: 0 <= i < |name| ==> FormatSignalName(name)[i] == TitleChar(name, i)
  {
    FormatSignalNameIsTitled(name);
    forall i | 0 <= i < |name|
      ensures FormatSignalName(name)[i] == TitleChar(name, i)
    {
      TitledAt(name, true, i);
    }
  }

  /** The title is (number of `_`) + 1 words joined by single spaces, and
      contains no `_`. */
  lemma SignalNameWords(name: string)
    ensures var words := CapitalizeAll(Split(name, '_'));
            && |words| == Count(name, '_') + 1
            && FormatSignalName(name) == Join(words, ' ')
            && '_' !in FormatSignalName(name)
  {
    SplitPartsCount(name, '_');
    SignalNameHasNoUnderscore(name);
  }

  lemma SignalNameHasNoUnderscore(name: string)
    ensures forall i :: 0 <= i < |FormatSignalName(name)| ==> FormatSignalName(name)[i] != '_'
  {
    SignalNameAt(name);
    forall i | 0 <= i < |name|
      ensures FormatSignalName(name)[i] != '_'
    {
      assert FormatSignalName(name)[i] == TitleChar(name, i);
      if name[i] != '_' {
        UpperIsNotUnderscore(name[i]);
      }
    }
  }

  lemma UpperIsNotUnderscore(c: char)
    requires c != '_'
    ensures ToUpper(c) != '_' && ToUpper(ToUpper(c)) == ToUpper(c)
  {
    if 'a' <= c <= 'z' {
      assert 'A' as int <= ToUpper(c) as int <= 'Z' as int;
    }
  }

  /** Formatting a title again changes nothing. */
  lemma SignalNameIdempotent(name: string)
    ensures FormatSignalName(FormatSignalName(name)) == FormatSignalName(name)
  {
    var t := FormatSignalName(name);
    SignalNameAt(name);
    SignalNameAt(t);
    SignalNameHasNoUnderscore(name);
    forall i | 0 <= i < |t|
      ensures FormatSignalName(t)[i] == t[i]
    {
      assert FormatSignalName(t)[i] == TitleChar(t, i);
      assert t[i] == TitleChar(name, i) && t[i] != '_';
      assert i > 0 ==> t[i - 1] == TitleChar(name, i - 1) && t[i - 1] != '_';
      if i == 0 && name[0] != '_' {
        UpperIsNotUnderscore(name[0]);
      }
    }
  }
}
