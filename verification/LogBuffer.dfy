/** The in-memory log buffer shown to administrators, and the stream that feeds it line by line. */
module LogBuffer {
  import opened Common

  const MAX_LOG_EVENTS := 10000

  datatype Level = Number(n: int) | Name(s: string)

  /** A parsed log record; fields of another type than expected count as absent. */
  datatype Record = Record(time: Option<int>, level: Option<Level>, msg: Option<string>, targetSystem: Option<string>)

  datatype LogEvent = LogEvent(id: nat, time: int, level: Level, msg: Option<string>, targetSystem: Option<string>)

  function NonBlank(s: Option<string>): Option<string> {
    if s.Some? && Trim(s.value) != "" then s else None
  }

  function Normalize(id: nat, r: Record, now: int): LogEvent {
    LogEvent(
      id,
      if r.time.Some? then r.time.value else now,
      if r.level.Some? then r.level.value else Name("info"),
      NonBlank(r.msg),
      NonBlank(r.targetSystem))
  }

  function LastN<T>(xs: seq<T>, n: nat): seq<T> {
    if |xs| <= n then xs else xs[|xs| - n..]
  }

  function Reverse<T>(xs: seq<T>): seq<T> {
    if xs == [] then [] else Reverse(xs[1..]) + [xs[0]]
  }

  lemma {:induction false} ReverseAppend<T>(xs: seq<T>, x: T)
    ensures Reverse(xs + [x]) == [x] + Reverse(xs)
  {
    if xs == [] {
      assert xs + [x] == [x] && [x][1..] == [];
    } else {
      assert (xs + [x])[1..] == xs[1..] + [x];
      ReverseAppend(xs[1..], x);
    }
  }

  lemma {:induction false} ReverseTwice<T>(xs: seq<T>)
    ensures Reverse(Reverse(xs)) == xs
  {
    if xs == [] {
    } else {
      ReverseTwice(xs[1..]);
      ReverseAppend(Reverse(xs[1..]), xs[0]);
    }
  }

  // ----- Queries --------------------------------------------------------------------------

  function Lower(c: char): char {
    if 'A' <= c <= 'Z' then c - 'A' + 'a' else c
  }

  function ToLower(s: string): string {
    if s == "" then "" else [Lower(s[0])] + ToLower(s[1..])
  }

  function LevelName(l: Level): string {
    match l
    case Name(s) => ToLower(s)
    case Number(n) =>
      if n == 10 then "trace" else if n == 20 then "debug" else if n == 30 then "info"
      else if n == 40 then "warn" else if n == 50 then "error" else if n == 60 then "fatal"
      else NumberText(n)
  }

  function NumberText(n: int): string
    decreases if n < 0 then 1 - n else n
  {
    if n < 0 then "-" + NumberText(-n)
    else if n < 10 then ['0' + (n as char)]
    else NumberText(n / 10) + ['0' + ((n % 10) as char)]
  }

  /** The numeric levels that have names, and the text of every other one. */
  lemma LevelNames(n: int, name: string)
    ensures LevelName(Number(10)) == "trace" && LevelName(Number(20)) == "debug" && LevelName(Number(30)) == "info"
    ensures LevelName(Number(40)) == "warn" && LevelName(Number(50)) == "error" && LevelName(Number(60)) == "fatal"
    ensures n !in {10, 20, 30, 40, 50, 60} ==> LevelName(Number(n)) == NumberText(n)
    ensures LevelName(Name(name)) == ToLower(name)
  {
  }

  /** The decimal text of a number is read back as that number, and starts with no superfluous zero. */
  lemma {:induction false} NumberTextReadsBack(n: nat)
    ensures AllDigits(NumberText(n))
    ensures Value(NumberText(n)) == n
    ensures NumberText(n) != "" && (n > 0 ==> NumberText(n)[0] != '0')
    decreases n
  {
    if n < 10 {
      assert NumberText(n)[..0] == "";
    } else {
      NumberTextReadsBack(n / 10);
      assert NumberText(n)[..|NumberText(n)| - 1] == NumberText(n / 10);
    }
  }

  lemma NegativeText(n: int)
    requires n < 0
    ensures NumberText(n) == "-" + NumberText(-n)
  {
  }

  /** Lower-casing changes the letters A to Z only, each to its counterpart. */
  lemma {:induction false} LowerCased(s: string)
    ensures |ToLower(s)| == |s|
    ensures forall i :: 0 <= i < |s| ==>
              ToLower(s)[i] as int == if 'A' <= s[i] <= 'Z' then s[i] as int + 32 else s[i] as int
  {
    if s == "" {
    } else {
      LowerCased(s[1..]);
    }
  }

  /** Blank filters are no filters. */
  function Effective(filter: Option<string>): Option<string> {
    if filter.Some? && Trim(filter.value) != "" then Some(Trim(filter.value)) else None
  }

  function Truncated(r: real): int {
    if r >= 0.0 then r.Floor else -((-r).Floor)
  }

  /** `None` stands for a limit that is not a finite number. */
  function NormalizeLimit(limit: Option<real>): (n: nat)
    ensures 1 <= n <= 2000
  {
    if limit.None? then 200
    else
      var t := Truncated(limit.value);
      var low := if t < 1 then 1 else t;
      if low > 2000 then 2000 else low
  }

  /** A limit counts by its whole part and is kept between 1 and 2000; without a number it is 200. */
  lemma LimitIs(whole: int, part: real)
    requires 0.0 <= part < 1.0
    ensures var n := if whole < 1 then 1 else if whole > 2000 then 2000 else whole;
            && (whole >= 0 ==> NormalizeLimit(Some(whole as real + part)) == n)
            && NormalizeLimit(Some(whole as real)) == n
    ensures whole >= 0 ==> NormalizeLimit(Some(-(whole as real + part))) == 1
    ensures NormalizeLimit(None) == 200
  {
    assert (whole as real + part).Floor == whole && (whole as real).Floor == whole;
    assert (-(whole as real)).Floor == -whole;
  }

  predicate Matches(e: LogEvent, target: Option<string>, level: Option<string>) {
    && (target.None? || e.targetSystem == target)
    && (level.None? || LevelName(e.level) == ToLower(level.value))
  }

  predicate IncreasingIds(events: seq<LogEvent>) {
    forall i, j :: 0 <= i < j < |events| ==> events[i].id < events[j].id
  }

  /** Events of another target system than the given one. */
  function OtherThan(target: Option<string>): LogEvent -> bool {
    (e: LogEvent) => e.targetSystem != target
  }

  function Selected(target: Option<string>, level: Option<string>): LogEvent -> bool {
    (e: LogEvent) => Matches(e, target, level)
  }

  /** Which events a query is about; a blank filter selects every event. */
  lemma SelectedIff(e: LogEvent, target: Option<string>, level: Option<string>)
    ensures Selected(Effective(target), Effective(level))(e) <==>
            && (target.Some? && Trim(target.value) != "" ==> e.targetSystem == Some(Trim(target.value)))
            && (level.Some? && Trim(level.value) != "" ==> LevelName(e.level) == ToLower(Trim(level.value)))
  {
  }

  /** What clearing one target system keeps, and in which order. */
  lemma {:induction false} KeptIff(events: seq<LogEvent>, target: string, e: LogEvent)
    requires Trim(target) != ""
    ensures e in Filter(events, OtherThan(Effective(Some(target)))) <==>
            e in events && e.targetSystem != Some(Trim(target))
  {
    if events == [] {
    } else {
      KeptIff(events[1..], target, e);
    }
  }

  /** The last `n` elements, or all when there are no more than that. */
  lemma LastOnes<T>(xs: seq<T>, n: nat)
    ensures var last := LastN(xs, n);
            && |last| == (if |xs| < n then |xs| else n)
            && forall i :: 0 <= i < |last| ==> last[i] == xs[|xs| - |last| + i]
  {
  }

  /** What is stored of a record: its time or the present, its level or info, and texts that are not blank. */
  lemma StoredFields(id: nat, r: Record, now: int)
    ensures var e := Normalize(id, r, now);
            && e.id == id
            && e.time == (match r.time case Some(t) => t case None => now)
            && (r.level.Some? ==> e.level == r.level.value)
            && (r.level.None? ==> LevelName(e.level) == "info" && e.level.Name?)
            && (r.msg.Some? && Trim(r.msg.value) != "" ==> e.msg == r.msg)
            && (r.msg.None? || Trim(r.msg.value) == "" ==> e.msg == None)
            && (r.targetSystem.Some? && Trim(r.targetSystem.value) != "" ==> e.targetSystem == r.targetSystem)
            && (r.targetSystem.None? || Trim(r.targetSystem.value) == "" ==> e.targetSystem == None)
  {
    assert ToLower("nfo") == "nfo" by {
      assert ToLower("fo") == "fo" by {
        assert ToLower("o") == "o";
      }
    }
  }

  lemma {:induction false} FilterShrinks(events: seq<LogEvent>, p: LogEvent -> bool)
    ensures |Filter(events, p)| <= |events|
  {
    if events == [] {
    } else {
      FilterShrinks(events[1..], p);
    }
  }

  lemma {:induction false} FilterKeepsIncreasing(events: seq<LogEvent>, p: LogEvent -> bool)
    requires IncreasingIds(events)
    ensures IncreasingIds(Filter(events, p))
  {
    if events == [] {
    } else {
      var tail := events[1..];
      FilterKeepsIncreasing(tail, p);
      forall e | e in Filter(tail, p)
        ensures events[0].id < e.id
      {
        var k :| 0 <= k < |tail| && tail[k] == e;
        assert events[k + 1] == e;
      }
      PrependIncreasing(events[0], Filter(tail, p));
    }
  }

  lemma PrependIncreasing(e: LogEvent, rest: seq<LogEvent>)
    requires IncreasingIds(rest) && forall r :: r in rest ==> e.id < r.id
    ensures IncreasingIds([e] + rest)
  {
  }

  lemma FilterFrom(events: seq<LogEvent>, i: nat, p: LogEvent -> bool)
    requires i < |events|
    ensures Filter(events[i..], p) ==
            if p(events[i]) then [events[i]] + Filter(events[i + 1..], p) else Filter(events[i + 1..], p)
  {
    assert events[i..][0] == events[i] && events[i..][1..] == events[i + 1..];
  }

  lemma SpliceOut(was: seq<LogEvent>, i: nat, kept: seq<LogEvent>)
    requires i < |was|
    ensures var now := was[..i + 1] + kept;
            && now[i] == was[i]
            && now[..i] + now[i + 1..] == was[..i] + kept
            && now == was[..i] + ([was[i]] + kept)
  {
  }

  /** The first `n` events as they are and the others filtered. */
  function FilteredFrom(was: seq<LogEvent>, n: nat, p: LogEvent -> bool): seq<LogEvent>
    requires n <= |was|
  {
    was[..n] + Filter(was[n..], p)
  }

  /** One step of a filter that works from the back. */
  lemma FilterBack(was: seq<LogEvent>, i: nat, p: LogEvent -> bool)
    requires i < |was|
    ensures var now := FilteredFrom(was, i + 1, p);
            && i < |now| && now[i] == was[i]
            && FilteredFrom(was, i, p) == if p(was[i]) then now else now[..i] + now[i + 1..]
  {
    hide Filter;
    FilterFrom(was, i, p);
    SpliceOut(was, i, Filter(was[i + 1..], p));
  }

  lemma FilterEnds(was: seq<LogEvent>, p: LogEvent -> bool)
    ensures FilteredFrom(was, |was|, p) == was && FilteredFrom(was, 0, p) == Filter(was, p)
  {
    assert was[|was|..] == [] && was[0..] == was;
  }

  /** When a suffix holds exactly `n` matches, they are the last `n` matches of the whole. */
  lemma SuffixIsLast(events: seq<LogEvent>, i: nat, p: LogEvent -> bool, n: nat)
    requires i <= |events| && |Filter(events[i..], p)| == n
    ensures LastN(Filter(events, p), n) == Filter(events[i..], p)
  {
    FilterAppend(events[..i], events[i..], p);
    assert events == events[..i] + events[i..];
  }

  /** The matches among the events from `n` on, latest first. */
  function FoundFrom(events: seq<LogEvent>, n: nat, p: LogEvent -> bool): seq<LogEvent>
    requires n <= |events|
  {
    Reverse(Filter(events[n..], p))
  }

  lemma NothingFound(events: seq<LogEvent>, p: LogEvent -> bool)
    ensures FoundFrom(events, |events|, p) == []
  {
    assert events[|events|..] == [];
  }

  lemma FoundOneMore(events: seq<LogEvent>, i: nat, p: LogEvent -> bool)
    requires i < |events|
    ensures FoundFrom(events, i, p) == FoundFrom(events, i + 1, p) + if p(events[i]) then [events[i]] else []
  {
    hide Filter;
    FilterFrom(events, i, p);
    assert ([events[i]] + Filter(events[i + 1..], p))[1..] == Filter(events[i + 1..], p);
  }

  lemma {:induction false} ReverseLength<T>(xs: seq<T>)
    ensures |Reverse(xs)| == |xs|
  {
    if xs == [] {
    } else {
      ReverseLength(xs[1..]);
    }
  }

  /** As soon as `n` matches are found, they are the last `n` of all. */
  lemma FoundEnough(events: seq<LogEvent>, i: nat, p: LogEvent -> bool, n: nat)
    requires i <= |events| && |FoundFrom(events, i, p)| == n
    ensures Reverse(FoundFrom(events, i, p)) == LastN(Filter(events, p), n)
  {
    hide Filter, Reverse;
    ReverseLength(Filter(events[i..], p));
    ReverseTwice(Filter(events[i..], p));
    SuffixIsLast(events, i, p, n);
  }

  lemma FoundAll(events: seq<LogEvent>, p: LogEvent -> bool, n: nat)
    requires |FoundFrom(events, 0, p)| <= n
    ensures Reverse(FoundFrom(events, 0, p)) == LastN(Filter(events, p), n)
  {
    hide Filter, Reverse;
    assert events[0..] == events;
    ReverseLength(Filter(events, p));
    ReverseTwice(Filter(events, p));
  }

  class RuntimeLogBuffer {
    var events: seq<LogEvent>
    var nextId: nat

    /** Bounded, ids strictly increasing and below the next one. */
    ghost predicate Valid()
      reads this
    {
      && |events| <= MAX_LOG_EVENTS && nextId >= 1
      && IncreasingIds(events)
      && forall e :: e in events ==> 1 <= e.id < nextId
    }

    constructor ()
      ensures Valid() && events == [] && nextId == 1
    {
      events, nextId := [], 1;
    }

    /** Keeps the last 10000 events. */
    method Append(r: Record, now: int)
      requires Valid()
      modifies this
      ensures Valid()
      ensures nextId == old(nextId) + 1
      ensures events == LastN(old(events) + [Normalize(old(nextId), r, now)], 10000)
    {
      events := events + [Normalize(nextId, r, now)];
      nextId := nextId + 1;
      if |events| > MAX_LOG_EVENTS {
        events := events[|events| - MAX_LOG_EVENTS..];
      }
    }

    /** Without a target everything goes and ids start again; with one, exactly its events go. */
    method Clear(targetSystem: Option<string>) returns (cleared: nat)
      requires Valid()
      modifies this
      ensures Valid()
      ensures cleared == |old(events)| - |events|
      ensures Effective(targetSystem).None? ==> events == [] && nextId == 1
      ensures Effective(targetSystem).Some? ==>
                events == Filter(old(events), OtherThan(Effective(targetSystem)))
                && nextId == old(nextId)
    {
      var target := Effective(targetSystem);
      if target.None? {
        cleared := |events|;
        events, nextId := [], 1;
        return;
      }
      cleared := RemoveTarget(target);
    }

    method RemoveTarget(target: Option<string>) returns (cleared: nat)
      requires Valid()
      modifies this`events
      ensures Valid()
      ensures events == Filter(old(events), OtherThan(target)) && cleared == |old(events)| - |events|
    {
      hide FilteredFrom, Filter;
      ghost var was := events;
      cleared := 0;
      var index := |events| - 1;
      FilterEnds(was, OtherThan(target));
      while index >= 0
        invariant -1 <= index < |was|
        invariant events == FilteredFrom(was, index + 1, OtherThan(target))
        invariant cleared == |was| - |events|
      {
        FilterBack(was, index, OtherThan(target));
        if events[index].targetSystem == target {
          events := events[..index] + events[index + 1..];
          cleared := cleared + 1;
        }
        index := index - 1;
      }
      FilterKeepsIncreasing(was, OtherThan(target));
      FilterShrinks(was, OtherThan(target));
    }

    /** The latest matching events, at most as many as asked for, in time order. */
    method Query(targetSystem: Option<string>, level: Option<string>, limit: Option<real>)
      returns (result: seq<LogEvent>)
      requires Valid()
      ensures result ==
              LastN(Filter(events, Selected(Effective(targetSystem), Effective(level))), NormalizeLimit(limit))
    {
      var max := NormalizeLimit(limit);
      var target, wanted := Effective(targetSystem), Effective(level);
      ghost var p := Selected(target, wanted);
      var found: seq<LogEvent> := [];
      var index := |events| - 1;
      hide FoundFrom, Filter, Reverse, LastN;
      NothingFound(events, p);
      while index >= 0
        invariant -1 <= index < |events|
        invariant found == FoundFrom(events, index + 1, p) && |found| < max
      {
        FoundOneMore(events, index, p);
        if Matches(events[index], target, wanted) {
          found := found + [events[index]];
          if |found| >= max {
            FoundEnough(events, index, p, max);
            return Reverse(found);
          }
        }
        index := index - 1;
      }
      FoundAll(events, p, max);
      result := Reverse(found);
    }
  }

  /** Dropping old events early or late makes no difference to what is kept. */
  lemma KeepLastComposes<T>(xs: seq<T>, ys: seq<T>, n: nat)
    ensures LastN(LastN(xs, n) + ys, n) == LastN(xs + ys, n)
  {
  }

  // ----- The line-splitting stream ---------------------------------------------------------

  function NewlineAt(s: string): (n: nat)
    ensures n <= |s|
    ensures n < |s| ==> s[n] == '\n'
    ensures forall i :: 0 <= i < n ==> s[i] != '\n'
  {
    if s == "" || s[0] == '\n' then 0 else 1 + NewlineAt(s[1..])
  }

  /** The lines of a text that are ended by a newline. */
  function Complete(s: string): seq<string>
    decreases |s|
  {
    var n := NewlineAt(s);
    if n == |s| then [] else [s[..n]] + Complete(s[n + 1..])
  }

  /** What follows the last newline. */
  function Unfinished(s: string): string
    decreases |s|
  {
    var n := NewlineAt(s);
    if n == |s| then s else Unfinished(s[n + 1..])
  }

  /** Splitting at newlines gives the complete lines and, as the last part, the unfinished one. */
  lemma {:induction false} SplitIsLines(s: string)
    ensures Split(s, '\n') == Complete(s) + [Unfinished(s)]
    decreases |s|
  {
    var n := NewlineAt(s);
    if n == |s| {
      SplitPrefix(s, "", '\n');
    } else {
      var rest := s[n + 1..];
      assert s == s[..n] + ['\n'] + rest;
      SplitPrefix(s[..n], rest, '\n');
      SplitIsLines(rest);
      LinesAssociate(s[..n], Complete(rest), [Unfinished(rest)]);
    }
  }

  lemma LastPartIsPending(s: string)
    ensures var parts := Split(s, '\n');
            parts[|parts| - 1] == Unfinished(s) && parts[..|parts| - 1] == Complete(s)
  {
    SplitIsLines(s);
  }

  lemma LinesAssociate(line: string, some: seq<string>, more: seq<string>)
    ensures [line] + (some + more) == [line] + some + more
  {
  }

  /** Trimmed lines that are not blank: what the stream appends. */
  function Wanted(lines: seq<string>): seq<string> {
    if lines == [] then []
    else (if Trim(lines[0]) == "" then [] else [Trim(lines[0])]) + Wanted(lines[1..])
  }

  lemma {:induction false} WantedAppend(xs: seq<string>, ys: seq<string>)
    ensures Wanted(xs + ys) == Wanted(xs) + Wanted(ys)
  {
    if xs == [] {
      assert xs + ys == ys;
    } else {
      assert (xs + ys)[0] == xs[0] && (xs + ys)[1..] == xs[1..] + ys;
      WantedAppend(xs[1..], ys);
    }
  }

  /** A line that is not JSON is kept as a message of level 30. */
  function RecordOf(parse: string -> Option<Record>, line: string, now: int): Record {
    match parse(line)
    case Some(r) => r
    case None => Record(Some(now), Some(Number(30)), Some(line), None)
  }

  /** A line that is not JSON becomes an event of level info that carries the line. */
  lemma UnparsedLine(parse: string -> Option<Record>, line: string, id: nat, now: int)
    requires parse(line).None? && Trim(line) != ""
    ensures Normalize(id, RecordOf(parse, line, now), now) == LogEvent(id, now, Number(30), Some(line), None)
    ensures LevelName(Number(30)) == "info"
  {
  }

  /** The buffer after appending the records of some lines. */
  function Fed(events: seq<LogEvent>, nextId: nat, parse: string -> Option<Record>, lines: seq<string>, now: int)
    : (seq<LogEvent>, nat)
  {
    if lines == [] then (events, nextId)
    else
      var (before, id) := Fed(events, nextId, parse, lines[..|lines| - 1], now);
      (LastN(before + [Normalize(id, RecordOf(parse, lines[|lines| - 1], now), now)], MAX_LOG_EVENTS), id + 1)
  }

  lemma OneMoreLine(lines: seq<string>, i: nat)
    requires i < |lines|
    ensures Wanted(lines[..i + 1]) ==
            if Trim(lines[i]) == "" then Wanted(lines[..i]) else Wanted(lines[..i]) + [Trim(lines[i])]
  {
    assert lines[..i + 1] == lines[..i] + [lines[i]];
    WantedAppend(lines[..i], [lines[i]]);
    assert [lines[i]][1..] == [];
  }

  lemma FedOneMore(events: seq<LogEvent>, nextId: nat, parse: string -> Option<Record>, lines: seq<string>,
                   line: string, now: int)
    ensures var (before, id) := Fed(events, nextId, parse, lines, now);
            Fed(events, nextId, parse, lines + [line], now) ==
            (LastN(before + [Normalize(id, RecordOf(parse, line, now), now)], MAX_LOG_EVENTS), id + 1)
  {
    assert (lines + [line])[..|lines|] == lines;
  }

  /** The buffer after one line: a blank one leaves it alone. */
  function WithLine(events: seq<LogEvent>, nextId: nat, parse: string -> Option<Record>, line: string, now: int)
    : (seq<LogEvent>, nat)
  {
    if Trim(line) == "" then (events, nextId)
    else
      (LastN(events + [Normalize(nextId, RecordOf(parse, Trim(line), now), now)], MAX_LOG_EVENTS), nextId + 1)
  }

  /** One more line, as the loop of the stream treats it. */
  lemma FedThroughLine(events: seq<LogEvent>, nextId: nat, parse: string -> Option<Record>, lines: seq<string>, i: nat,
                       now: int)
    requires i < |lines|
    ensures var (before, id) := Fed(events, nextId, parse, Wanted(lines[..i]), now);
            Fed(events, nextId, parse, Wanted(lines[..i + 1]), now)
            == WithLine(before, id, parse, lines[i], now)
  {
    OneMoreLine(lines, i);
    FedOneMore(events, nextId, parse, Wanted(lines[..i]), Trim(lines[i]), now);
  }

  class LogBufferStream {
    var pending: string
    const buffer: RuntimeLogBuffer
    const parse: string -> Option<Record>

    constructor (buffer: RuntimeLogBuffer, parse: string -> Option<Record>)
      ensures pending == "" && this.buffer == buffer && this.parse == parse
    {
      pending, this.buffer, this.parse := "", buffer, parse;
    }

    method AppendLine(line: string, now: int)
      requires buffer.Valid()
      modifies buffer
      ensures buffer.Valid()
      ensures (buffer.events, buffer.nextId) == WithLine(old(buffer.events), old(buffer.nextId), parse, line, now)
    {
      var trimmed := Trim(line);
      if trimmed != "" {
        buffer.Append(RecordOf(parse, trimmed, now), now);
      }
    }

    method Write(chunk: string, now: int)
      requires buffer.Valid()
      modifies this, buffer
      ensures buffer.Valid()
      ensures pending == Unfinished(old(pending) + chunk)
      ensures (buffer.events, buffer.nextId) ==
              Fed(old(buffer.events), old(buffer.nextId), parse, Wanted(Complete(old(pending) + chunk)), now)
    {
      var text := pending + chunk;
      var parts := Split(text, '\n');
      LastPartIsPending(text);
      pending := parts[|parts| - 1];
      var lines := parts[..|parts| - 1];
      for i := 0 to |lines|
        invariant buffer.Valid() && pending == Unfinished(text)
        invariant (buffer.events, buffer.nextId) ==
                  Fed(old(buffer.events), old(buffer.nextId), parse, Wanted(lines[..i]), now)
      {
        FedThroughLine(old(buffer.events), old(buffer.nextId), parse, lines, i, now);
        AppendLine(lines[i], now);
      }
      assert lines[..|lines|] == lines;
    }
  }

  // ----- Chunking does not matter ---------------------------------------------------------------

  function Concat(chunks: seq<string>): string {
    if chunks == [] then "" else chunks[0] + Concat(chunks[1..])
  }

  /** Lines appended and text left pending by writing the chunks one after the other. */
  function WriteAll(pending: string, chunks: seq<string>): (seq<string>, string)
    decreases |chunks|
  {
    if chunks == [] then ([], pending)
    else
      var text := pending + chunks[0];
      var (lines, left) := WriteAll(Unfinished(text), chunks[1..]);
      (Wanted(Complete(text)) + lines, left)
  }

  lemma {:induction false} NewlineInPrefix(a: string, b: string)
    requires NewlineAt(a) < |a|
    ensures NewlineAt(a + b) == NewlineAt(a)
  {
    if a[0] == '\n' {
    } else {
      assert (a + b)[1..] == a[1..] + b;
      NewlineInPrefix(a[1..], b);
    }
  }

  lemma FirstLine(a: string, b: string, n: nat)
    requires n == NewlineAt(a) < |a|
    ensures Complete(a + b) == [a[..n]] + Complete(a[n + 1..] + b)
    ensures Unfinished(a + b) == Unfinished(a[n + 1..] + b)
  {
    NewlineInPrefix(a, b);
    assert (a + b)[..n] == a[..n] && (a + b)[n + 1..] == a[n + 1..] + b;
  }

  lemma {:induction false} SplitResumes(a: string, b: string)
    ensures Complete(a + b) == Complete(a) + Complete(Unfinished(a) + b)
    ensures Unfinished(a + b) == Unfinished(Unfinished(a) + b)
    decreases |a|
  {
    var n := NewlineAt(a);
    if n < |a| {
      NewlineInPrefix(a, b);
      FirstLine(a, b, n);
      SplitResumes(a[n + 1..], b);
      LinesAssociate(a[..n], Complete(a[n + 1..]), Complete(Unfinished(a) + b));
    } else {
      assert Complete(a) == [] && Unfinished(a) == a;
    }
  }

  /** Nothing is left to split off an unfinished line. */
  lemma {:induction false} UnfinishedHasNoLines(s: string)
    ensures Complete(Unfinished(s)) == [] && Unfinished(Unfinished(s)) == Unfinished(s)
    decreases |s|
  {
    var n := NewlineAt(s);
    if n == |s| {
    } else {
      UnfinishedHasNoLines(s[n + 1..]);
    }
  }

  lemma WantedResumes(text: string, rest: string)
    ensures Wanted(Complete(text + rest)) == Wanted(Complete(text)) + Wanted(Complete(Unfinished(text) + rest))
    ensures Unfinished(text + rest) == Unfinished(Unfinished(text) + rest)
  {
    SplitResumes(text, rest);
    WantedAppend(Complete(text), Complete(Unfinished(text) + rest));
  }

  lemma TextsMeet(pending: string, chunk: string, rest: string)
    ensures pending + (chunk + rest) == pending + chunk + rest
  {
  }

  lemma {:induction false} ResumeFromPending(pending: string, chunks: seq<string>)
    ensures WriteAll(pending, chunks).0 == if chunks == [] then [] else Wanted(Complete(pending + Concat(chunks)))
    ensures WriteAll(pending, chunks).1 == if chunks == [] then pending else Unfinished(pending + Concat(chunks))
    decreases |chunks|
  {
    if chunks == [] {
    } else {
      var text := pending + chunks[0];
      var rest := Concat(chunks[1..]);
      ResumeFromPending(Unfinished(text), chunks[1..]);
      TextsMeet(pending, chunks[0], rest);
      if chunks[1..] == [] {
        assert text + rest == text;
      } else {
        WantedResumes(text, rest);
      }
    }
  }

  /** However a text is cut into chunks, the stream appends its non-blank complete lines and keeps the rest. */
  lemma ChunkingIndependent(chunks: seq<string>)
    ensures WriteAll("", chunks) == (Wanted(Complete(Concat(chunks))), Unfinished(Concat(chunks)))
  {
    ResumeFromPending("", chunks);
    assert "" + Concat(chunks) == Concat(chunks);
  }
}
