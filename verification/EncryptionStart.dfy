/**
 * Processes that start, write and stop over one database, from the empty one on: what
 * the startup gate promises about every stored column once encryption is recorded.
 */
module EncryptionStart {
  import opened Common
  import opened Encryption

  datatype Table = AuditLog | DlqItem | TargetSystem

  /** `running` holds every process that was let in, `None` once it has stopped. */
  datatype System = System(
    record: Option<StateRow>,
    audit: seq<Stored>,
    dlq: seq<Stored>,
    targets: seq<Stored>,
    running: seq<Option<Runtime>>)

  /** `liveKeys` is the number of live idempotency keys a starting process counts. */
  datatype Event =
    | Start(r: Runtime, liveKeys: nat)
    | Stop(index: nat)
    | Write(index: nat, table: Table, text: string)

  const NOTHING := System(None, [], [], [], [])

  function Columns(s: System): seq<Stored> {
    s.audit + s.dlq + s.targets
  }

  function Stored(s: System, table: Table, cell: Encryption.Stored): System {
    match table
    case AuditLog => s.(audit := s.audit + [cell])
    case DlqItem => s.(dlq := s.dlq + [cell])
    case TargetSystem => s.(targets := s.targets + [cell])
  }

  predicate Running(s: System, index: nat) {
    index < |s.running| && s.running[index].Some?
  }

  /** A process that is refused ends; one that is let in may insert the record. */
  function Step(s: System, e: Event): System {
    match e
    case Start(r, liveKeys) =>
      if !Admits(r, s.record, Counts(|s.audit|, |s.dlq|, |s.targets|, liveKeys)) then s
      else
        s.(record := if r.enabled && s.record.None? then Some(StateRow(true, r.active, [], Completed)) else s.record,
           running := s.running + [Some(r)])
    case Stop(index) => if Running(s, index) then s.(running := s.running[index := None]) else s
    case Write(index, table, text) =>
      if Running(s, index) then Stored(s, table, ToJson(s.running[index].value, text)) else s
  }

  function Run(s: System, events: seq<Event>): System
    decreases |events|
  {
    if events == [] then s else Run(Step(s, events[0]), events[1..])
  }

  /** A process without encryption, let in before the record was inserted, writes after that. */
  predicate Lapses(s: System, e: Event) {
    e.Write? && Running(s, e.index) && s.record.Some? && !s.running[e.index].value.enabled
  }

  /** A process in rotation mode writes under a key of its own. */
  predicate Strays(s: System, e: Event) {
    && e.Write? && Running(s, e.index) && s.record.Some? && s.running[e.index].value.enabled
    && s.running[e.index].value.active != s.record.value.activeKeyId
  }

  predicate Happens(s: System, events: seq<Event>, p: (System, Event) -> bool)
    decreases |events|
  {
    events != [] && (p(s, events[0]) || Happens(Step(s, events[0]), events[1..], p))
  }

  predicate AllSealed(cells: seq<Encryption.Stored>) {
    forall i :: 0 <= i < |cells| ==> cells[i].Sealed?
  }

  predicate AllUnder(cells: seq<Encryption.Stored>, kid: string) {
    forall i :: 0 <= i < |cells| ==> cells[i].Sealed? && cells[i].kid == kid
  }

  /** What holds after every event; `lapsed` and `strayed` tell what has happened so far. */
  predicate Kept(s: System, lapsed: bool, strayed: bool) {
    && (forall i :: 0 <= i < |s.running| && s.running[i].Some? && s.running[i].value.enabled ==>
          && s.record.Some?
          && s.record.value.activeKeyId in s.running[i].value.ring
          && s.running[i].value.active in s.running[i].value.ring
          && (s.running[i].value.active == s.record.value.activeKeyId || s.running[i].value.rotationMode))
    && if s.record.None? then !lapsed && !strayed
       else
         && s.record.value.enabled
         && (AllSealed(Columns(s)) <==> !lapsed)
         && (AllUnder(Columns(s), s.record.value.activeKeyId) <==> !lapsed && !strayed)
  }

  lemma WriteShows(s: System, table: Table, cell: Encryption.Stored, kid: string)
    ensures AllSealed(Columns(Stored(s, table, cell))) <==> AllSealed(Columns(s)) && cell.Sealed?
    ensures AllUnder(Columns(Stored(s, table, cell)), kid) <==>
            AllUnder(Columns(s), kid) && cell.Sealed? && cell.kid == kid
  {
    var before, after := Columns(s), Columns(Stored(s, table, cell));
    var n := if table == AuditLog then |s.audit| else if table == DlqItem then |s.audit| + |s.dlq| else |before|;
    assert after == before[..n] + [cell] + before[n..];
    forall i | 0 <= i < |before|
      ensures after[if i < n then i else i + 1] == before[i]
    {
    }
    assert after[n] == cell;
  }

  lemma StepKeeps(s: System, e: Event, lapsed: bool, strayed: bool)
    requires Kept(s, lapsed, strayed)
    ensures Kept(Step(s, e), lapsed || Lapses(s, e), strayed || Strays(s, e))
  {
    var t := Step(s, e);
    if e.Write? && Running(s, e.index) {
      WriteShows(s, e.table, ToJson(s.running[e.index].value, e.text),
                 if s.record.Some? then s.record.value.activeKeyId else "");
      assert t.running == s.running && t.record == s.record;
    } else {
      assert Columns(t) == Columns(s);
    }
  }

  lemma {:induction false} RunKeeps(s: System, events: seq<Event>, lapsed: bool, strayed: bool)
    requires Kept(s, lapsed, strayed)
    ensures Kept(Run(s, events), lapsed || Happens(s, events, Lapses), strayed || Happens(s, events, Strays))
    decreases |events|
  {
    if events == [] {
    } else {
      StepKeeps(s, events[0], lapsed, strayed);
      RunKeeps(Step(s, events[0]), events[1..], lapsed || Lapses(s, events[0]), strayed || Strays(s, events[0]));
    }
  }

  /**
   * Once encryption is recorded, every stored column is sealed if and only if no
   * process without encryption that was let in before has written since; all are under
   * the recorded key if and only if, besides, no process in rotation mode has written
   * under another.
   */
  lemma RecordedMeansSealedIff(events: seq<Event>)
    requires Run(NOTHING, events).record.Some?
    ensures var s := Run(NOTHING, events);
            && s.record.value.enabled
            && (AllSealed(Columns(s)) <==> !Happens(NOTHING, events, Lapses))
            && (AllUnder(Columns(s), s.record.value.activeKeyId) <==>
                  !Happens(NOTHING, events, Lapses) && !Happens(NOTHING, events, Strays))
  {
    RunKeeps(NOTHING, events, false, false);
  }

  /** In every mode, a process running with encryption holds the recorded key and its own. */
  lemma RunningHoldsRecordedKey(events: seq<Event>, index: nat)
    requires Running(Run(NOTHING, events), index) && Run(NOTHING, events).running[index].value.enabled
    ensures var s := Run(NOTHING, events);
            var r := s.running[index].value;
            && s.record.Some? && s.record.value.enabled
            && s.record.value.activeKeyId in r.ring && r.active in r.ring
            && (!r.rotationMode ==> r.active == s.record.value.activeKeyId)
  {
    RunKeeps(NOTHING, events, false, false);
  }

  /** So every column opens in every process running with encryption, unless one of the two has happened. */
  lemma EveryColumnOpens(events: seq<Event>, index: nat, i: nat)
    requires Running(Run(NOTHING, events), index) && Run(NOTHING, events).running[index].value.enabled
    requires i < |Columns(Run(NOTHING, events))|
    requires !Happens(NOTHING, events, Lapses) && !Happens(NOTHING, events, Strays)
    ensures var s := Run(NOTHING, events);
            FromJson(s.running[index].value, Columns(s)[i]) == Some(Columns(s)[i].text)
  {
    RunningHoldsRecordedKey(events, index);
    RecordedMeansSealedIff(events);
  }

  /** A process without encryption that outlives the record stores a column in the clear. */
  lemma OldWriterLeavesClear(key: string, text: string)
    ensures var off, on := Runtime(false, false, "", {}), Runtime(true, false, key, {key});
            var s := Run(NOTHING, [Start(off, 0), Start(on, 0), Write(0, DlqItem, text)]);
            s.record == Some(StateRow(true, key, [], Completed)) && Columns(s) == [Clear(text)]
  {
    var off, on := Runtime(false, false, "", {}), Runtime(true, false, key, {key});
    var events := [Start(off, 0), Start(on, 0), Write(0, DlqItem, text)];
    var s1 := Step(NOTHING, events[0]);
    var s2 := Step(s1, events[1]);
    assert s1 == System(None, [], [], [], [Some(off)]);
    assert s2 == System(Some(StateRow(true, key, [], Completed)), [], [], [], [Some(off), Some(on)]);
    assert events[1..][1..] == [events[2]] && [events[2]][1..] == [];
    assert Run(NOTHING, events) == Run(s1, events[1..]) == Run(s2, [events[2]]) == Step(s2, events[2]);
  }
}
