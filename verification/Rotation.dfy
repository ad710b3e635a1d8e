/**
 * Key rotation: re-encryption row by row over three tables, which may stop after
 * any write, fail and be rerun, possibly towards another key.
 */
module Rotation {
  import opened Common
  import opened Encryption

  datatype AuditRow = AuditRow(payload: Stored, response: Option<Stored>)

  datatype Db = Db(audit: seq<AuditRow>, dlq: seq<Stored>, targets: seq<Stored>, state: StateRow)

  function Reseal(next: string, cell: Stored): Stored {
    Sealed(next, cell.text)
  }

  function ResealRow(next: string, row: AuditRow): AuditRow {
    AuditRow(Reseal(next, row.payload), if row.response.None? then None else Some(Reseal(next, row.response.value)))
  }

  /** The first `n` rows carry the new key, the others are as before. */
  function AuditPrefix(next: string, rows: seq<AuditRow>, n: nat): seq<AuditRow> {
    seq(|rows|, i requires 0 <= i < |rows| => if i < n then ResealRow(next, rows[i]) else rows[i])
  }

  function CellPrefix(next: string, cells: seq<Stored>, n: nat): seq<Stored> {
    seq(|cells|, i requires 0 <= i < |cells| => if i < n then Reseal(next, cells[i]) else cells[i])
  }

  /** `[...new Set([active, ...previous])]`. */
  function PreviousKeyIds(active: string, previous: seq<string>): seq<string> {
    Dedup([active] + previous)
  }

  lemma {:induction false} DedupHead(x: string, xs: seq<string>)
    ensures Dedup([x] + xs) != [] && Dedup([x] + xs)[0] == x
  {
    if xs == [] {
      assert [x] + xs == [x];
      assert [x][..0] == [];
      assert Dedup([x]) == [x];
    } else {
      var init := [x] + xs[..|xs| - 1];
      assert ([x] + xs)[..|xs|] == init;
      DedupHead(x, xs[..|xs| - 1]);
    }
  }

  lemma {:induction false} DedupSkipsKnown(known: seq<string>, xs: seq<string>)
    requires Distinct(known) && forall x :: x in xs ==> x in known
    ensures Dedup(known + xs) == known
  {
    if xs == [] {
      assert known + xs == known;
      DedupOfDistinct(known);
    } else {
      var init := xs[..|xs| - 1];
      assert (known + xs)[..|known + xs| - 1] == known + init;
      assert xs[|xs| - 1] in xs;
      DedupSkipsKnown(known, init);
    }
  }

  /** Marking the same rotation twice records the same history. */
  lemma PreviousKeyIdsIdempotent(active: string, previous: seq<string>)
    ensures PreviousKeyIds(active, PreviousKeyIds(active, previous)) == PreviousKeyIds(active, previous)
  {
    var once := PreviousKeyIds(active, previous);
    DedupDistinct([active] + previous);
    DedupHead(active, previous);
    DedupAgain(active, once);
  }

  lemma {:induction false} DedupAgain(x: string, xs: seq<string>)
    requires Distinct(xs) && xs != [] && xs[0] == x
    ensures Dedup([x] + xs) == xs
  {
    if |xs| == 1 {
      assert [x] + xs == [x] + [x];
      DedupSkipsKnown([x], [x]);
      assert xs == [x];
    } else {
      var init := xs[..|xs| - 1];
      assert ([x] + xs)[..|xs|] == [x] + init;
      DedupAgain(x, init);
      assert xs == init + [xs[|xs| - 1]];
    }
  }

  // ----- One attempt, as the history sees it -------------------------------------

  /** How far an attempt got: rows rewritten in the three tables, in this order. */
  datatype Progress = Progress(audit: nat, dlq: nat, targets: nat)

  datatype Ending = NotStarted | Stopped(status: RotationStatus) | Finished

  datatype Event =
    | Attempt(next: string, progress: Progress, ending: Ending)
    | InsertAudit(kid: string, payload: string, response: Option<string>)
    | InsertDlq(kid: string, payload: string)
    | InsertTarget(kid: string, config: string)

  predicate Full(db: Db, p: Progress) {
    p == Progress(|db.audit|, |db.dlq|, |db.targets|)
  }

  /** Tables are rewritten one after the other; only a full pass may complete. */
  predicate Possible(db: Db, e: Event) {
    e.Attempt? ==>
      && e.progress.audit <= |db.audit| && e.progress.dlq <= |db.dlq| && e.progress.targets <= |db.targets|
      && (e.progress.dlq > 0 ==> e.progress.audit == |db.audit|)
      && (e.progress.targets > 0 ==> e.progress.dlq == |db.dlq|)
      && (e.ending.NotStarted? ==> e.progress == Progress(0, 0, 0))
      && (e.ending.Stopped? ==> e.ending.status != Completed)
      && (e.ending.Finished? ==> Full(db, e.progress))
      && e.next != db.state.activeKeyId
  }

  function StateAfter(s: StateRow, next: string, ending: Ending): StateRow {
    match ending
    case NotStarted => s
    case Stopped(status) => s.(previousKeyIds := PreviousKeyIds(s.activeKeyId, s.previousKeyIds), status := status)
    case Finished =>
      s.(activeKeyId := next, previousKeyIds := PreviousKeyIds(s.activeKeyId, s.previousKeyIds), status := Completed)
  }

  function After(db: Db, e: Event): Db {
    match e
    case Attempt(next, p, ending) =>
      Db(AuditPrefix(next, db.audit, p.audit),
         CellPrefix(next, db.dlq, p.dlq),
         CellPrefix(next, db.targets, p.targets),
         StateAfter(db.state, next, ending))
    case InsertAudit(kid, payload, response) =>
      var sealed := if response.None? then None else Some(Sealed(kid, response.value));
      db.(audit := db.audit + [AuditRow(Sealed(kid, payload), sealed)])
    case InsertDlq(kid, payload) => db.(dlq := db.dlq + [Sealed(kid, payload)])
    case InsertTarget(kid, config) => db.(targets := db.targets + [Sealed(kid, config)])
  }

  /** What an attempt leaves, row by row: the rows it reached are sealed anew, the others as they were. */
  lemma AttemptShape(db: Db, e: Event)
    requires e.Attempt?
    ensures var t := After(db, e);
            && |t.audit| == |db.audit| && |t.dlq| == |db.dlq| && |t.targets| == |db.targets|
            && (forall i :: 0 <= i < |db.audit| ==>
                  t.audit[i] == if i >= e.progress.audit then db.audit[i]
                                else AuditRow(Sealed(e.next, db.audit[i].payload.text),
                                              match db.audit[i].response
                                              case None => None
                                              case Some(cell) => Some(Sealed(e.next, cell.text))))
            && (forall i :: 0 <= i < |db.dlq| ==>
                  t.dlq[i] == if i >= e.progress.dlq then db.dlq[i] else Sealed(e.next, db.dlq[i].text))
            && (forall i :: 0 <= i < |db.targets| ==>
                  t.targets[i] == if i >= e.progress.targets then db.targets[i] else Sealed(e.next, db.targets[i].text))
  {
  }

  /** An ordinary write adds one row under its writer's key. */
  lemma InsertShape(db: Db, kid: string, text: string, response: Option<string>)
    ensures After(db, InsertAudit(kid, text, response)) ==
            Db(db.audit + [AuditRow(Sealed(kid, text),
                                    match response case None => None case Some(answer) => Some(Sealed(kid, answer)))],
               db.dlq, db.targets, db.state)
    ensures After(db, InsertDlq(kid, text)) == Db(db.audit, db.dlq + [Sealed(kid, text)], db.targets, db.state)
    ensures After(db, InsertTarget(kid, text)) == Db(db.audit, db.dlq, db.targets + [Sealed(kid, text)], db.state)
  {
  }

  /** What an attempt leaves in the record: once begun, the replaced key is listed, first and once. */
  lemma AttemptRecord(db: Db, e: Event)
    requires e.Attempt?
    ensures var s, t := db.state, After(db, e).state;
            && t.enabled == s.enabled
            && (e.ending.NotStarted? ==> t == s)
            && (e.ending.Stopped? ==> t.activeKeyId == s.activeKeyId && t.status == e.ending.status)
            && (e.ending.Finished? ==> t.activeKeyId == e.next && t.status == Completed)
            && (!e.ending.NotStarted? ==>
                  && t.previousKeyIds != [] && t.previousKeyIds[0] == s.activeKeyId && Distinct(t.previousKeyIds)
                  && forall kid :: kid in t.previousKeyIds <==> kid == s.activeKeyId || kid in s.previousKeyIds)
  {
    DedupHead(db.state.activeKeyId, db.state.previousKeyIds);
    DedupDistinct([db.state.activeKeyId] + db.state.previousKeyIds);
  }

  // ----- The service ----------------------------------------------------------------

  datatype Result = NotConfigured | AlreadyActive | Refused | Threw | Rotated

  /** Dead letters pending or retrying, live idempotency keys, and messages not yet consumed. */
  datatype Activity = Activity(deadLetters: nat, liveKeys: nat, kafkaLag: nat)

  class EncryptionRotationService {
    var db: Db
    var writes: nat
    const runtime: Runtime
    const fails: nat -> bool // whether the n-th write throws; a crash is a tail of failures

    constructor (db: Db, runtime: Runtime, fails: nat -> bool)
      ensures this.db == db && this.runtime == runtime && this.fails == fails
    {
      this.db, this.runtime, this.fails, writes := db, runtime, fails, 0;
    }

    predicate Readable(cell: Stored) {
      FromJson(runtime, cell).Some?
    }

    predicate ReadableRow(row: AuditRow) {
      Readable(row.payload) && (row.response.Some? ==> Readable(row.response.value))
    }

    method TryWrite() returns (ok: bool)
      modifies this`writes
      ensures ok == !fails(old(writes)) && writes == old(writes) + 1
    {
      ok := !fails(writes);
      writes := writes + 1;
    }

    method RotateAuditLogs() returns (ok: bool, ghost done: nat)
      requires runtime.enabled
      modifies this
      ensures done <= |old(db).audit| && db == old(db).(audit := AuditPrefix(runtime.active, old(db).audit, done))
      ensures old(writes) <= writes
      ensures ok ==> done == |old(db).audit|
      ensures (forall n :: !fails(n)) && (forall row :: row in old(db).audit ==> ReadableRow(row)) ==> ok
    {
      var rows := db.audit;
      done := 0;
      assert AuditPrefix(runtime.active, rows, 0) == rows;
      for i := 0 to |rows|
        invariant done == i && old(writes) <= writes
        invariant db == old(db).(audit := AuditPrefix(runtime.active, rows, i))
      {
        var payload := FromJson(runtime, rows[i].payload);
        if payload.None? {
          assert !ReadableRow(rows[i]);
          return false, done;
        }
        var response := None;
        if rows[i].response.Some? {
          var text := FromJson(runtime, rows[i].response.value);
          if text.None? {
            assert !ReadableRow(rows[i]);
            return false, done;
          }
          response := Some(ToJson(runtime, text.value));
        }
        var written := TryWrite();
        if !written {
          return false, done;
        }
        db := db.(audit := db.audit[i := AuditRow(ToJson(runtime, payload.value), response)]);
        assert db.audit == AuditPrefix(runtime.active, rows, i + 1);
        done := i + 1;
      }
      ok := true;
    }

    method RotateDlqItems() returns (ok: bool, ghost done: nat)
      requires runtime.enabled
      modifies this
      ensures done <= |old(db).dlq| && db == old(db).(dlq := CellPrefix(runtime.active, old(db).dlq, done))
      ensures old(writes) <= writes
      ensures ok ==> done == |old(db).dlq|
      ensures (forall n :: !fails(n)) && (forall cell :: cell in old(db).dlq ==> Readable(cell)) ==> ok
    {
      var rows := db.dlq;
      done := 0;
      assert CellPrefix(runtime.active, rows, 0) == rows;
      for i := 0 to |rows|
        invariant done == i && old(writes) <= writes
        invariant db == old(db).(dlq := CellPrefix(runtime.active, rows, i))
      {
        var payload := FromJson(runtime, rows[i]);
        if payload.None? {
          assert !Readable(rows[i]);
          return false, done;
        }
        var written := TryWrite();
        if !written {
          return false, done;
        }
        db := db.(dlq := db.dlq[i := ToJson(runtime, payload.value)]);
        assert db.dlq == CellPrefix(runtime.active, rows, i + 1);
        done := i + 1;
      }
      ok := true;
    }

    method RotateTargetSystems() returns (ok: bool, ghost done: nat)
      requires runtime.enabled
      modifies this
      ensures done <= |old(db).targets| && db == old(db).(targets := CellPrefix(runtime.active, old(db).targets, done))
      ensures old(writes) <= writes
      ensures ok ==> done == |old(db).targets|
      ensures (forall n :: !fails(n)) && (forall cell :: cell in old(db).targets ==> Readable(cell)) ==> ok
    {
      var rows := db.targets;
      done := 0;
      assert CellPrefix(runtime.active, rows, 0) == rows;
      for i := 0 to |rows|
        invariant done == i && old(writes) <= writes
        invariant db == old(db).(targets := CellPrefix(runtime.active, rows, i))
      {
        var config := FromJson(runtime, rows[i]);
        if config.None? {
          assert !Readable(rows[i]);
          return false, done;
        }
        var written := TryWrite();
        if !written {
          return false, done;
        }
        db := db.(targets := db.targets[i := ToJson(runtime, config.value)]);
        assert db.targets == CellPrefix(runtime.active, rows, i + 1);
        done := i + 1;
      }
      ok := true;
    }

    /** `state` is the record as loaded at the start of the attempt. */
    method MarkRotation(status: RotationStatus, state: StateRow) returns (ok: bool)
      modifies this
      ensures db == if ok then old(db).(state := old(db).state.(
                      previousKeyIds := PreviousKeyIds(state.activeKeyId, state.previousKeyIds), status := status))
                    else old(db)
      ensures ok == !fails(old(writes)) && writes == old(writes) + 1
    {
      ok := TryWrite();
      if ok {
        db := db.(state := db.state.(
          previousKeyIds := PreviousKeyIds(state.activeKeyId, state.previousKeyIds), status := status));
      }
    }

    method CompleteRotation(state: StateRow) returns (ok: bool)
      modifies this
      ensures db == if ok then old(db).(state := old(db).state.(activeKeyId := runtime.active,
                      previousKeyIds := PreviousKeyIds(state.activeKeyId, state.previousKeyIds), status := Completed))
                    else old(db)
      ensures ok == !fails(old(writes)) && writes == old(writes) + 1
    {
      ok := TryWrite();
      if ok {
        db := db.(state := db.state.(activeKeyId := runtime.active,
          previousKeyIds := PreviousKeyIds(state.activeKeyId, state.previousKeyIds), status := Completed));
      }
    }

    /** `activity` is what the service counts before it starts; with any of it under way it refuses. */
    method RotateToActiveKey(activity: Activity) returns (result: Result, ghost event: Event)
      modifies this
      ensures result == NotConfigured || result == AlreadyActive || result == Refused ==> db == old(db)
      ensures result == NotConfigured <==> !runtime.enabled || runtime.active !in runtime.ring
      ensures result == AlreadyActive <==> runtime.enabled && runtime.active in runtime.ring
                                           && old(db).state.activeKeyId == runtime.active
      ensures result == Refused <==>
                && runtime.enabled && runtime.active in runtime.ring && old(db).state.activeKeyId != runtime.active
                && (activity.deadLetters > 0 || activity.liveKeys > 0 || activity.kafkaLag > 0)
      ensures result == Rotated ==> db.state.activeKeyId == runtime.active && db.state.status == Completed
      ensures result == Threw ==> db.state.activeKeyId == old(db).state.activeKeyId
      ensures result == Threw ==> // audit rows first, then dead letters, then target systems
                && event.Attempt?
                && (event.progress.dlq > 0 ==> event.progress.audit == |old(db).audit|)
                && (event.progress.targets > 0 ==> event.progress.dlq == |old(db).dlq|)
      ensures result == Threw && fails(old(writes)) ==> db == old(db)
      ensures result == Threw && !fails(old(writes)) ==>
                writes > old(writes) + 1
                && db.state.status == if fails(writes - 1) then Running else Failed
      ensures result == Threw || result == Rotated ==>
                && event.Attempt? && event.next == runtime.active && Possible(old(db), event)
                && db == After(old(db), event)
                && (result == Rotated <==> event.ending == Finished)
      ensures runtime.enabled && runtime.active in runtime.ring && activity == Activity(0, 0, 0)
              && old(db).state.activeKeyId != runtime.active
              && (forall n :: !fails(n))
              && (forall row :: row in old(db).audit ==> ReadableRow(row))
              && (forall cell :: cell in old(db).dlq + old(db).targets ==> Readable(cell))
              ==> result == Rotated
    {
      hide PreviousKeyIds, AuditPrefix, CellPrefix;
      event := Attempt(runtime.active, Progress(0, 0, 0), NotStarted);
      if !runtime.enabled || runtime.active !in runtime.ring {
        return NotConfigured, event;
      }
      var state := db.state;
      if state.activeKeyId == runtime.active {
        return AlreadyActive, event;
      }
      if activity.deadLetters > 0 || activity.liveKeys > 0 || activity.kafkaLag > 0 {
        return Refused, event;
      }
      var ok := MarkRotation(Running, state);
      if !ok {
        NothingRewritten(runtime.active, db);
        return Threw, event;
      }
      ghost var i, j, k := 0, 0, 0;
      NothingRewritten(runtime.active, old(db));
      ok, i := RotateAuditLogs();
      if ok {
        ok, j := RotateDlqItems();
      }
      if ok {
        ok, k := RotateTargetSystems();
      }
      if ok {
        ok := CompleteRotation(state);
        if ok {
          event := Attempt(runtime.active, Progress(i, j, k), Finished);
          return Rotated, event;
        }
      }
      var marked := MarkRotation(Failed, state);
      event := Attempt(runtime.active, Progress(i, j, k), Stopped(if marked then Failed else Running));
      result := Threw;
    }
  }

  lemma NothingRewritten(next: string, db: Db)
    ensures AuditPrefix(next, db.audit, 0) == db.audit
    ensures CellPrefix(next, db.dlq, 0) == db.dlq && CellPrefix(next, db.targets, 0) == db.targets
  {
  }
}
