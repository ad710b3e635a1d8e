/** Key rotation over whole histories of attempts, reruns and ordinary writes. */
module RotationHistory {
  import opened Common
  import opened Encryption
  import opened Rotation

  ghost predicate PossibleRun(db: Db, events: seq<Event>)
    decreases |events|
  {
    events != [] ==> Possible(db, events[0]) && PossibleRun(After(db, events[0]), events[1..])
  }

  function Run(db: Db, events: seq<Event>): Db
    decreases |events|
  {
    if events == [] then db else Run(After(db, events[0]), events[1..])
  }

  // ----- No plaintext is ever lost ------------------------------------------------

  predicate SameAuditText(a: AuditRow, b: AuditRow) {
    a.payload.text == b.payload.text
    && (a.response.Some? <==> b.response.Some?)
    && (a.response.Some? ==> a.response.value.text == b.response.value.text)
  }

  /** Every row of `a` is still in `b`, at its place and with its plaintext. */
  predicate Preserves(a: Db, b: Db) {
    && |a.audit| <= |b.audit| && (forall i :: 0 <= i < |a.audit| ==> SameAuditText(a.audit[i], b.audit[i]))
    && |a.dlq| <= |b.dlq| && (forall i :: 0 <= i < |a.dlq| ==> a.dlq[i].text == b.dlq[i].text)
    && |a.targets| <= |b.targets| && (forall i :: 0 <= i < |a.targets| ==> a.targets[i].text == b.targets[i].text)
  }

  lemma PreservesTransitive(a: Db, b: Db, c: Db)
    requires Preserves(a, b) && Preserves(b, c)
    ensures Preserves(a, c)
  {
    forall i | 0 <= i < |a.audit|
      ensures SameAuditText(a.audit[i], c.audit[i])
    {
      assert SameAuditText(a.audit[i], b.audit[i]) && SameAuditText(b.audit[i], c.audit[i]);
    }
  }

  lemma {:induction false} PlaintextSurvives(db: Db, events: seq<Event>)
    requires PossibleRun(db, events)
    ensures Preserves(db, Run(db, events))
    decreases |events|
  {
    if events == [] {
    } else {
      var next := After(db, events[0]);
      assert Preserves(db, next);
      PlaintextSurvives(next, events[1..]);
      PreservesTransitive(db, next, Run(next, events[1..]));
    }
  }

  // ----- Which keys may be needed ----------------------------------------------------

  predicate Under(keys: set<string>, cell: Stored) {
    cell.Sealed? ==> cell.kid in keys
  }

  /** No column of the database needs a key outside `keys`. */
  predicate Within(db: Db, keys: set<string>) {
    && (forall i :: 0 <= i < |db.audit| ==>
          Under(keys, db.audit[i].payload) && (db.audit[i].response.Some? ==> Under(keys, db.audit[i].response.value)))
    && (forall i :: 0 <= i < |db.dlq| ==> Under(keys, db.dlq[i]))
    && (forall i :: 0 <= i < |db.targets| ==> Under(keys, db.targets[i]))
  }

  function Recorded(s: StateRow): set<string> {
    {s.activeKeyId} + set k | k in s.previousKeyIds
  }

  /** Keys used since the last completed rotation, by attempts and by writers. */
  function UsedSince(used: set<string>, e: Event): set<string> {
    match e
    case Attempt(next, _, NotStarted) => used
    case Attempt(next, _, Stopped(_)) => used + {next}
    case Attempt(next, _, Finished) => {}
    case InsertAudit(kid, _, _) => used + {kid}
    case InsertDlq(kid, _) => used + {kid}
    case InsertTarget(kid, _) => used + {kid}
  }

  function UsedAfter(used: set<string>, events: seq<Event>): set<string>
    decreases |events|
  {
    if events == [] then used else UsedAfter(UsedSince(used, events[0]), events[1..])
  }

  lemma StepWithin(db: Db, used: set<string>, e: Event)
    requires Possible(db, e) && Within(db, Recorded(db.state) + used)
    ensures Within(After(db, e), Recorded(After(db, e).state) + UsedSince(used, e))
  {
    if e.Attempt? && !e.ending.NotStarted? {
      assert Recorded(db.state) <= Recorded(After(db, e).state);
    }
  }

  /** A full rewrite leaves every column under the new key alone. */
  lemma FullRewriteIsUniform(db: Db, next: string)
    ensures Within(After(db, Attempt(next, Progress(|db.audit|, |db.dlq|, |db.targets|), Finished)), {next})
  {
  }

  /**
   * After any history, the keys a reader may need are the active one, the recorded
   * previous ones, and those used since the last completed rotation.
   */
  lemma {:induction false} KeysStayAccounted(db: Db, used: set<string>, events: seq<Event>)
    requires PossibleRun(db, events) && Within(db, Recorded(db.state) + used)
    ensures Within(Run(db, events), Recorded(Run(db, events).state) + UsedAfter(used, events))
    decreases |events|
  {
    if events == [] {
    } else {
      StepWithin(db, used, events[0]);
      KeysStayAccounted(After(db, events[0]), UsedSince(used, events[0]), events[1..]);
    }
  }

  /** Every value of the original database reads back unchanged wherever those keys are at hand. */
  lemma EverythingStillDecrypts(db: Db, used: set<string>, events: seq<Event>, reader: Runtime)
    requires PossibleRun(db, events) && Within(db, Recorded(db.state) + used)
    requires Recorded(Run(db, events).state) + UsedAfter(used, events) <= reader.ring
    ensures var end := Run(db, events);
            && |db.audit| <= |end.audit| && |db.dlq| <= |end.dlq| && |db.targets| <= |end.targets|
            && (forall i :: 0 <= i < |db.audit| ==>
                  && FromJson(reader, end.audit[i].payload) == Some(db.audit[i].payload.text)
                  && (db.audit[i].response.Some? ==>
                        && end.audit[i].response.Some?
                        && FromJson(reader, end.audit[i].response.value) == Some(db.audit[i].response.value.text)))
            && (forall i :: 0 <= i < |db.dlq| ==> FromJson(reader, end.dlq[i]) == Some(db.dlq[i].text))
            && (forall i :: 0 <= i < |db.targets| ==> FromJson(reader, end.targets[i]) == Some(db.targets[i].text))
  {
    PlaintextSurvives(db, events);
    KeysStayAccounted(db, used, events);
    var end := Run(db, events);
    forall i | 0 <= i < |db.audit|
      ensures FromJson(reader, end.audit[i].payload) == Some(db.audit[i].payload.text)
      ensures db.audit[i].response.Some? ==>
                end.audit[i].response.Some?
                && FromJson(reader, end.audit[i].response.value) == Some(db.audit[i].response.value.text)
    {
      assert SameAuditText(db.audit[i], end.audit[i]);
    }
    forall i | 0 <= i < |db.dlq|
      ensures FromJson(reader, end.dlq[i]) == Some(db.dlq[i].text)
    {
      assert Under(Recorded(end.state) + UsedAfter(used, events), end.dlq[i]);
    }
    forall i | 0 <= i < |db.targets|
      ensures FromJson(reader, end.targets[i]) == Some(db.targets[i].text)
    {
      assert Under(Recorded(end.state) + UsedAfter(used, events), end.targets[i]);
    }
  }

  /** The recorded active key moves only together with the last row: by then every column carries it. */
  lemma ActiveKeyMovesLast(db: Db, e: Event)
    requires Possible(db, e)
    ensures After(db, e).state.activeKeyId != db.state.activeKeyId <==> e.Attempt? && e.ending.Finished?
    ensures After(db, e).state.activeKeyId != db.state.activeKeyId ==>
              Within(After(db, e), {After(db, e).state.activeKeyId})
  {
    if e.Attempt? && e.ending.Finished? {
      FullRewriteIsUniform(db, e.next);
    }
  }

  // ----- Reruns ------------------------------------------------------------------------

  function Completing(db: Db, next: string): Event {
    Attempt(next, Progress(|db.audit|, |db.dlq|, |db.targets|), Finished)
  }

  lemma PartialThenComplete(db: Db, e: Event, next: string)
    requires e.Attempt? && Possible(db, e) && !e.ending.Finished?
    ensures After(After(db, e), Completing(After(db, e), next)) == After(db, Completing(db, next))
  {
    PreviousKeyIdsIdempotent(db.state.activeKeyId, db.state.previousKeyIds);
    var a, b := After(After(db, e), Completing(After(db, e), next)), After(db, Completing(db, next));
    assert a.audit == b.audit && a.dlq == b.dlq && a.targets == b.targets;
  }

  /**
   * Whatever incomplete attempts came before, towards whichever keys, completing a
   * rotation reaches the very state an uninterrupted one would have reached.
   */
  lemma {:induction false} RerunReachesSameState(db: Db, partials: seq<Event>, next: string)
    requires PossibleRun(db, partials)
    requires forall e :: e in partials ==> e.Attempt? && !e.ending.Finished?
    ensures After(Run(db, partials), Completing(Run(db, partials), next)) == After(db, Completing(db, next))
    decreases |partials|
  {
    if partials == [] {
    } else {
      assert partials[0] in partials;
      RerunReachesSameState(After(db, partials[0]), partials[1..], next);
      PartialThenComplete(db, partials[0], next);
    }
  }

  // ----- When the recorded keys are enough --------------------------------------------

  function Max(a: nat, b: nat): nat {
    if a >= b then a else b
  }

  /** How many rows of each table the attempts of a history rewrite at most. */
  function Reach(events: seq<Event>): Progress
    decreases |events|
  {
    if events == [] then Progress(0, 0, 0)
    else
      var rest := Reach(events[1..]);
      if events[0].Attempt? then
        var p := events[0].progress;
        Progress(Max(p.audit, rest.audit), Max(p.dlq, rest.dlq), Max(p.targets, rest.targets))
      else rest
  }

  function WrittenKey(e: Event): string {
    if e.Attempt? then e.next else e.kid
  }

  /** `e` writes a row that no later attempt, reaching no further than `later`, rewrites. */
  predicate Shows(db: Db, e: Event, later: Progress) {
    match e
    case Attempt(_, p, _) => p.audit > later.audit || p.dlq > later.dlq || p.targets > later.targets
    case InsertAudit(_, _, _) => |db.audit| >= later.audit
    case InsertDlq(_, _) => |db.dlq| >= later.dlq
    case InsertTarget(_, _) => |db.targets| >= later.targets
  }

  /** The key of every write that still shows at the end is among `keys`. */
  predicate ShownKeysIn(db: Db, events: seq<Event>, keys: set<string>)
    decreases |events|
  {
    events != [] ==>
      && (Shows(db, events[0], Reach(events[1..])) ==> WrittenKey(events[0]) in keys)
      && ShownKeysIn(After(db, events[0]), events[1..], keys)
  }

  /** The rows beyond `p` need no key outside `keys`. */
  predicate WithinBeyond(db: Db, p: Progress, keys: set<string>) {
    && (forall i :: p.audit <= i < |db.audit| ==>
          Under(keys, db.audit[i].payload) && (db.audit[i].response.Some? ==> Under(keys, db.audit[i].response.value)))
    && (forall i :: p.dlq <= i < |db.dlq| ==> Under(keys, db.dlq[i]))
    && (forall i :: p.targets <= i < |db.targets| ==> Under(keys, db.targets[i]))
  }

  lemma AttemptShows(db: Db, e: Event, later: Progress, keys: set<string>)
    requires e.Attempt? && Possible(db, e)
    ensures var p := e.progress;
            WithinBeyond(After(db, e), later, keys) <==>
            && WithinBeyond(db, Progress(Max(p.audit, later.audit), Max(p.dlq, later.dlq), Max(p.targets, later.targets)),
                            keys)
            && (Shows(db, e, later) ==> e.next in keys)
  {
    var p, t := e.progress, After(db, e);
    if p.audit > later.audit {
      assert t.audit[later.audit].payload == Sealed(e.next, db.audit[later.audit].payload.text);
    }
    if p.dlq > later.dlq {
      assert t.dlq[later.dlq] == Sealed(e.next, db.dlq[later.dlq].text);
    }
    if p.targets > later.targets {
      assert t.targets[later.targets] == Sealed(e.next, db.targets[later.targets].text);
    }
    assert forall i :: Max(p.audit, later.audit) <= i < |db.audit| ==> t.audit[i] == db.audit[i];
    assert forall i :: Max(p.dlq, later.dlq) <= i < |db.dlq| ==> t.dlq[i] == db.dlq[i];
    assert forall i :: Max(p.targets, later.targets) <= i < |db.targets| ==> t.targets[i] == db.targets[i];
  }

  lemma InsertShows(db: Db, e: Event, later: Progress, keys: set<string>)
    requires !e.Attempt?
    ensures WithinBeyond(After(db, e), later, keys) <==>
            WithinBeyond(db, later, keys) && (Shows(db, e, later) ==> e.kid in keys)
  {
    var t := After(db, e);
    assert forall i :: 0 <= i < |db.audit| ==> t.audit[i] == db.audit[i];
    assert forall i :: 0 <= i < |db.dlq| ==> t.dlq[i] == db.dlq[i];
    assert forall i :: 0 <= i < |db.targets| ==> t.targets[i] == db.targets[i];
    match e
    case InsertAudit(kid, payload, _) => assert t.audit[|db.audit|].payload == Sealed(kid, payload);
    case InsertDlq(kid, payload) => assert t.dlq[|db.dlq|] == Sealed(kid, payload);
    case InsertTarget(kid, config) => assert t.targets[|db.targets|] == Sealed(kid, config);
  }

  /** After any history the stored keys are those of the writes that show and of the old rows never rewritten. */
  lemma {:induction false} StoredKeysAreShown(db: Db, events: seq<Event>, keys: set<string>)
    requires PossibleRun(db, events)
    ensures Within(Run(db, events), keys) <==> WithinBeyond(db, Reach(events), keys) && ShownKeysIn(db, events, keys)
    decreases |events|
  {
    if events == [] {
    } else {
      StoredKeysAreShown(After(db, events[0]), events[1..], keys);
      if events[0].Attempt? {
        AttemptShows(db, events[0], Reach(events[1..]), keys);
      } else {
        InsertShows(db, events[0], Reach(events[1..]), keys);
      }
    }
  }

  lemma {:induction false} RecordedGrows(db: Db, events: seq<Event>)
    ensures Recorded(db.state) <= Recorded(Run(db, events).state)
    decreases |events|
  {
    if events == [] {
    } else {
      assert Recorded(db.state) <= Recorded(After(db, events[0]).state);
      RecordedGrows(After(db, events[0]), events[1..]);
    }
  }

  /**
   * Exactly when the recorded keys open everything after a history: every attempt or
   * writer whose rows are not all rewritten later must have used a key that is recorded
   * at the end.
   */
  lemma RecordedKeysSufficeIff(db: Db, events: seq<Event>)
    requires PossibleRun(db, events) && Within(db, Recorded(db.state))
    ensures Within(Run(db, events), Recorded(Run(db, events).state)) <==>
            ShownKeysIn(db, events, Recorded(Run(db, events).state))
  {
    var keys := Recorded(Run(db, events).state);
    StoredKeysAreShown(db, events, keys);
    RecordedGrows(db, events);
    assert WithinBeyond(db, Reach(events), keys);
  }

  /** For one attempt: it finished, rewrote nothing, or went to a key that was recorded already. */
  lemma OneAttemptSufficesIff(db: Db, e: Event)
    requires Possible(db, e) && e.Attempt? && Within(db, Recorded(db.state))
    ensures Within(After(db, e), Recorded(After(db, e).state)) <==>
            e.ending.Finished? || e.progress == Progress(0, 0, 0) || e.next in Recorded(db.state)
  {
    RecordedKeysSufficeIff(db, [e]);
    assert [e][1..] == [] && Run(db, [e]) == Run(After(db, e), []) == After(db, e);
    assert ShownKeysIn(db, [e], Recorded(After(db, e).state)) <==>
           (Shows(db, e, Progress(0, 0, 0)) ==> e.next in Recorded(After(db, e).state));
  }

  /**
   * The key of a failed attempt is recorded nowhere: the recorded keys alone do not
   * open the rows the attempt had already rewritten.
   */
  lemma FailedAttemptKeyUnrecorded(a: string, b: string, text: string)
    requires a != b
    ensures var db := Db([], [Sealed(a, text)], [], StateRow(true, a, [], Completed));
            var e := Attempt(b, Progress(0, 1, 0), Stopped(Failed));
            && Possible(db, e) && Within(db, Recorded(db.state))
            && !Within(After(db, e), Recorded(After(db, e).state))
  {
    var db := Db([], [Sealed(a, text)], [], StateRow(true, a, [], Completed));
    var e := Attempt(b, Progress(0, 1, 0), Stopped(Failed));
    assert PreviousKeyIds(a, []) == [a] by {
      assert [a] + [] == [a];
      DedupOfDistinct([a]);
    }
    assert After(db, e).dlq[0] == Sealed(b, text);
    assert !Under(Recorded(After(db, e).state), After(db, e).dlq[0]);
  }
}
