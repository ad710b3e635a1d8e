/**
 * When giving a key back leaves nothing on record: no call reported successful, no dead
 * letter and no queued message. A call that threw may still have changed the target.
 */
module DeliveryRelease {
  import opened Common
  import opened Events
  import opened Idempotency
  import opened Dlq
  import opened Delivery
  import opened DeliveryEvidence

  /** What a handler has on record: a call reported successful, a dead letter or a queued message. */
  predicate Effect(w: World, id: nat, e: Event) {
    SuccessBy(w, id, e) || RowBy(w, id, e) || QueuedBy(w, id, e)
  }

  /**
   * The step in which handler `i` has its effect and then fails: counting after the
   * insert throws, or publishing a success or a durable failure does.
   */
  ghost function Upset(i: nat): (State, Action) -> bool {
    (s: State, act: Action) =>
      && act.Move? && act.id == i && i < |s.agents| && s.agents[i].job.Webhook? && !act.choice.ok
      && (s.agents[i].pc.Counting? || s.agents[i].pc == Announcing(Success) || s.agents[i].pc == Announcing(Durable))
  }

  // ----- The entries of the shared logs name their agents -----------------------------

  predicate AuthorsExist(s: State) {
    && (forall k :: 0 <= k < |s.world.calls| ==> s.world.calls[k].author < |s.agents|)
    && (forall k :: 0 <= k < |s.world.dead| ==> s.world.dead[k].author < |s.agents|)
    && (forall k :: 0 <= k < |s.world.inbox| ==> s.world.inbox[k].author < |s.agents|)
  }

  /** The entries a move adds name its own agent. */
  ghost predicate SignedBy(w: World, v: World, id: nat) {
    && (forall k :: 0 <= k < |v.calls| ==> (k < |w.calls| && v.calls[k] == w.calls[k]) || v.calls[k].author == id)
    && (forall k :: 0 <= k < |v.inbox| ==> (k < |w.inbox| && v.inbox[k] == w.inbox[k]) || v.inbox[k].author == id)
    && (forall k :: 0 <= k < |v.dead| ==>
          || (k < |w.dead| && v.dead[k].author == w.dead[k].author && v.dead[k].item.event == w.dead[k].item.event)
          || v.dead[k].author == id)
  }

  lemma MoveIsSigned(c: Config, w: World, id: nat, a: Agent, ch: Choice)
    requires c.Valid() && AgentOk(c, w, a)
    ensures SignedBy(w, MoveAgent(c, w, id, a, ch).0, id)
  {
  }

  /** A step of one agent leaves the effects of every other as they are. */
  lemma OthersKeepEffect(w: World, v: World, id: nat, i: nat, e: Event)
    requires SignedBy(w, v, id) && i != id && Grows(w, v)
    ensures SuccessBy(v, i, e) <==> SuccessBy(w, i, e)
    ensures QueuedBy(v, i, e) <==> QueuedBy(w, i, e)
    ensures RowBy(v, i, e) <==> RowBy(w, i, e)
  {
    if SuccessBy(v, i, e) {
      var k :| 0 <= k < |v.calls| && v.calls[k] == Call(i, e, Succeeded);
      assert w.calls[k] == Call(i, e, Succeeded);
    }
    if QueuedBy(v, i, e) {
      var k :| 0 <= k < |v.inbox| && v.inbox[k] == Queued.Queued(i, e);
      assert w.inbox[k] == Queued.Queued(i, e);
    }
    if RowBy(v, i, e) {
      var k :| 0 <= k < |v.dead| && v.dead[k].author == i && v.dead[k].item.event == e;
      assert w.dead[k].author == i && w.dead[k].item.event == e;
    }
    if RowBy(w, i, e) {
      var k :| 0 <= k < |w.dead| && w.dead[k].author == i && w.dead[k].item.event == e;
      assert v.dead[k].author == i && v.dead[k].item.event == e;
    }
  }

  // ----- Where a handler stands tells its effect --------------------------------------

  /** `upset` tells whether the handler has failed after its effect so far. */
  predicate EffectTold(w: World, id: nat, a: Agent, upset: bool) {
    a.job.Webhook? ==>
      var effect := Effect(w, id, a.job.event);
      match a.pc
      case Counting => effect && !upset
      case Announcing(Unaccepted(_)) => effect <==> upset
      case Announcing(_) => effect && !upset
      case Releasing(_) => effect <==> upset
      case Ended(Abandoned(_)) => effect <==> upset
      case Ended(_) => !upset
      case _ => !effect && !upset
  }

  lemma WebhookMoveTells(c: Config, w: World, id: nat, a: Agent, ch: Choice, upset: bool)
    requires c.Valid() && AgentOk(c, w, a) && a.job.Webhook? && AtWebhookPc(a) && EffectTold(w, id, a, upset)
    ensures var (v, b) := MoveAgent(c, w, id, a, ch); EffectTold(v, id, b, upset)
  {
  }

  lemma CallTells(c: Config, w: World, id: nat, a: Agent, ch: Choice)
    requires c.Valid() && AgentOk(c, w, a) && a.job.Webhook? && a.pc.Calling? && EffectTold(w, id, a, false)
    ensures var (v, b) := MoveAgent(c, w, id, a, ch); EffectTold(v, id, b, false)
  {
    var v := MoveAgent(c, w, id, a, ch).0;
    var call := Call(id, a.job.event, ch.outcome);
    assert v.calls == w.calls + [call] && v.calls[|w.calls|] == call;
    assert SuccessBy(v, id, a.job.event) <==> ch.outcome == Succeeded;
    assert RowBy(v, id, a.job.event) <==> RowBy(w, id, a.job.event);
  }

  lemma InsertTells(c: Config, w: World, id: nat, a: Agent, ch: Choice)
    requires c.Valid() && AgentOk(c, w, a) && a.job.Webhook? && a.pc.Creating? && EffectTold(w, id, a, false)
    ensures var (v, b) := MoveAgent(c, w, id, a, ch); EffectTold(v, id, b, false)
  {
    var v := MoveAgent(c, w, id, a, ch).0;
    if ch.ok {
      assert v.dead[|w.dead|].author == id && v.dead[|w.dead|].item.event == a.job.event;
      assert RowBy(v, id, a.job.event);
    }
  }

  lemma MoveTells(c: Config, s: State, id: nat, ch: Choice, upset: bool)
    requires c.Valid() && WellFormed(c, s) && id < |s.agents| && EffectTold(s.world, id, s.agents[id], upset)
    ensures var (v, b) := MoveAgent(c, s.world, id, s.agents[id], ch);
            b.job == s.agents[id].job && EffectTold(v, id, b, upset || Upset(id)(s, Move(id, ch)))
  {
    var a := s.agents[id];
    MoveGrows(c, s.world, id, a, ch);
    if a.job.Webhook? {
      if AtWebhookPc(a) {
        WebhookMoveTells(c, s.world, id, a, ch, upset);
      } else if a.pc.Calling? {
        CallTells(c, s.world, id, a, ch);
      } else if a.pc.Creating? {
        InsertTells(c, s.world, id, a, ch);
      } else {
        assert MoveAgent(c, s.world, id, a, ch).0 == s.world;
      }
    }
  }

  /** Agent `i`, present or still to come, stands where `upset` says. */
  ghost predicate Tells(s: State, i: nat, upset: bool) {
    && AuthorsExist(s)
    && if i < |s.agents| then EffectTold(s.world, i, s.agents[i], upset) else !upset
  }

  lemma OthersKeepTold(w: World, v: World, id: nat, i: nat, a: Agent, upset: bool)
    requires SignedBy(w, v, id) && i != id && Grows(w, v) && EffectTold(w, i, a, upset)
    ensures EffectTold(v, i, a, upset)
  {
    OthersKeepEffect(w, v, id, i, a.job.event);
  }

  lemma StepTells(c: Config, s: State, act: Action, i: nat, upset: bool)
    requires c.Valid() && WellFormed(c, s) && Tells(s, i, upset)
    ensures Tells(Step(c, s, act), i, upset || Upset(i)(s, act))
  {
    if act.Move? && act.id < |s.agents| {
      MoveStepTells(c, s, act.id, act.choice, i, upset);
    } else {
      OtherStepTells(c, s, act, i, upset);
    }
  }

  lemma MoveStepTells(c: Config, s: State, id: nat, ch: Choice, i: nat, upset: bool)
    requires c.Valid() && WellFormed(c, s) && Tells(s, i, upset) && id < |s.agents|
    ensures Tells(Step(c, s, Move(id, ch)), i, upset || Upset(i)(s, Move(id, ch)))
  {
    hide MoveAgent, EffectTold;
    var t := Step(c, s, Move(id, ch));
    MoveGrows(c, s.world, id, s.agents[id], ch);
    MoveIsSigned(c, s.world, id, s.agents[id], ch);
    if id == i {
      MoveTells(c, s, i, ch, upset);
    } else if i < |s.agents| {
      OthersKeepTold(s.world, t.world, id, i, s.agents[i], upset);
    }
  }

  lemma OtherStepTells(c: Config, s: State, act: Action, i: nat, upset: bool)
    requires c.Valid() && WellFormed(c, s) && Tells(s, i, upset) && !(act.Move? && act.id < |s.agents|)
    ensures Tells(Step(c, s, act), i, upset)
  {
    hide MoveAgent, SignedBy, Grows;
    var t := Step(c, s, act);
    if i < |s.agents| {
      OthersKeepTold(s.world, t.world, |s.agents|, i, s.agents[i], upset);
    } else if i < |t.agents| {
      OthersKeepEffect(s.world, t.world, i + 1, i, t.agents[i].job.event);
      NobodyYet(s, i, t.agents[i].job.event);
    }
  }

  /** The other steps leave every log as it is and bring at most one newcomer. */
  lemma OtherStepAdds(c: Config, s: State, act: Action)
    requires c.Valid() && WellFormed(c, s) && !(act.Move? && act.id < |s.agents|) && AuthorsExist(s)
    ensures var t := Step(c, s, act);
            && SignedBy(s.world, t.world, |s.agents|) && Grows(s.world, t.world) && AuthorsExist(t)
            && t.world.retries == s.world.retries
            && |s.agents| <= |t.agents| <= |s.agents| + 1
            && forall i :: 0 <= i < |s.agents| ==> t.agents[i] == s.agents[i]
  {
  }

  lemma NobodyYet(s: State, i: nat, e: Event)
    requires AuthorsExist(s) && i >= |s.agents|
    ensures !Effect(s.world, i, e)
  {
  }

  lemma {:induction false} RunTells(c: Config, s: State, acts: seq<Action>, i: nat, upset: bool)
    requires c.Valid() && WellFormed(c, s) && Tells(s, i, upset)
    ensures Tells(Run(c, s, acts), i, upset || Occurs(c, s, acts, Upset(i)))
    decreases |acts|
  {
    if acts == [] {
    } else {
      StepGrows(c, s, acts[0]);
      StepTells(c, s, acts[0], i, upset);
      RunTells(c, Step(c, s, acts[0]), acts[1..], i, upset || Upset(i)(s, acts[0]));
    }
  }

  /**
   * Exactly when a handler that gives its key back has something on record: if and only
   * if the run contains a failure of that handler after its effect.
   */
  lemma ReleasedHasEffectIff(c: Config, rows: Rows, now: int, acts: seq<Action>, i: nat)
    requires c.Valid()
    requires var s := Run(c, Start(rows, now), acts);
             && i < |s.agents| && s.agents[i].job.Webhook?
             && (s.agents[i].pc.Releasing? || (s.agents[i].pc.Ended? && s.agents[i].pc.end.Abandoned?))
    ensures var s := Run(c, Start(rows, now), acts);
            Effect(s.world, i, s.agents[i].job.event) <==> Occurs(c, Start(rows, now), acts, Upset(i))
  {
    RunTells(c, Start(rows, now), acts, i, false);
  }

  /** In particular nothing is on record when that handler's counts and announcements work. */
  lemma ReleasedMeansNothingRecorded(c: Config, rows: Rows, now: int, acts: seq<Action>, i: nat)
    requires c.Valid() && !Occurs(c, Start(rows, now), acts, Upset(i))
    requires var s := Run(c, Start(rows, now), acts);
             && i < |s.agents| && s.agents[i].job.Webhook?
             && (s.agents[i].pc.Releasing? || (s.agents[i].pc.Ended? && s.agents[i].pc.end.Abandoned?))
    ensures var s := Run(c, Start(rows, now), acts);
            !SuccessBy(s.world, i, s.agents[i].job.event) && !RowBy(s.world, i, s.agents[i].job.event)
  {
    ReleasedHasEffectIff(c, rows, now, acts, i);
  }

  /**
   * Exactly when a key that is still held at the end stands for an outcome: unless
   * deleting it threw after a failure that had left nothing behind.
   */
  lemma KeptKeyHasOutcomeIff(c: Config, rows: Rows, now: int, acts: seq<Action>, i: nat)
    requires c.Valid()
    requires var s := Run(c, Start(rows, now), acts);
             && i < |s.agents| && s.agents[i].job.Webhook? && !s.agents[i].job.read && s.agents[i].pc.Ended?
             && s.agents[i].lockedAt.Some? && s.agents[i].job.node < |c.nodes|
             && HeadOf(c, s.agents[i].job) !in s.agents[i].released
    ensures var s := Run(c, Start(rows, now), acts);
            var start := Start(rows, now);
            Effect(s.world, i, s.agents[i].job.event) <==>
            || !Occurs(c, start, acts, FailedDeletion(i, HeadOf(c, s.agents[i].job)))
            || Occurs(c, start, acts, Upset(i))
  {
    var s := Run(c, Start(rows, now), acts);
    var a := s.agents[i];
    NoAcceptedWriteIsLost(c, rows, now, acts, i);
    assert AllKeys(c, a.job)[0] in KeySet(c, a.job);
    if a.pc.end.Abandoned? {
      ReleasedHasEffectIff(c, rows, now, acts, i);
    } else {
      RunKeepsInv(c, Start(rows, now), acts);
      RunTellsDeletion(c, Start(rows, now), acts, i, HeadOf(c, a.job), false);
    }
  }

  // ----- Both kinds of failure are reachable -------------------------------------------

  const NODE := Node(false, "", [])
  const EVENT := Event("42", "user.create", "erp", "{}")
  const KEY := Plain(KeyOf(EVENT))

  function Env(ok: bool, outcome: Outcome): Choice {
    Choice(ok, true, false, outcome, 1, KEY, 0)
  }

  const JOB := Webhook(0, EVENT, false)

  /** The only agent is the handler of `EVENT`, at `pc`. */
  predicate At(s: State, pc: Pc) {
    |s.agents| == 1 && s.agents[0].job == JOB && s.agents[0].pc == pc
  }

  /** A deployment of one instance without encryption, processing synchronously. */
  predicate Single(c: Config) {
    c.nodes == [NODE] && !c.async
  }

  function Then(c: Config, s: State, ok: bool, outcome: Outcome): (t: State)
    requires Single(c) && c.Valid() && WellFormed(c, s)
    ensures WellFormed(c, t)
  {
    StepGrows(c, s, Move(0, Env(ok, outcome)));
    Step(c, s, Move(0, Env(ok, outcome)))
  }

  lemma KeysOfJob(c: Config)
    requires Single(c)
    ensures c.Valid() && AllKeys(c, JOB) == [KEY] && KeySet(c, JOB) == {KEY}
  {
  }

  lemma Arrives(c: Config) returns (s: State)
    requires Single(c)
    ensures c.Valid() && WellFormed(c, s) && s == Step(c, Start(map[], 0), Receive(0, EVENT, false))
    ensures At(s, Locking) && s.world.rows == map[]
  {
    KeysOfJob(c);
    StepGrows(c, Start(map[], 0), Receive(0, EVENT, false));
    s := Step(c, Start(map[], 0), Receive(0, EVENT, false));
  }

  lemma Locks(c: Config, s: State)
    requires Single(c) && c.Valid() && WellFormed(c, s) && At(s, Locking) && s.world.rows == map[]
    ensures At(Then(c, s, true, Threw), Looking)
  {
    KeysOfJob(c);
  }

  lemma Looks(c: Config, s: State)
    requires Single(c) && c.Valid() && WellFormed(c, s) && At(s, Looking)
    ensures At(Then(c, s, true, Threw), Calling(0, 1))
  {
  }

  lemma CallRefused(c: Config, s: State)
    requires Single(c) && c.Valid() && WellFormed(c, s) && At(s, Calling(0, 1))
    ensures At(Then(c, s, true, Refused), ReadingPolicy)
  {
  }

  lemma CallSucceeds(c: Config, s: State)
    requires Single(c) && c.Valid() && c.kafka && WellFormed(c, s) && At(s, Calling(0, 1))
    ensures At(Then(c, s, true, Succeeded), Announcing(Success))
    ensures SuccessBy(Then(c, s, true, Succeeded).world, 0, EVENT)
  {
    var t := Then(c, s, true, Succeeded);
    assert t.world.calls[|s.world.calls|] == Call(0, EVENT, Succeeded);
  }

  lemma InsertSucceeds(c: Config, s: State)
    requires Single(c) && c.Valid() && WellFormed(c, s) && At(s, ReadingPolicy)
    ensures var t := Then(c, Then(c, s, true, Threw), true, Threw);
            At(t, Counting) && RowBy(t.world, 0, EVENT)
  {
    var u := Then(c, s, true, Threw);
    assert At(u, Creating(1));
    var t := Then(c, u, true, Threw);
    assert t.world.dead[|u.world.dead|].author == 0;
  }

  lemma CountThrows(c: Config, s: State)
    requires Single(c) && c.Valid() && !c.kafka && WellFormed(c, s) && At(s, Counting)
    ensures At(Then(c, s, false, Threw), Releasing({KEY})) && Then(c, s, false, Threw).world == s.world
  {
    KeysOfJob(c);
  }

  lemma SendThrows(c: Config, s: State)
    requires Single(c) && c.Valid() && WellFormed(c, s) && At(s, Announcing(Success))
    ensures var t := Then(c, Then(c, s, false, Threw), false, Threw);
            At(t, Releasing({KEY})) && t.world == s.world
  {
    KeysOfJob(c);
    assert At(Then(c, s, false, Threw), Announcing(Unaccepted(false)));
  }

  lemma KeyDeleted(c: Config, s: State)
    requires Single(c) && c.Valid() && WellFormed(c, s) && At(s, Releasing({KEY}))
    ensures var t := Then(c, s, true, Threw);
            At(t, Ended(Abandoned(false))) && t.world == s.world.(rows := s.world.rows - {KEY})
  {
    assert {KEY} - {KEY} == {};
  }

  /** Some run from an empty store leads to `s`. */
  ghost predicate Reached(c: Config, s: State)
    requires c.Valid()
  {
    exists acts :: Run(c, Start(map[], 0), acts) == s
  }

  lemma ReachThen(c: Config, s: State, ok: bool, outcome: Outcome)
    requires Single(c) && c.Valid() && WellFormed(c, s) && Reached(c, s)
    ensures Reached(c, Then(c, s, ok, outcome))
  {
    var acts :| Run(c, Start(map[], 0), acts) == s;
    RunOneMore(c, Start(map[], 0), acts, Move(0, Env(ok, outcome)));
  }

  lemma ReachCall(c: Config) returns (s: State)
    requires Single(c)
    ensures c.Valid() && WellFormed(c, s) && Reached(c, s) && At(s, Calling(0, 1))
  {
    var s0 := Arrives(c);
    RunOneMore(c, Start(map[], 0), [], Receive(0, EVENT, false));
    assert Run(c, Start(map[], 0), [] + [Receive(0, EVENT, false)]) == s0;
    Locks(c, s0);
    ReachThen(c, s0, true, Threw);
    var s1 := Then(c, s0, true, Threw);
    Looks(c, s1);
    ReachThen(c, s1, true, Threw);
    s := Then(c, s1, true, Threw);
  }

  /** Counting that throws after the insert releases the key of an event already in the queue of dead letters. */
  lemma FailedCountReleasesDeadLetter(c: Config) returns (s: State)
    requires Single(c) && !c.kafka
    ensures c.Valid() && Reached(c, s) && At(s, Ended(Abandoned(false))) && RowBy(s.world, 0, EVENT)
  {
    var s0 := ReachCall(c);
    CallRefused(c, s0);
    ReachThen(c, s0, true, Refused);
    var s1 := Then(c, s0, true, Refused);
    InsertSucceeds(c, s1);
    ReachThen(c, s1, true, Threw);
    ReachThen(c, Then(c, s1, true, Threw), true, Threw);
    var s2 := Then(c, Then(c, s1, true, Threw), true, Threw);
    CountThrows(c, s2);
    ReachThen(c, s2, false, Threw);
    var s3 := Then(c, s2, false, Threw);
    KeyDeleted(c, s3);
    ReachThen(c, s3, true, Threw);
    s := Then(c, s3, true, Threw);
  }

  /** A status message that cannot be sent releases the key of an event already delivered. */
  lemma FailedSendReleasesDelivery(c: Config) returns (s: State)
    requires Single(c) && c.kafka
    ensures c.Valid() && Reached(c, s) && At(s, Ended(Abandoned(false))) && SuccessBy(s.world, 0, EVENT)
  {
    var s0 := ReachCall(c);
    CallSucceeds(c, s0);
    ReachThen(c, s0, true, Succeeded);
    var s1 := Then(c, s0, true, Succeeded);
    SendThrows(c, s1);
    ReachThen(c, s1, false, Threw);
    ReachThen(c, Then(c, s1, false, Threw), false, Threw);
    var s2 := Then(c, Then(c, s1, false, Threw), false, Threw);
    KeyDeleted(c, s2);
    ReachThen(c, s2, true, Threw);
    s := Then(c, s2, true, Threw);
  }

  // ----- A deletion that throws ----------------------------------------------------------

  /** The handler of `EVENT` alone in a world without effects, holding its key. */
  predicate Holding(s: State, pc: Pc, calls: seq<Delivery.Call>) {
    At(s, pc) && s.world == World(0, map[KEY := TTL_MS], calls, [], [], [])
  }

  lemma LocksHolding(c: Config, s: State)
    requires Single(c) && c.Valid() && WellFormed(c, s) && At(s, Locking) && s.world == Start(map[], 0).world
    ensures Holding(Then(c, s, true, Threw), Looking, [])
  {
    KeysOfJob(c);
    assert Prune(map[KEY := TTL_MS], 0) == map[KEY := TTL_MS];
  }

  lemma RefusedWithoutPolicy(c: Config, s: State)
    requires Single(c) && c.Valid() && !c.kafka && WellFormed(c, s) && Holding(s, Looking, [])
    ensures var t := Then(c, Then(c, Then(c, s, true, Threw), true, Refused), false, Threw);
            Holding(t, Releasing({KEY}), [Call(0, EVENT, Refused)])
  {
    KeysOfJob(c);
    var s1 := Then(c, s, true, Threw);
    assert Holding(s1, Calling(0, 1), []);
    var s2 := Then(c, s1, true, Refused);
    assert [] + [Call(0, EVENT, Refused)] == [Call(0, EVENT, Refused)];
    assert Holding(s2, ReadingPolicy, [Call(0, EVENT, Refused)]);
  }

  lemma DeletionThrows(c: Config, s: State)
    requires Single(c) && c.Valid() && WellFormed(c, s) && Holding(s, Releasing({KEY}), [Call(0, EVENT, Refused)])
    ensures Holding(Then(c, s, false, Threw), Ended(Abandoned(false)), [Call(0, EVENT, Refused)])
  {
    assert {KEY} - {KEY} == {};
  }

  /** The repeat of the same webhook finds the key and is answered as a duplicate. */
  lemma RepeatTurnedAway(c: Config, s: State) returns (t: State)
    requires Single(c) && c.Valid() && WellFormed(c, s) && Reached(c, s)
    requires Holding(s, Ended(Abandoned(false)), [Call(0, EVENT, Refused)])
    ensures Reached(c, t) && |t.agents| == 2 && t.agents[0] == s.agents[0] && t.world == s.world
    ensures t.agents[1].job == JOB && t.agents[1].pc == Ended(Rejected(true))
  {
    KeysOfJob(c);
    var acts :| Run(c, Start(map[], 0), acts) == s;
    RunOneMore(c, Start(map[], 0), acts, Receive(0, EVENT, false));
    var u := Step(c, s, Receive(0, EVENT, false));
    assert u.agents[1] == Agent(JOB, Locking, None, {});
    var move := Move(1, Env(true, Threw));
    RunOneMore(c, Start(map[], 0), acts + [Receive(0, EVENT, false)], move);
    t := Step(c, u, move);
  }

  /** A deletion that throws leaves an event undone and its repeat refused: a reachable state. */
  lemma FailedDeletionBlocksRepeat(c: Config) returns (s: State)
    requires Single(c) && !c.kafka
    ensures c.Valid() && Reached(c, s) && |s.agents| == 2
    ensures s.agents[0].job == JOB && s.agents[0].pc == Ended(Abandoned(false)) && !Effect(s.world, 0, EVENT)
    ensures s.agents[1].job == JOB && s.agents[1].pc == Ended(Rejected(true))
  {
    var s0 := Arrives(c);
    RunOneMore(c, Start(map[], 0), [], Receive(0, EVENT, false));
    assert Run(c, Start(map[], 0), [] + [Receive(0, EVENT, false)]) == s0;
    LocksHolding(c, s0);
    ReachThen(c, s0, true, Threw);
    var s1 := Then(c, s0, true, Threw);
    RefusedWithoutPolicy(c, s1);
    ReachThen(c, s1, true, Threw);
    ReachThen(c, Then(c, s1, true, Threw), true, Refused);
    ReachThen(c, Then(c, Then(c, s1, true, Threw), true, Refused), false, Threw);
    var s2 := Then(c, Then(c, Then(c, s1, true, Threw), true, Refused), false, Threw);
    DeletionThrows(c, s2);
    ReachThen(c, s2, false, Threw);
    s := RepeatTurnedAway(c, Then(c, s2, false, Threw));
  }
}
