/** Why a webhook is turned away, and what a released key means. */
module DeliveryDuplicates {
  import opened Common
  import opened Events
  import opened Idempotency
  import opened Delivery
  import opened DeliveryEvidence
  import X = DeliveryExclusion

  // ----- Rows belong to owners ------------------------------------------------------

  predicate OwnsRow(c: Config, w: World, a: Agent, k: StoredKey)
    requires a.job.Webhook? ==> a.job.node < |c.nodes|
  {
    X.Owner(c, a) && HeadOf(c, a.job) == k && k in w.rows && w.rows[k] == a.lockedAt.value + TTL_MS
  }

  /** Every stored key was written by a handler that has not given it back. */
  ghost predicate RowsOwned(c: Config, s: State)
    requires c.Valid() && WellFormed(c, s)
  {
    && (forall i :: 0 <= i < |s.agents| ==> X.OwnKeysOnly(c, s.agents[i]))
    && (forall k :: k in s.world.rows ==> exists i :: 0 <= i < |s.agents| && OwnsRow(c, s.world, s.agents[i], k))
  }

  /** Replacing agent `id` by `b` and the rows of `w` by those of `v` leaves row `k` owned. */
  lemma RowKeepsOwner(c: Config, w: World, agents: seq<Agent>, id: nat, ch: Choice, v: World, b: Agent,
                      after: seq<Agent>, k: StoredKey)
    requires c.Valid() && id < |agents| && b.job == agents[id].job && after == agents[id := b]
    requires forall i :: 0 <= i < |agents| && agents[i].job.Webhook? ==> agents[i].job.node < |c.nodes|
    requires X.OwnKeysOnly(c, agents[id]) && X.KeyMove(c, w, agents[id], ch, v, b)
    requires k in w.rows ==> exists i :: 0 <= i < |agents| && OwnsRow(c, w, agents[i], k)
    requires k in v.rows
    ensures exists i :: 0 <= i < |after| && OwnsRow(c, v, after[i], k)
  {
    if k in w.rows && v.rows[k] == w.rows[k] {
      var i :| 0 <= i < |agents| && OwnsRow(c, w, agents[i], k);
      assert OwnsRow(c, v, after[i], k);
    } else {
      assert OwnsRow(c, v, after[id], k);
    }
  }

  lemma MoveKeepsRowsOwned(c: Config, s: State, id: nat, ch: Choice)
    requires c.Valid() && WellFormed(c, s) && RowsOwned(c, s) && id < |s.agents|
    ensures var (v, b) := MoveAgent(c, s.world, id, s.agents[id], ch);
            WellFormed(c, State(v, s.agents[id := b])) && RowsOwned(c, State(v, s.agents[id := b]))
  {
    hide MoveAgent;
    StepGrows(c, s, Move(id, ch));
    var (v, b) := MoveAgent(c, s.world, id, s.agents[id], ch);
    X.MoveShape(c, s.world, id, s.agents[id], ch);
    var t := State(v, s.agents[id := b]);
    assert t == Step(c, s, Move(id, ch));
    forall k | k in v.rows
      ensures exists i :: 0 <= i < |t.agents| && OwnsRow(c, v, t.agents[i], k)
    {
      RowKeepsOwner(c, s.world, s.agents, id, ch, v, b, t.agents, k);
    }
  }

  /** Every other step leaves the rows and the running handlers alone. */
  lemma OtherStepShape(c: Config, s: State, act: Action)
    requires c.Valid() && WellFormed(c, s) && !(act.Move? && act.id < |s.agents|) && WellFormed(c, Step(c, s, act))
    ensures Step(c, s, act).world.rows == s.world.rows && s.agents <= Step(c, s, act).agents
    ensures forall i :: |s.agents| <= i < |Step(c, s, act).agents| ==> X.OwnKeysOnly(c, Step(c, s, act).agents[i])
  {
  }

  lemma StepKeepsRowsOwned(c: Config, s: State, act: Action)
    requires c.Valid() && WellFormed(c, s) && RowsOwned(c, s)
    ensures WellFormed(c, Step(c, s, act)) && RowsOwned(c, Step(c, s, act))
  {
    hide MoveAgent;
    StepGrows(c, s, act);
    var t := Step(c, s, act);
    if act.Move? && act.id < |s.agents| {
      MoveKeepsRowsOwned(c, s, act.id, act.choice);
    } else {
      OtherStepShape(c, s, act);
      forall k | k in t.world.rows
        ensures exists i :: 0 <= i < |t.agents| && OwnsRow(c, t.world, t.agents[i], k)
      {
        var i :| 0 <= i < |s.agents| && OwnsRow(c, s.world, s.agents[i], k);
        assert OwnsRow(c, t.world, t.agents[i], k);
      }
    }
  }

  lemma {:induction false} RunKeepsRowsOwned(c: Config, s: State, acts: seq<Action>)
    requires c.Valid() && WellFormed(c, s) && RowsOwned(c, s)
    ensures RowsOwned(c, Run(c, s, acts))
    decreases |acts|
  {
    if acts == [] {
    } else {
      StepKeepsRowsOwned(c, s, acts[0]);
      RunKeepsRowsOwned(c, Step(c, s, acts[0]), acts[1..]);
    }
  }

  /**
   * What the store holds in every run from an empty one: texts of sources under the
   * active key of the instance that took them, each for one hour from then.
   */
  lemma StoredKeyLastsAnHour(c: Config, now: int, acts: seq<Action>, k: StoredKey) returns (i: nat)
    requires c.Valid() && k in Run(c, Start(map[], now), acts).world.rows
    ensures var s := Run(c, Start(map[], now), acts);
            && i < |s.agents| && s.agents[i].job.Webhook? && s.agents[i].job.node < |c.nodes|
            && s.agents[i].lockedAt.Some? && k !in s.agents[i].released
            && s.world.rows[k] == s.agents[i].lockedAt.value + 3_600_000
            && var node, source := c.nodes[s.agents[i].job.node], KeyOf(s.agents[i].job.event);
               k == if node.hmac then Hmac(node.active, source) else Plain(source)
  {
    hide Step, Run, HeadOf;
    RunKeepsRowsOwned(c, Start(map[], now), acts);
    var s := Run(c, Start(map[], now), acts);
    i :| 0 <= i < |s.agents| && OwnsRow(c, s.world, s.agents[i], k);
    OwnedText(c, s.world, s.agents[i], k);
  }

  lemma OwnedText(c: Config, w: World, a: Agent, k: StoredKey)
    requires (a.job.Webhook? ==> a.job.node < |c.nodes|) && OwnsRow(c, w, a, k)
    ensures a.job.Webhook? && a.lockedAt.Some? && k !in a.released && k in w.rows
    ensures w.rows[k] == a.lockedAt.value + 3_600_000
    ensures var node, source := c.nodes[a.job.node], KeyOf(a.job.event);
            k == if node.hmac then Hmac(node.active, source) else Plain(source)
  {
  }

  /** The step that answers agent `i` with "duplicate" because its key is live. */
  predicate TurnsAway(c: Config, s: State, i: nat, ch: Choice)
    requires c.Valid() && WellFormed(c, s)
  {
    && i < |s.agents| && !s.agents[i].pc.Ended?
    && MoveAgent(c, s.world, i, s.agents[i], ch).1.pc == Ended(Rejected(true))
  }

  /**
   * Another handler of the same source owns its key right now. Once ended, a write
   * handler has its outcome on record, or it gave up and could not delete the key.
   */
  ghost predicate Justifies(c: Config, s: State, i: nat, j: nat)
    requires c.Valid() && WellFormed(c, s) && i < |s.agents| && j < |s.agents|
  {
    var a := s.agents[j];
    && X.Owner(c, a) && KeyOf(a.job.event) == KeyOf(s.agents[i].job.event)
    && s.world.now < a.lockedAt.value + TTL_MS
    && (a.pc.Ended? && !a.job.read && !a.pc.end.Abandoned? ==>
          || SuccessBy(s.world, j, a.job.event)
          || RowBy(s.world, j, a.job.event)
          || QueuedBy(s.world, j, a.job.event))
  }

  lemma OwnerJustifies(c: Config, s: State, i: nat, j: nat, k: StoredKey)
    requires Inv(c, s) && i < |s.agents| && j < |s.agents| && s.agents[i].job.Webhook?
    requires k in AllKeys(c, s.agents[i].job) && Live(s.world.rows, k, s.world.now)
    requires OwnsRow(c, s.world, s.agents[j], k)
    ensures Justifies(c, s, i, j)
  {
    OwnerSharesSource(c, s.agents[i].job, s.agents[j].job, k);
    if s.agents[j].pc.Ended? && !s.agents[j].job.read && !s.agents[j].pc.end.Abandoned? {
      OwnerOutcome(c, s, j);
    }
  }

  lemma TurnedAwayIsJustified(c: Config, s: State, i: nat, ch: Choice)
    requires Inv(c, s) && RowsOwned(c, s) && TurnsAway(c, s, i, ch)
    ensures exists j :: 0 <= j < |s.agents| && Justifies(c, s, i, j)
  {
    var k := TurnedAwayKey(c, s.world, i, s.agents[i], ch);
    assert k in s.world.rows;
    var j :| 0 <= j < |s.agents| && OwnsRow(c, s.world, s.agents[j], k);
    OwnerJustifies(c, s, i, j, k);
  }

  lemma RunFromEmptyStore(c: Config, now: int, acts: seq<Action>)
    requires c.Valid()
    ensures var s := Run(c, Start(map[], now), acts); Inv(c, s) && RowsOwned(c, s)
  {
    RunKeepsRowsOwned(c, Start(map[], now), acts);
    RunKeepsInv(c, Start(map[], now), acts);
  }

  /**
   * Starting from an empty store, a webhook is turned away as a duplicate only while
   * another handler of the same source is past the lock, or kept the key less than
   * an hour ago with its outcome on record, or gave up less than an hour ago in a
   * run in which the deletion of that key threw. No sharing of keys is assumed.
   */
  lemma DuplicatesAreJustified(c: Config, now: int, acts: seq<Action>, i: nat, ch: Choice)
    requires c.Valid()
    requires TurnsAway(c, Run(c, Start(map[], now), acts), i, ch)
    ensures var s := Run(c, Start(map[], now), acts);
            exists j :: 0 <= j < |s.agents| && Justifies(c, s, i, j)
                        && (GaveUp(s.agents[j]) ==>
                              Occurs(c, Start(map[], now), acts, FailedDeletion(j, HeadOf(c, s.agents[j].job))))
  {
    hide Step, Inv, Run, RowsOwned, HeadOf;
    RunFromEmptyStore(c, now, acts);
    var s := Run(c, Start(map[], now), acts);
    TurnedAwayIsJustified(c, s, i, ch);
    var j :| 0 <= j < |s.agents| && Justifies(c, s, i, j);
    if GaveUp(s.agents[j]) {
      OwnerGaveUp(c, now, acts, j);
    }
  }

  /** A handler that gave up but still owns its key could not delete it. */
  lemma OwnerGaveUp(c: Config, now: int, acts: seq<Action>, j: nat)
    requires c.Valid()
    requires var s := Run(c, Start(map[], now), acts);
             j < |s.agents| && X.Owner(c, s.agents[j]) && GaveUp(s.agents[j])
    ensures var a := Run(c, Start(map[], now), acts).agents[j];
            Occurs(c, Start(map[], now), acts, FailedDeletion(j, HeadOf(c, a.job)))
  {
    hide Step, KeyState, Evidence;
    var a := Run(c, Start(map[], now), acts).agents[j];
    RunTellsDeletion(c, Start(map[], now), acts, j, HeadOf(c, a.job), false);
    assert AllKeys(c, a.job)[0] in KeySet(c, a.job);
  }

  predicate GaveUp(a: Agent) {
    a.job.Webhook? && a.pc.Ended? && a.pc.end.Abandoned?
  }

  /** A key kept within its hour is in the store, on the account of nobody else. */
  lemma KeptKeyIsOwn(c: Config, s: State, i: nat)
    requires X.Inv(c, s) && i < |s.agents| && X.Owner(c, s.agents[i])
    requires s.world.now < s.agents[i].lockedAt.value + TTL_MS
    ensures HeadOf(c, s.agents[i].job) in s.world.rows
    ensures forall j :: 0 <= j < |s.agents| && j != i ==>
                          !OwnsRow(c, s.world, s.agents[j], HeadOf(c, s.agents[i].job))
  {
    assert X.KeyHeld(c, s.world, s.agents[i]);
    forall j | 0 <= j < |s.agents| && j != i
      ensures !OwnsRow(c, s.world, s.agents[j], HeadOf(c, s.agents[i].job))
    {
      assert if j < i then X.Apart(c, s.agents[j], s.agents[i]) else X.Apart(c, s.agents[i], s.agents[j]);
    }
  }

  /** A row that stays although its handler gave it back is another handler's. */
  lemma RowOfAnother(c: Config, s: State, i: nat, k: StoredKey)
    requires c.Valid() && WellFormed(c, s) && RowsOwned(c, s)
    requires i < |s.agents| && !X.Owner(c, s.agents[i]) && k in s.world.rows
    ensures exists j :: 0 <= j < |s.agents| && j != i && OwnsRow(c, s.world, s.agents[j], k)
  {
    var j :| 0 <= j < |s.agents| && OwnsRow(c, s.world, s.agents[j], k);
    assert j != i;
  }

  /**
   * When a released key is really gone: within its hour, the key of a handler that
   * gave up is still in the store on its account if and only if deleting it threw.
   */
  lemma GivenUpKeyStaysIff(c: Config, now: int, acts: seq<Action>, i: nat)
    requires c.Valid() && X.SharedHead(c) && X.TimelyRun(c, Start(map[], now), acts)
    requires var s := Run(c, Start(map[], now), acts);
             && i < |s.agents| && GaveUp(s.agents[i]) && s.agents[i].lockedAt.Some?
             && s.world.now < s.agents[i].lockedAt.value + TTL_MS
    ensures var s := Run(c, Start(map[], now), acts);
            var k := HeadOf(c, s.agents[i].job);
            Occurs(c, Start(map[], now), acts, FailedDeletion(i, k)) <==>
            && k in s.world.rows
            && forall j :: 0 <= j < |s.agents| && j != i ==> !OwnsRow(c, s.world, s.agents[j], k)
  {
    hide Step, KeyState, Evidence, X.Apart, X.KeyHeld, X.OwnKeysOnly, OwnsRow;
    RunFromEmptyStore(c, now, acts);
    X.RunKeepsInv(c, Start(map[], now), acts);
    var s := Run(c, Start(map[], now), acts);
    var a := s.agents[i];
    var k := HeadOf(c, a.job);
    RunTellsDeletion(c, Start(map[], now), acts, i, k, false);
    assert AllKeys(c, a.job)[0] in KeySet(c, a.job);
    if X.Owner(c, a) {
      KeptKeyIsOwn(c, s, i);
    } else if k in s.world.rows {
      RowOfAnother(c, s, i, k);
    }
  }

  lemma TurnedAwayKey(c: Config, w: World, i: nat, a: Agent, ch: Choice) returns (k: StoredKey)
    requires c.Valid() && AgentOk(c, w, a) && !a.pc.Ended?
    requires MoveAgent(c, w, i, a, ch).1.pc == Ended(Rejected(true))
    ensures a.job.Webhook? && k in AllKeys(c, a.job) && Live(w.rows, k, w.now)
  {
    assert a.pc.Checking? || a.pc.Locking?;
    k := AllKeys(c, a.job)[if a.pc.Checking? then a.pc.next else 0];
  }

  lemma OwnerSharesSource(c: Config, job: Job, other: Job, k: StoredKey)
    requires c.Valid() && job.Webhook? && job.node < |c.nodes| && other.Webhook? && other.node < |c.nodes|
    requires k in AllKeys(c, job) && k == HeadOf(c, other)
    ensures KeyOf(job.event) == KeyOf(other.event)
  {
    CandidateIff(c.nodes[job.node], KeyOf(job.event), k);
  }

  lemma OwnerOutcome(c: Config, s: State, j: nat)
    requires Inv(c, s) && j < |s.agents| && X.Owner(c, s.agents[j])
    requires s.agents[j].pc.Ended? && !s.agents[j].job.read && !s.agents[j].pc.end.Abandoned?
    ensures var e := s.agents[j].job.event;
            SuccessBy(s.world, j, e) || RowBy(s.world, j, e) || QueuedBy(s.world, j, e)
  {
    assert Evidence(s.world, j, s.agents[j]) && KeyState(c, s.agents[j]);
    assert AllKeys(c, s.agents[j].job)[0] in KeySet(c, s.agents[j].job);
  }
}
