/**
 * Mutual exclusion and duplicate suppression of the delivery protocol, over every
 * interleaving, although a release does not check who owns the key and looking up
 * and writing a key are separate steps.
 */
module DeliveryExclusion {
  import opened Common
  import opened Events
  import opened Idempotency
  import opened Delivery

  /** All instances write a given source under the same text. */
  predicate SharedHead(c: Config) {
    forall i, j :: 0 <= i < |c.nodes| && 0 <= j < |c.nodes| ==>
                     && c.nodes[i].hmac == c.nodes[j].hmac
                     && (c.nodes[i].hmac ==> c.nodes[i].active == c.nodes[j].active)
  }

  /** The agent took its key and has not yet deleted it again. */
  predicate Owner(c: Config, a: Agent)
    requires a.job.Webhook? ==> a.job.node < |c.nodes|
  {
    a.job.Webhook? && a.lockedAt.Some? && HeadOf(c, a.job) !in a.released
  }

  /** An owner that has not answered its caller yet. */
  predicate InFlight(c: Config, a: Agent)
    requires a.job.Webhook? ==> a.job.node < |c.nodes|
  {
    Owner(c, a) && !a.pc.Ended?
  }

  /** Every handler past the lock is still within the lifetime of its key. */
  ghost predicate Timely(c: Config, s: State)
    requires WellFormed(c, s)
  {
    forall i :: 0 <= i < |s.agents| && InFlight(c, s.agents[i]) ==>
                  s.world.now < s.agents[i].lockedAt.value + TTL_MS
  }

  ghost predicate TimelyRun(c: Config, s: State, acts: seq<Action>)
    requires c.Valid() && WellFormed(c, s)
    decreases |acts|
  {
    && Timely(c, s)
    && (acts != [] ==> (StepGrows(c, s, acts[0]); TimelyRun(c, Step(c, s, acts[0]), acts[1..])))
  }

  /** At most one handler per idempotency key is past the lock. */
  ghost predicate Exclusive(c: Config, s: State)
    requires WellFormed(c, s)
  {
    forall i, j :: 0 <= i < j < |s.agents| && InFlight(c, s.agents[i]) && InFlight(c, s.agents[j]) ==>
                     KeyOf(s.agents[i].job.event) != KeyOf(s.agents[j].job.event)
  }

  // ----- The invariant ----------------------------------------------------------

  /** While its hour lasts, the owner's key is in the store with the owner's expiry. */
  predicate KeyHeld(c: Config, w: World, a: Agent)
    requires a.job.Webhook? ==> a.job.node < |c.nodes|
  {
    Owner(c, a) ==>
      && a.lockedAt.value <= w.now
      && (w.now < a.lockedAt.value + TTL_MS ==>
            HeadOf(c, a.job) in w.rows && w.rows[HeadOf(c, a.job)] == a.lockedAt.value + TTL_MS)
  }

  /** The agent deletes only texts of its own source; no agent has a key before locking. */
  predicate OwnKeysOnly(c: Config, a: Agent)
    requires c.Valid() && (a.job.Webhook? ==> a.job.node < |c.nodes|)
  {
    a.job.Webhook? ==>
      && (a.pc.Checking? || a.pc.Locking? ==> a.lockedAt.None?)
      && (a.pc.Releasing? ==> a.pc.left <= KeySet(c, a.job) && a.lockedAt.Some?
                              && (HeadOf(c, a.job) in a.pc.left ==> HeadOf(c, a.job) !in a.released))
      && (!a.pc.Releasing? && !a.pc.Ended? ==> a.released == {})
      && (a.pc.Checking? || a.pc.Locking? || a.pc.Ended? || a.lockedAt.Some?)
  }

  /** Two owners of one key took it at least the lifetime of a key apart. */
  predicate Apart(c: Config, a: Agent, b: Agent)
    requires a.job.Webhook? ==> a.job.node < |c.nodes|
    requires b.job.Webhook? ==> b.job.node < |c.nodes|
  {
    Owner(c, a) && Owner(c, b) && HeadOf(c, a.job) == HeadOf(c, b.job) ==>
      a.lockedAt.value + TTL_MS <= b.lockedAt.value || b.lockedAt.value + TTL_MS <= a.lockedAt.value
  }

  ghost predicate Inv(c: Config, s: State) {
    && c.Valid() && WellFormed(c, s)
    && (forall i :: 0 <= i < |s.agents| ==> KeyHeld(c, s.world, s.agents[i]) && OwnKeysOnly(c, s.agents[i]))
    && (forall i, j :: 0 <= i < j < |s.agents| ==> Apart(c, s.agents[i], s.agents[j]))
  }

  /** The three things a move can do to keys: nothing, take one, delete one. */
  ghost predicate KeyMove(c: Config, w: World, a: Agent, ch: Choice, v: World, b: Agent)
    requires a.job.Webhook? ==> a.job.node < |c.nodes|
  {
    && v.now == w.now
    && (|| (v.rows == w.rows && b.lockedAt == a.lockedAt && b.released == a.released)
        || (a.job.Webhook? && a.pc.Locking? && !Live(w.rows, HeadOf(c, a.job), w.now)
            && b.lockedAt == Some(w.now) && b.released == {}
            && v.rows == Prune(w.rows[HeadOf(c, a.job) := w.now + TTL_MS], w.now))
        || (a.job.Webhook? && a.pc.Releasing? && ch.key in a.pc.left && ch.ok && b.lockedAt == a.lockedAt
            && b.released == a.released + {ch.key} && v.rows == w.rows - {ch.key}))
  }

  lemma WebhookMoveShape(c: Config, w: World, id: nat, a: Agent, ch: Choice)
    requires c.Valid() && AgentOk(c, w, a) && OwnKeysOnly(c, a) && AtWebhookPc(a)
    ensures var (v, b) := MoveWebhook(c, w, id, a, ch);
            b.job == a.job && OwnKeysOnly(c, b) && KeyMove(c, w, a, ch, v, b)
  {
  }

  lemma ProcessingMoveShape(c: Config, w: World, id: nat, a: Agent, ch: Choice)
    requires c.Valid() && AgentOk(c, w, a) && OwnKeysOnly(c, a)
    requires AtProcessingPc(a)
    ensures var (v, b) := MoveProcessing(c, w, id, a, ch);
            b.job == a.job && OwnKeysOnly(c, b) && KeyMove(c, w, a, ch, v, b)
  {
  }

  lemma MoveShape(c: Config, w: World, id: nat, a: Agent, ch: Choice)
    requires c.Valid() && AgentOk(c, w, a) && OwnKeysOnly(c, a)
    ensures var (v, b) := MoveAgent(c, w, id, a, ch);
            b.job == a.job && OwnKeysOnly(c, b) && KeyMove(c, w, a, ch, v, b)
  {
    if AtWebhookPc(a) {
      WebhookMoveShape(c, w, id, a, ch);
    } else if AtProcessingPc(a) {
      ProcessingMoveShape(c, w, id, a, ch);
    }
  }

  lemma SharedHeads(c: Config, a: Job, b: Job, k: StoredKey)
    requires c.Valid() && SharedHead(c)
    requires a.Webhook? && a.node < |c.nodes| && b.Webhook? && b.node < |c.nodes|
    requires k in KeySet(c, a)
    ensures k == HeadOf(c, b) ==> HeadOf(c, a) == k
    ensures KeyOf(a.event) == KeyOf(b.event) <==> HeadOf(c, a) == HeadOf(c, b)
  {
    CandidateIff(c.nodes[a.node], KeyOf(a.event), k);
  }

  /** A new lock is at least a lifetime younger than every other owner's. */
  lemma LockingKeepsApart(c: Config, s: State, id: nat, ch: Choice, i: nat)
    requires Inv(c, s) && id < |s.agents| && i < |s.agents| && i != id
    requires s.agents[id].job.Webhook? && s.agents[id].pc.Locking?
    requires !Live(s.world.rows, HeadOf(c, s.agents[id].job), s.world.now)
    requires Owner(c, s.agents[i]) && HeadOf(c, s.agents[i].job) == HeadOf(c, s.agents[id].job)
    ensures s.agents[i].lockedAt.value + TTL_MS <= s.world.now
  {
    assert KeyHeld(c, s.world, s.agents[i]);
  }

  /** A release deletes no text that another live owner relies on. */
  lemma ReleaseSparesOthers(c: Config, s: State, id: nat, k: StoredKey, i: nat)
    requires Inv(c, s) && SharedHead(c) && Timely(c, s)
    requires id < |s.agents| && i < |s.agents| && i != id
    requires s.agents[id].job.Webhook? && s.agents[id].pc.Releasing? && k in s.agents[id].pc.left
    requires Owner(c, s.agents[i]) && s.world.now < s.agents[i].lockedAt.value + TTL_MS
    ensures k != HeadOf(c, s.agents[i].job)
  {
    var a, b := s.agents[id], s.agents[i];
    SharedHeads(c, a.job, b.job, k);
    if id < i {
      assert Apart(c, s.agents[id], s.agents[i]);
    } else {
      assert Apart(c, s.agents[i], s.agents[id]);
    }
    assert KeyHeld(c, s.world, a) && KeyHeld(c, s.world, b);
    assert k == HeadOf(c, a.job) ==> InFlight(c, a);
  }

  lemma OtherKeyHeld(c: Config, s: State, id: nat, ch: Choice, i: nat)
    requires Inv(c, s) && SharedHead(c) && Timely(c, s)
    requires id < |s.agents| && i < |s.agents| && i != id
    ensures KeyHeld(c, MoveAgent(c, s.world, id, s.agents[id], ch).0, s.agents[i])
  {
    var a, b := s.agents[id], s.agents[i];
    var w := MoveAgent(c, s.world, id, a, ch).0;
    MoveShape(c, s.world, id, a, ch);
    assert KeyHeld(c, s.world, b);
    if Owner(c, b) && s.world.now < b.lockedAt.value + TTL_MS && w.rows != s.world.rows {
      if a.pc.Releasing? {
        ReleaseSparesOthers(c, s, id, ch.key, i);
      } else {
        assert Live(s.world.rows, HeadOf(c, b.job), s.world.now);
      }
    }
  }

  lemma MovedAgentKeyHeld(c: Config, s: State, id: nat, ch: Choice)
    requires Inv(c, s) && id < |s.agents|
    ensures var (w, a) := MoveAgent(c, s.world, id, s.agents[id], ch);
            a.job == s.agents[id].job && KeyHeld(c, w, a) && OwnKeysOnly(c, a)
  {
    MoveShape(c, s.world, id, s.agents[id], ch);
    MoveGrows(c, s.world, id, s.agents[id], ch);
    assert KeyHeld(c, s.world, s.agents[id]);
  }

  lemma MovedAgentApart(c: Config, s: State, id: nat, ch: Choice, i: nat)
    requires Inv(c, s) && id < |s.agents| && i < |s.agents| && i != id
    ensures var (w, a) := MoveAgent(c, s.world, id, s.agents[id], ch);
            a.job == s.agents[id].job && Apart(c, a, s.agents[i]) && Apart(c, s.agents[i], a)
  {
    hide MoveAgent;
    var (w, a) := MoveAgent(c, s.world, id, s.agents[id], ch);
    MoveShape(c, s.world, id, s.agents[id], ch);
    MoveGrows(c, s.world, id, s.agents[id], ch);
    if a.lockedAt != s.agents[id].lockedAt {
      if Owner(c, s.agents[i]) && HeadOf(c, s.agents[i].job) == HeadOf(c, a.job) {
        LockingKeepsApart(c, s, id, ch, i);
      }
    } else {
      assert Owner(c, a) ==> Owner(c, s.agents[id]);
      if id < i {
        assert Apart(c, s.agents[id], s.agents[i]);
      } else {
        assert Apart(c, s.agents[i], s.agents[id]);
      }
    }
  }

  lemma StepKeepsInv(c: Config, s: State, act: Action)
    requires Inv(c, s) && SharedHead(c) && Timely(c, s)
    ensures Inv(c, Step(c, s, act))
  {
    hide MoveAgent;
    StepGrows(c, s, act);
    var t := Step(c, s, act);
    if act.Move? && act.id < |s.agents| {
      var id := act.id;
      MovedAgentKeyHeld(c, s, id, act.choice);
      forall i | 0 <= i < |s.agents| && i != id
        ensures KeyHeld(c, t.world, t.agents[i]) && OwnKeysOnly(c, t.agents[i])
        ensures Apart(c, t.agents[id], t.agents[i]) && Apart(c, t.agents[i], t.agents[id])
      {
        OtherKeyHeld(c, s, id, act.choice, i);
        MovedAgentApart(c, s, id, act.choice, i);
      }
      forall i, j | 0 <= i < j < |t.agents|
        ensures Apart(c, t.agents[i], t.agents[j])
      {
        if i != id && j != id {
          assert Apart(c, s.agents[i], s.agents[j]);
        }
      }
    } else {
      forall i | 0 <= i < |t.agents|
        ensures KeyHeld(c, t.world, t.agents[i]) && OwnKeysOnly(c, t.agents[i])
      {
        if i < |s.agents| {
          assert KeyHeld(c, s.world, s.agents[i]);
        }
      }
      forall i, j | 0 <= i < j < |t.agents|
        ensures Apart(c, t.agents[i], t.agents[j])
      {
        if j < |s.agents| {
          assert Apart(c, s.agents[i], s.agents[j]);
        }
      }
    }
  }

  lemma {:induction false} RunKeepsInv(c: Config, s: State, acts: seq<Action>)
    requires Inv(c, s) && SharedHead(c) && TimelyRun(c, s, acts)
    ensures Inv(c, Run(c, s, acts)) && Timely(c, Run(c, s, acts))
    decreases |acts|
  {
    if acts == [] {
    } else {
      StepKeepsInv(c, s, acts[0]);
      RunKeepsInv(c, Step(c, s, acts[0]), acts[1..]);
    }
  }

  lemma InvIsExclusive(c: Config, s: State)
    requires Inv(c, s) && SharedHead(c) && Timely(c, s)
    ensures Exclusive(c, s)
  {
    forall i, j | 0 <= i < j < |s.agents| && InFlight(c, s.agents[i]) && InFlight(c, s.agents[j])
      ensures KeyOf(s.agents[i].job.event) != KeyOf(s.agents[j].job.event)
    {
      var a, b := s.agents[i], s.agents[j];
      assert Apart(c, a, b) && KeyHeld(c, s.world, a) && KeyHeld(c, s.world, b);
      SharedHeads(c, a.job, b.job, HeadOf(c, a.job));
    }
  }

  /**
   * Mutual exclusion: with one shared active key and every handler ending within
   * the lifetime of its key, at most one handler per key is past the lock, and the
   * key of each of them is live in the store.
   */
  lemma MutualExclusion(c: Config, rows: Rows, now: int, acts: seq<Action>)
    requires c.Valid() && SharedHead(c) && TimelyRun(c, Start(rows, now), acts)
    ensures var s := Run(c, Start(rows, now), acts);
            && Exclusive(c, s)
            && forall i :: 0 <= i < |s.agents| && InFlight(c, s.agents[i]) ==>
                             Live(s.world.rows, HeadOf(c, s.agents[i].job), s.world.now)
  {
    RunKeepsInv(c, Start(rows, now), acts);
    var s := Run(c, Start(rows, now), acts);
    InvIsExclusive(c, s);
    forall i | 0 <= i < |s.agents| && InFlight(c, s.agents[i])
      ensures Live(s.world.rows, HeadOf(c, s.agents[i].job), s.world.now)
    {
      assert KeyHeld(c, s.world, s.agents[i]);
    }
  }

  /** Two handlers that both kept the key of one source took it a full lifetime apart. */
  lemma AcceptedOncePerHour(c: Config, rows: Rows, now: int, acts: seq<Action>, i: nat, j: nat)
    requires c.Valid() && SharedHead(c) && TimelyRun(c, Start(rows, now), acts)
    requires var s := Run(c, Start(rows, now), acts);
             && i < j < |s.agents| && Owner(c, s.agents[i]) && Owner(c, s.agents[j])
             && KeyOf(s.agents[i].job.event) == KeyOf(s.agents[j].job.event)
    ensures var s := Run(c, Start(rows, now), acts);
            || s.agents[i].lockedAt.value + 3_600_000 <= s.agents[j].lockedAt.value
            || s.agents[j].lockedAt.value + 3_600_000 <= s.agents[i].lockedAt.value
  {
    RunKeepsInv(c, Start(rows, now), acts);
    var s := Run(c, Start(rows, now), acts);
    assert Apart(c, s.agents[i], s.agents[j]);
    SharedHeads(c, s.agents[i].job, s.agents[j].job, HeadOf(c, s.agents[i].job));
  }
}
