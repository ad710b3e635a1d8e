/**
 * What the lookups before the lock are for: a webhook is refused while any text of
 * its source is live, under whichever key of the ring, and for no other reason than
 * a live text or a call that throws.
 */
module DeliveryLookups {
  import opened Common
  import opened Events
  import opened Idempotency
  import opened Dlq
  import opened Delivery

  /** The text is in the store and has not expired in any state of the run. */
  ghost predicate LiveThroughout(c: Config, s: State, acts: seq<Action>, k: StoredKey)
    requires c.Valid() && WellFormed(c, s)
    decreases |acts|
  {
    && k in s.world.rows && s.world.now < s.world.rows[k]
    && (acts != [] ==> (StepGrows(c, s, acts[0]); LiveThroughout(c, Step(c, s, acts[0]), acts[1..], k)))
  }

  /** The webhook has not taken its key, and unless it was refused it has yet to look at `k`. */
  predicate KeptOut(c: Config, a: Agent, k: StoredKey)
    requires c.Valid()
  {
    && a.job.Webhook? && a.job.node < |c.nodes| && a.lockedAt == None
    && match a.pc
       case Checking(next) => exists m :: next <= m < |AllKeys(c, a.job)| && AllKeys(c, a.job)[m] == k
       case Locking => AllKeys(c, a.job) == [k]
       case Ended(end) => end.Rejected? || end == Failed
       case _ => false
  }

  lemma ArrivalIsKeptOut(c: Config, s: State, node: nat, event: Event, read: bool, k: StoredKey)
    requires c.Valid() && WellFormed(c, s) && node < |c.nodes| && k in KeySet(c, Webhook(node, event, read))
    ensures |Step(c, s, Receive(node, event, read)).agents| == |s.agents| + 1
    ensures KeptOut(c, Step(c, s, Receive(node, event, read)).agents[|s.agents|], k)
  {
    var keys := AllKeys(c, Webhook(node, event, read));
    var m :| 0 <= m < |keys| && keys[m] == k;
    if |keys| == 1 {
      assert keys == [k];
    }
  }

  lemma MoveKeepsOut(c: Config, w: World, id: nat, a: Agent, ch: Choice, k: StoredKey)
    requires c.Valid() && AgentOk(c, w, a) && KeptOut(c, a, k)
    requires k in w.rows && w.now < w.rows[k]
    ensures KeptOut(c, MoveAgent(c, w, id, a, ch).1, k) && MoveAgent(c, w, id, a, ch).1.job == a.job
  {
    var b := MoveAgent(c, w, id, a, ch).1;
    if a.pc.Checking? {
      var keys := AllKeys(c, a.job);
      var m :| a.pc.next <= m < |keys| && keys[m] == k;
      if b.pc.Checking? {
        assert a.pc.next != m;
        assert b.pc.next <= m;
      }
    }
  }

  lemma StepKeepsOut(c: Config, s: State, act: Action, i: nat, k: StoredKey)
    requires c.Valid() && WellFormed(c, s) && i < |s.agents| && KeptOut(c, s.agents[i], k)
    requires k in s.world.rows && s.world.now < s.world.rows[k]
    ensures var t := Step(c, s, act);
            i < |t.agents| && t.agents[i].job == s.agents[i].job && KeptOut(c, t.agents[i], k)
  {
    hide MoveAgent;
    if act.Move? && act.id == i {
      MoveKeepsOut(c, s.world, i, s.agents[i], act.choice, k);
    }
  }

  lemma {:induction false} RunKeepsOut(c: Config, s: State, acts: seq<Action>, i: nat, k: StoredKey)
    requires c.Valid() && WellFormed(c, s) && i < |s.agents| && KeptOut(c, s.agents[i], k)
    requires LiveThroughout(c, s, acts, k)
    ensures var t := Run(c, s, acts);
            i < |t.agents| && t.agents[i].job == s.agents[i].job && KeptOut(c, t.agents[i], k)
    decreases |acts|
  {
    hide Step, KeptOut;
    if acts == [] {
    } else {
      StepGrows(c, s, acts[0]);
      StepKeepsOut(c, s, acts[0], i, k);
      RunKeepsOut(c, Step(c, s, acts[0]), acts[1..], i, k);
    }
  }

  /**
   * While any candidate text of its source is live, under the active key or an older
   * one, a webhook never takes its key: whatever runs beside it, it ends refused as a
   * duplicate, or failed when a lookup throws.
   */
  lemma LiveTextRefuses(c: Config, s: State, node: nat, event: Event, read: bool, after: seq<Action>, k: StoredKey)
    requires c.Valid() && WellFormed(c, s) && node < |c.nodes|
    requires if c.nodes[node].hmac then exists kid :: kid in c.nodes[node].ring && k == Hmac(kid, KeyOf(event))
             else k == Plain(KeyOf(event))
    requires WellFormed(c, Step(c, s, Receive(node, event, read)))
    requires LiveThroughout(c, Step(c, s, Receive(node, event, read)), after, k)
    ensures var t := Run(c, Step(c, s, Receive(node, event, read)), after);
            var i := |s.agents|;
            && i < |t.agents| && t.agents[i].job == Webhook(node, event, read) && t.agents[i].lockedAt == None
            && (t.agents[i].pc.Ended? ==> t.agents[i].pc.end.Rejected? || t.agents[i].pc.end == Failed)
            && (!t.agents[i].pc.Ended? ==> t.agents[i].pc.Checking? || t.agents[i].pc.Locking?)
  {
    CandidateIff(c.nodes[node], KeyOf(event), k);
    ArrivalIsKeptOut(c, s, node, event, read, k);
    RunKeepsOut(c, Step(c, s, Receive(node, event, read)), after, |s.agents|, k);
  }

  // ----- And for no other reason ------------------------------------------------------------

  /** Until handler `i` has its key, no text of its source is live and none of its calls throws. */
  ghost predicate Unhindered(c: Config, s: State, acts: seq<Action>, i: nat)
    requires c.Valid() && WellFormed(c, s)
    requires i < |s.agents| && s.agents[i].job.Webhook? && s.agents[i].job.node < |c.nodes|
    decreases |acts|
  {
    acts != [] ==>
      && (s.agents[i].lockedAt == None && acts[0].Move? && acts[0].id == i ==>
            && acts[0].choice.ok
            && forall k :: k in KeySet(c, s.agents[i].job) ==> !(k in s.world.rows && s.world.now < s.world.rows[k]))
      && (StepGrows(c, s, acts[0]); StepKeepsJobs(c, s, acts[0]);
          Unhindered(c, Step(c, s, acts[0]), acts[1..], i))
  }

  /** On the way to its key, or past it. */
  predicate Proceeds(a: Agent) {
    a.lockedAt.Some? || a.pc.Checking? || a.pc.Locking?
  }

  /** The handler looks texts up in turn, each once, and then locks. */
  function LookupsLeft(c: Config, a: Agent): nat
    requires c.Valid() && a.job.Webhook? && a.job.node < |c.nodes|
  {
    if a.lockedAt.Some? then 0
    else if a.pc.Checking? && a.pc.next < |AllKeys(c, a.job)| then |AllKeys(c, a.job)| - a.pc.next + 1
    else 1
  }

  lemma MoveProceeds(c: Config, w: World, id: nat, a: Agent, ch: Choice)
    requires c.Valid() && AgentOk(c, w, a) && a.job.Webhook? && Proceeds(a)
    requires a.pc.Checking? ==> a.lockedAt == None && a.pc.next < |AllKeys(c, a.job)|
    requires a.lockedAt == None ==>
               && ch.ok && forall k :: k in KeySet(c, a.job) ==> !(k in w.rows && w.now < w.rows[k])
    ensures var b := MoveAgent(c, w, id, a, ch).1;
            && b.job == a.job && Proceeds(b)
            && (b.pc.Checking? ==> b.lockedAt == None && b.pc.next < |AllKeys(c, b.job)|)
            && (b.lockedAt == None ==> a.lockedAt == None && LookupsLeft(c, b) + 1 <= LookupsLeft(c, a))
  {
    if a.pc.Checking? {
      assert AllKeys(c, a.job)[a.pc.next] in KeySet(c, a.job);
    } else if a.pc.Locking? {
      assert AllKeys(c, a.job)[0] in KeySet(c, a.job);
    }
  }

  function MovesOf(acts: seq<Action>, i: nat): nat {
    if acts == [] then 0 else MovesOf(acts[1..], i) + if acts[0].Move? && acts[0].id == i then 1 else 0
  }

  /** Where a webhook stands that has met no hindrance. */
  predicate OnItsWay(c: Config, s: State, i: nat)
    requires c.Valid()
  {
    && i < |s.agents| && s.agents[i].job.Webhook? && s.agents[i].job.node < |c.nodes| && Proceeds(s.agents[i])
    && (s.agents[i].pc.Checking? ==>
          s.agents[i].lockedAt == None && s.agents[i].pc.next < |AllKeys(c, s.agents[i].job)|)
  }

  lemma StepProceeds(c: Config, s: State, act: Action, i: nat)
    requires c.Valid() && WellFormed(c, s) && OnItsWay(c, s, i) && Unhindered(c, s, [act], i)
    ensures OnItsWay(c, Step(c, s, act), i)
    ensures var b := Step(c, s, act).agents[i];
            b.lockedAt == None ==>
              && s.agents[i].lockedAt == None
              && LookupsLeft(c, b) + (if act.Move? && act.id == i then 1 else 0) <= LookupsLeft(c, s.agents[i])
  {
    hide MoveAgent;
    StepGrows(c, s, act);
    if act.Move? && act.id == i {
      MoveGrows(c, s.world, i, s.agents[i], act.choice);
      MoveProceeds(c, s.world, i, s.agents[i], act.choice);
    }
  }

  lemma {:induction false} RunProceeds(c: Config, s: State, acts: seq<Action>, i: nat)
    requires c.Valid() && WellFormed(c, s) && OnItsWay(c, s, i) && Unhindered(c, s, acts, i)
    ensures OnItsWay(c, Run(c, s, acts), i)
    ensures var b := Run(c, s, acts).agents[i];
            b.lockedAt == None ==>
              && s.agents[i].lockedAt == None
              && LookupsLeft(c, b) + MovesOf(acts, i) <= LookupsLeft(c, s.agents[i])
    decreases |acts|
  {
    hide Step, LookupsLeft, Proceeds;
    if acts == [] {
    } else {
      StepGrows(c, s, acts[0]);
      StepKeepsJobs(c, s, acts[0]);
      StepProceeds(c, s, acts[0], i);
      RunProceeds(c, Step(c, s, acts[0]), acts[1..], i);
    }
  }

  /**
   * A webhook that finds none of its texts live and whose calls do not throw takes its
   * key: after one lookup of each candidate, if there are several, and the write.
   */
  lemma FreeTextIsTaken(c: Config, s: State, node: nat, event: Event, read: bool, after: seq<Action>)
    requires c.Valid() && WellFormed(c, s) && node < |c.nodes|
    requires WellFormed(c, Step(c, s, Receive(node, event, read)))
    requires Unhindered(c, Step(c, s, Receive(node, event, read)), after, |s.agents|)
    ensures var t := Run(c, Step(c, s, Receive(node, event, read)), after);
            var n := |Candidates(c.nodes[node], KeyOf(event))|;
            && |s.agents| < |t.agents|
            && (t.agents[|s.agents|].lockedAt == None ==>
                  t.agents[|s.agents|].pc.Checking? || t.agents[|s.agents|].pc.Locking?)
            && (MovesOf(after, |s.agents|) >= (if n > 1 then n + 1 else 1) ==> t.agents[|s.agents|].lockedAt.Some?)
  {
    RunProceeds(c, Step(c, s, Receive(node, event, read)), after, |s.agents|);
  }

  // ----- How it ends otherwise ----------------------------------------------------------------

  ghost function LookupThrows(i: nat): (State, Action) -> bool {
    (s: State, act: Action) =>
      act.Move? && act.id == i && i < |s.agents| && s.agents[i].pc.Checking? && !act.choice.ok
  }

  ghost function WriteThrows(i: nat): (State, Action) -> bool {
    (s: State, act: Action) =>
      act.Move? && act.id == i && i < |s.agents| && s.agents[i].pc.Locking? && !act.choice.ok
  }

  /** Which of the two calls of a webhook has thrown so far shows in how it ended. */
  predicate EndTold(c: Config, a: Agent, lookup: bool, write: bool)
    requires c.Valid() && (a.job.Webhook? ==> a.job.node < |c.nodes|)
  {
    a.job.Webhook? ==>
      && (a.pc.Checking? ==> a.pc.next < |AllKeys(c, a.job)|)
      && (lookup <==> a.pc == Ended(Failed))
      && (write <==> a.pc == Ended(Rejected(false)))
  }

  lemma MoveTellsEnd(c: Config, w: World, id: nat, a: Agent, ch: Choice, lookup: bool, write: bool)
    requires c.Valid() && AgentOk(c, w, a) && EndTold(c, a, lookup, write)
    ensures var b := MoveAgent(c, w, id, a, ch).1;
            && b.job == a.job
            && EndTold(c, b, lookup || (a.pc.Checking? && !ch.ok), write || (a.pc.Locking? && !ch.ok))
  {
    hide SetNx, Live;
  }

  predicate EndKnown(c: Config, s: State, i: nat, lookup: bool, write: bool)
    requires c.Valid() && WellFormed(c, s)
  {
    if i < |s.agents| then EndTold(c, s.agents[i], lookup, write) else !lookup && !write
  }

  lemma StepTellsEnd(c: Config, s: State, act: Action, i: nat, lookup: bool, write: bool)
    requires c.Valid() && WellFormed(c, s) && EndKnown(c, s, i, lookup, write)
    ensures WellFormed(c, Step(c, s, act))
    ensures EndKnown(c, Step(c, s, act), i, lookup || LookupThrows(i)(s, act), write || WriteThrows(i)(s, act))
  {
    hide MoveAgent;
    StepGrows(c, s, act);
    if act.Move? && act.id == i && i < |s.agents| {
      MoveTellsEnd(c, s.world, i, s.agents[i], act.choice, lookup, write);
    }
  }

  lemma {:induction false} RunTellsEnd(c: Config, s: State, acts: seq<Action>, i: nat, lookup: bool, write: bool)
    requires c.Valid() && WellFormed(c, s) && EndKnown(c, s, i, lookup, write)
    ensures EndKnown(c, Run(c, s, acts), i, lookup || Occurs(c, s, acts, LookupThrows(i)),
                     write || Occurs(c, s, acts, WriteThrows(i)))
    decreases |acts|
  {
    hide Step, EndKnown;
    if acts == [] {
    } else {
      StepTellsEnd(c, s, acts[0], i, lookup, write);
      RunTellsEnd(c, Step(c, s, acts[0]), acts[1..], i, lookup || LookupThrows(i)(s, acts[0]),
                  write || WriteThrows(i)(s, acts[0]));
    }
  }

  /**
   * A lookup that throws fails the webhook, a write that throws answers it as a
   * duplicate, and nothing else does either.
   */
  lemma EndsByThrowIff(c: Config, rows: Rows, now: int, acts: seq<Action>, i: nat)
    requires c.Valid()
    requires var s := Run(c, Start(rows, now), acts); i < |s.agents| && s.agents[i].job.Webhook?
    ensures var a := Run(c, Start(rows, now), acts).agents[i];
            && (a.pc == Ended(Failed) <==> Occurs(c, Start(rows, now), acts, LookupThrows(i)))
            && (a.pc == Ended(Rejected(false)) <==> Occurs(c, Start(rows, now), acts, WriteThrows(i)))
  {
    RunTellsEnd(c, Start(rows, now), acts, i, false, false);
  }
}
