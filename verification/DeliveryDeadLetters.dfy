/**
 * Which dead letters a run creates: at most one for each handler, with the event of its
 * author and the retry count its author read.
 */
module DeliveryDeadLetters {
  import opened Common
  import opened Events
  import opened Idempotency
  import opened Dlq
  import opened Delivery
  import opened DeliveryRelease
  import DeliveryLease

  /** The step in which handler `i`, its delivery having failed, reads how many retries to record. */
  predicate ReadsCount(i: nat, s: State, act: Action) {
    && act.Move? && act.id == i && i < |s.agents| && s.agents[i].pc.ReadingPolicy? && act.choice.ok
  }

  /** What it read, if it came to read it. */
  function CountRead(c: Config, s: State, acts: seq<Action>, i: nat): Option<nat>
    requires c.Valid() && WellFormed(c, s)
    decreases |acts|
  {
    if acts == [] then None
    else if ReadsCount(i, s, acts[0]) then Some(acts[0].choice.retries)
    else
      StepGrows(c, s, acts[0]);
      CountRead(c, Step(c, s, acts[0]), acts[1..], i)
  }

  /** At or before the insert of its dead letter, or never to come to it. */
  predicate BeforeInsert(a: Agent) {
    !(a.pc.Counting? || a.pc.Announcing? || a.pc.Releasing? || a.pc.Ended?)
  }

  predicate CountTold(a: Agent, count: Option<nat>) {
    match a.pc
    case Creating(n) => count == Some(n)
    case _ => BeforeInsert(a) && !a.job.IsRetry() ==> count == None
  }

  /** Agent `i`, present or still to come, stands where `count` says. */
  predicate CountKnown(s: State, i: nat, count: Option<nat>) {
    if i < |s.agents| then CountTold(s.agents[i], count) else count == None
  }

  function CountAfter(a: Agent, ch: Choice, count: Option<nat>): Option<nat> {
    if a.pc.ReadingPolicy? && ch.ok && count.None? then Some(ch.retries) else count
  }

  lemma MoveTellsCount(c: Config, w: World, id: nat, a: Agent, ch: Choice, count: Option<nat>)
    requires c.Valid() && AgentOk(c, w, a) && CountTold(a, count)
    ensures CountTold(MoveAgent(c, w, id, a, ch).1, CountAfter(a, ch, count))
  {
    hide SetNx, Live;
  }

  lemma StepTellsCount(c: Config, s: State, act: Action, i: nat, count: Option<nat>)
    requires c.Valid() && WellFormed(c, s) && CountKnown(s, i, count)
    ensures CountKnown(Step(c, s, act), i,
                       if count.None? && ReadsCount(i, s, act) then Some(act.choice.retries) else count)
  {
    hide MoveAgent;
    if act.Move? && act.id == i && i < |s.agents| {
      MoveTellsCount(c, s.world, i, s.agents[i], act.choice, count);
    }
  }

  /** Only an insert adds a row, and it adds one. */
  lemma InsertedRow(c: Config, s: State, act: Action, k: nat)
    requires c.Valid() && WellFormed(c, s) && |s.world.dead| <= k < |Step(c, s, act).world.dead|
    ensures k == |s.world.dead| && act.Move? && act.id < |s.agents| && s.agents[act.id].pc.Creating?
    ensures Step(c, s, act).world.dead[k]
            == DeadLetter(act.id, Item(s.agents[act.id].job.event, "failed", s.agents[act.id].pc.retryCount,
                                       Pending, None, None), 0)
  {
  }

  lemma {:induction false} RunTellsCount(c: Config, s: State, acts: seq<Action>, i: nat, k: nat, count: Option<nat>)
    requires c.Valid() && WellFormed(c, s) && CountKnown(s, i, count)
    requires |s.world.dead| <= k < |Run(c, s, acts).world.dead| && Run(c, s, acts).world.dead[k].author == i
    ensures var read := if count.Some? then count else CountRead(c, s, acts, i);
            var (t, _) := DeliveryLease.Creation(c, k, s, acts);
            && read.Some? && i < |t.agents| && i < |Run(c, s, acts).agents| && k < |t.world.dead|
            && t.world.dead[k].item
               == Item(Run(c, s, acts).agents[i].job.event, "failed", read.value, Pending, None, None)
    decreases |acts|
  {
    hide Step, CountTold;
    StepGrows(c, s, acts[0]);
    var t := Step(c, s, acts[0]);
    RunGrows(c, t, acts[1..]);
    StepTellsCount(c, s, acts[0], i, count);
    if k < |t.world.dead| {
      InsertedRow(c, s, acts[0], k);
      CreatorKnows(c, s, acts[0].id, count);
      StepKeepsJobs(c, s, acts[0]);
      assert DeliveryLease.Creation(c, k, t, acts[1..]) == (t, acts[1..]);
    } else {
      RunTellsCount(c, t, acts[1..], i, k,
                    if count.None? && ReadsCount(i, s, acts[0]) then Some(acts[0].choice.retries) else count);
    }
  }

  lemma CreatorKnows(c: Config, s: State, i: nat, count: Option<nat>)
    requires i < |s.agents| && CountKnown(s, i, count) && s.agents[i].pc.Creating?
    ensures count == Some(s.agents[i].pc.retryCount)
  {
  }

  /**
   * Every dead letter of a run was inserted by a handler that had read a retry count,
   * with the event of that handler, that count, and nothing claimed.
   */
  lemma DeadLetterIsItsAuthors(c: Config, rows: Rows, now: int, acts: seq<Action>, k: nat)
    requires c.Valid() && k < |Run(c, Start(rows, now), acts).world.dead|
    ensures var s := Run(c, Start(rows, now), acts);
            var i := s.world.dead[k].author;
            var read := CountRead(c, Start(rows, now), acts, i);
            var (t, _) := DeliveryLease.Creation(c, k, Start(rows, now), acts);
            && i < |s.agents| && read.Some? && k < |t.world.dead|
            && t.world.dead[k].item == Item(s.agents[i].job.event, "failed", read.value, Pending, None, None)
  {
    RunTellsCount(c, Start(rows, now), acts, Run(c, Start(rows, now), acts).world.dead[k].author, k, None);
  }

  // ----- One dead letter for each handler ---------------------------------------------------

  /** Handlers past their insert may have a row, others have none, and nobody has two. */
  predicate OneEach(s: State) {
    && (forall k :: 0 <= k < |s.world.dead| ==> s.world.dead[k].author < |s.agents|)
    && (forall k :: 0 <= k < |s.world.dead| ==> !BeforeInsert(s.agents[s.world.dead[k].author]))
    && (forall j, k :: 0 <= j < k < |s.world.dead| ==> s.world.dead[j].author != s.world.dead[k].author)
  }

  lemma PastInsertStays(c: Config, w: World, id: nat, a: Agent, ch: Choice)
    requires c.Valid() && AgentOk(c, w, a)
    ensures var (v, b) := MoveAgent(c, w, id, a, ch);
            && (!BeforeInsert(a) ==> !BeforeInsert(b) && |v.dead| == |w.dead|)
            && (|v.dead| > |w.dead| ==> b.pc.Counting?)
  {
    hide SetNx, Live;
  }

  lemma StepKeepsOneEach(c: Config, s: State, act: Action)
    requires c.Valid() && WellFormed(c, s) && OneEach(s)
    ensures OneEach(Step(c, s, act))
  {
    hide MoveAgent;
    var t := Step(c, s, act);
    StepGrows(c, s, act);
    if act.Move? && act.id < |s.agents| {
      PastInsertStays(c, s.world, act.id, s.agents[act.id], act.choice);
    }
    if |t.world.dead| > |s.world.dead| {
      InsertedRow(c, s, act, |s.world.dead|);
      InsertedRow(c, s, act, |t.world.dead| - 1);
    }
  }

  lemma {:induction false} RunKeepsOneEach(c: Config, s: State, acts: seq<Action>)
    requires c.Valid() && WellFormed(c, s) && OneEach(s)
    ensures OneEach(Run(c, s, acts))
    decreases |acts|
  {
    hide Step, OneEach;
    if acts == [] {
    } else {
      StepGrows(c, s, acts[0]);
      StepKeepsOneEach(c, s, acts[0]);
      RunKeepsOneEach(c, Step(c, s, acts[0]), acts[1..]);
    }
  }

  /** In every run, no handler leaves two dead letters. */
  lemma OneDeadLetterEach(c: Config, rows: Rows, now: int, acts: seq<Action>, j: nat, k: nat)
    requires c.Valid() && j < k < |Run(c, Start(rows, now), acts).world.dead|
    ensures var dead := Run(c, Start(rows, now), acts).world.dead; dead[j].author != dead[k].author
  {
    RunKeepsOneEach(c, Start(rows, now), acts);
  }
}
