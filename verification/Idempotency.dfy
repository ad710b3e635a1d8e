/**
 * Duplicate suppression: the PostgreSQL idempotency store, the service that
 * looks a source key up under every key of the key ring, and what both promise
 * over whole histories of calls.
 */
module Idempotency {
  import opened Common

  /** Text of the `key` column. The HMAC digest is taken to identify key and source. */
  datatype StoredKey = Plain(source: string) | Hmac(kid: string, source: string)

  /** What one running instance knows: the HMAC flag, its active key and its key ring. */
  datatype Node = Node(hmac: bool, active: string, ring: seq<string>) {
    /** With the flag on, startup accepts only a ring (a Map, so no repetition) that holds the active key. */
    predicate Valid() {
      hmac ==> Distinct(ring) && active in ring
    }

    /** Key ids in lookup order: the active one first. */
    function Ordered(): seq<string> {
      Filter(ring, kid => kid == active) + Filter(ring, kid => kid != active)
    }
  }

  /** Every text under which `source` may be stored; the first one is used for writing. */
  function Candidates(n: Node, source: string): (keys: seq<StoredKey>)
    requires n.Valid()
    ensures |keys| > 0
    ensures keys[0] == Head(n, source)
  {
    if n.hmac then
      OrderedHead(n);
      seq(|n.Ordered()|, i requires 0 <= i < |n.Ordered()| => Hmac(n.Ordered()[i], source))
    else
      [Plain(source)]
  }

  function Head(n: Node, source: string): StoredKey {
    if n.hmac then Hmac(n.active, source) else Plain(source)
  }

  lemma OrderedHead(n: Node)
    requires n.Valid() && n.hmac
    ensures |n.Ordered()| > 0 && n.Ordered()[0] == n.active
  {
    var front := Filter(n.ring, kid => kid == n.active);
    assert n.active in front;
    assert front[0] in front;
  }

  /** The lookup order is a permutation of the key ring with the active key in front. */
  lemma OrderedIsPermutation(n: Node)
    requires n.Valid() && n.hmac
    ensures multiset(n.Ordered()) == multiset(n.ring)
    ensures n.Ordered()[0] == n.active
  {
    OrderedHead(n);
    FilterPartition(n.ring, kid => kid == n.active, kid => kid != n.active);
  }

  /** A text is a candidate exactly when it is this source under a key of the ring. */
  lemma CandidateIff(n: Node, source: string, k: StoredKey)
    requires n.Valid()
    ensures k in Candidates(n, source) <==>
            if n.hmac then k.Hmac? && k.source == source && k.kid in n.ring else k == Plain(source)
  {
    if n.hmac && k.Hmac? && k.source == source && k.kid in n.ring {
      assert k.kid in n.Ordered();
      var i :| 0 <= i < |n.Ordered()| && n.Ordered()[i] == k.kid;
      assert Candidates(n, source)[i] == k;
    }
  }

  // ----- The table ---------------------------------------------------------

  /** Rows of the table: key text to expiry time, in milliseconds. */
  type Rows = map<StoredKey, int>

  const PRUNE_GRACE_MS := 60_000

  predicate Live(rows: Rows, k: StoredKey, now: int) {
    k in rows && rows[k] > now
  }

  function Prune(rows: Rows, now: int): Rows {
    map k | k in rows && !(rows[k] < now - PRUNE_GRACE_MS) :: rows[k]
  }

  /** `started`, `at` and `pruned` are the three clock readings of one transaction. */
  function SetNx(rows: Rows, k: StoredKey, ttl: int, started: int, at: int, pruned: int): (Rows, bool) {
    if Live(rows, k, at) then (rows, false)
    else (Prune(rows[k := started + ttl * 1000], pruned), true)
  }

  /**
   * What one write does to the table: a live row refuses it; otherwise the row is there
   * with its expiry, and exactly the rows that expired more than a minute ago are gone.
   */
  lemma WriteTakesIff(rows: Rows, k: StoredKey, ttl: int, started: int, at: int, pruned: int)
    ensures var (next, taken) := SetNx(rows, k, ttl, started, at, pruned);
            var put := rows[k := started + ttl * 1000];
            && (taken <==> k in rows ==> rows[k] <= at)
            && (!taken ==> next == rows)
            && (taken ==> forall other :: other in next <==> other in put && put[other] >= pruned - 60_000)
            && (taken ==> forall other :: other in next ==> next[other] == put[other])
  {
  }

  class PgIdempotencyStore {
    var rows: Rows

    constructor ()
      ensures rows == map[]
    {
      rows := map[];
    }

    method Exists(key: StoredKey, now: int) returns (found: bool)
      ensures found <==> key in rows && now < rows[key]
    {
      found := false;
      if key in rows {
        var expiresAt := rows[key];
        found := expiresAt > now;
      }
    }

    /** A failing transaction rolls back and answers false. */
    method SetIfNotExists(key: StoredKey, ttl: int, started: int, at: int, pruned: int, fails: bool)
      returns (taken: bool)
      modifies this
      ensures fails ==> rows == old(rows) && !taken
      ensures !fails ==> (rows, taken) == SetNx(old(rows), key, ttl, started, at, pruned)
      ensures !fails ==> (taken <==> key in old(rows) ==> old(rows)[key] <= at)
      ensures !taken ==> rows == old(rows)
      ensures taken ==> var put := old(rows)[key := started + ttl * 1000];
                        forall k :: k in rows <==> k in put && put[k] >= pruned - 60_000
      ensures taken ==> forall k :: k in rows ==> rows[k] == if k == key then started + ttl * 1000 else old(rows)[k]
    {
      var expiresAt := started + ttl * 1000;
      if fails {
        return false;
      }
      if key in rows && rows[key] > at {
        return false;
      }
      rows := rows[key := expiresAt];
      rows := map k | k in rows && !(rows[k] < pruned - PRUNE_GRACE_MS) :: rows[k];
      taken := true;
    }

    /** An error of the deletion is swallowed: the row stays and the caller is not told. */
    method Delete(key: StoredKey, fails: bool)
      modifies this
      ensures rows == if fails then old(rows) else old(rows) - {key}
    {
      if !fails {
        rows := rows - {key};
      }
    }
  }

  // ----- Lazy expiry against an eager set ----------------------------------

  datatype Op =
    | Exists(key: StoredKey, at: int)
    | SetIfNotExists(key: StoredKey, ttl: int, started: int, at: int, pruned: int)
    | Delete(key: StoredKey, at: int)
  {
    function Begin(): int {
      if SetIfNotExists? then started else at
    }

    function End(): int {
      if SetIfNotExists? then pruned else at
    }
  }

  predicate Chronological(ops: seq<Op>, now: int) {
    ops != [] ==>
      && now <= ops[0].Begin()
      && (ops[0].SetIfNotExists? ==> ops[0].started <= ops[0].at <= ops[0].pruned)
      && Chronological(ops[1..], ops[0].End())
  }

  function PgStep(rows: Rows, op: Op): (Rows, bool) {
    match op
    case Exists(k, at) => (rows, Live(rows, k, at))
    case SetIfNotExists(k, ttl, started, at, pruned) => SetNx(rows, k, ttl, started, at, pruned)
    case Delete(k, _) => (rows - {k}, true)
  }

  /** An entry leaves the eager set at the instant it expires. */
  function Evict(entries: Rows, now: int): Rows {
    map k | k in entries && entries[k] > now :: entries[k]
  }

  /** What `SET key 1 EX ttl NX`, `EXISTS` and `DEL` do on a set that evicts eagerly. */
  function EagerStep(entries: Rows, op: Op): (Rows, bool) {
    var present := Evict(entries, op.at);
    match op
    case Exists(k, _) => (present, k in present)
    case SetIfNotExists(k, ttl, started, _, _) =>
      if k in present then (present, false) else (present[k := started + ttl * 1000], true)
    case Delete(k, _) => (present - {k}, true)
  }

  function PgAnswers(rows: Rows, ops: seq<Op>): seq<bool>
    decreases |ops|
  {
    if ops == [] then []
    else var (next, answer) := PgStep(rows, ops[0]); [answer] + PgAnswers(next, ops[1..])
  }

  function EagerAnswers(entries: Rows, ops: seq<Op>): seq<bool>
    decreases |ops|
  {
    if ops == [] then []
    else var (next, answer) := EagerStep(entries, ops[0]); [answer] + EagerAnswers(next, ops[1..])
  }

  /** The two stores agree on everything still alive at `now`. */
  ghost predicate Agree(rows: Rows, entries: Rows, now: int) {
    && (forall k :: Live(rows, k, now) ==> Live(entries, k, now) && entries[k] == rows[k])
    && (forall k :: Live(entries, k, now) ==> Live(rows, k, now) && entries[k] == rows[k])
  }

  lemma StepsAgree(rows: Rows, entries: Rows, op: Op, now: int)
    requires Agree(rows, entries, now)
    requires Chronological([op], now)
    ensures PgStep(rows, op).1 == EagerStep(entries, op).1
    ensures Agree(PgStep(rows, op).0, EagerStep(entries, op).0, op.End())
  {
    var (next, answer) := PgStep(rows, op);
    var (entries', answer') := EagerStep(entries, op);
    assert Live(rows, op.key, op.at) <==> Live(entries, op.key, op.at) by {
      assert Live(rows, op.key, op.at) ==> Live(rows, op.key, now);
      assert Live(entries, op.key, op.at) ==> Live(entries, op.key, now);
    }
    forall k | Live(next, k, op.End())
      ensures Live(entries', k, op.End()) && entries'[k] == next[k]
    {
      if Live(rows, k, op.End()) {
        assert Live(rows, k, now);
      }
    }
    forall k | Live(entries', k, op.End())
      ensures Live(next, k, op.End()) && entries'[k] == next[k]
    {
      if Live(entries, k, op.End()) {
        assert Live(entries, k, now);
      }
    }
  }

  /** Leaving expired rows in place and pruning them late changes no answer. */
  lemma {:induction false} LazyExpiryIsEagerExpiry(rows: Rows, entries: Rows, ops: seq<Op>, now: int)
    requires Agree(rows, entries, now)
    requires Chronological(ops, now)
    ensures PgAnswers(rows, ops) == EagerAnswers(entries, ops)
    decreases |ops|
  {
    if ops == [] {
    } else {
      StepsAgree(rows, entries, ops[0], now);
      LazyExpiryIsEagerExpiry(PgStep(rows, ops[0]).0, EagerStep(entries, ops[0]).0, ops[1..], ops[0].End());
    }
  }

  // ----- The service -------------------------------------------------------

  /** checkAndLock at one instant: the other candidates are looked at only when there are several. */
  function LockOutcome(rows: Rows, n: Node, source: string, ttl: int, now: int): (Rows, bool)
    requires n.Valid()
  {
    var keys := Candidates(n, source);
    if |keys| > 1 && exists i :: 0 <= i < |keys| && Live(rows, keys[i], now) then (rows, false)
    else SetNx(rows, keys[0], ttl, now, now, now)
  }

  /** `failing` are the texts whose deletion throws. */
  function AfterRelease(rows: Rows, n: Node, source: string, failing: set<StoredKey>): Rows
    requires n.Valid()
  {
    map k | k in rows && (k !in Candidates(n, source) || k in failing) :: rows[k]
  }

  class IdempotencyService {
    const store: PgIdempotencyStore
    const node: Node

    constructor (store: PgIdempotencyStore, node: Node)
      ensures this.store == store && this.node == node
    {
      this.store := store;
      this.node := node;
    }

    method CheckAndLock(key: string, ttl: int, now: int) returns (locked: bool)
      requires node.Valid()
      modifies store
      ensures (store.rows, locked) == LockOutcome(old(store.rows), node, key, ttl, now)
    {
      var keys := Candidates(node, key);
      if |keys| > 1 {
        for i := 0 to |keys|
          invariant store.rows == old(store.rows)
          invariant forall j :: 0 <= j < i ==> !Live(store.rows, keys[j], now)
        {
          var found := store.Exists(keys[i], now);
          if found {
            return false;
          }
        }
      }
      locked := store.SetIfNotExists(keys[0], ttl, now, now, now, false);
    }

    method Release(key: string, failing: set<StoredKey>)
      requires node.Valid()
      modifies store
      ensures store.rows == AfterRelease(old(store.rows), node, key, failing)
    {
      var keys := Candidates(node, key);
      for i := 0 to |keys|
        invariant store.rows == map k | k in old(store.rows) && (k !in keys[..i] || k in failing) :: old(store.rows)[k]
      {
        assert keys[..i + 1] == keys[..i] + [keys[i]];
        store.Delete(keys[i], keys[i] in failing);
      }
      assert keys[..|keys|] == keys;
    }
  }

  // ----- Deduplication while the active key changes -------------------------

  datatype Call =
    | Check(node: Node, source: string, ttl: int, now: int)
    | Free(node: Node, source: string, now: int, failing: set<StoredKey>)

  function ServiceStep(rows: Rows, c: Call): (Rows, bool)
    requires c.node.Valid()
  {
    match c
    case Check(n, source, ttl, now) => LockOutcome(rows, n, source, ttl, now)
    case Free(n, source, _, failing) => (AfterRelease(rows, n, source, failing), true)
  }

  function ServiceAnswers(rows: Rows, calls: seq<Call>): (answers: seq<bool>)
    requires forall c :: c in calls ==> c.node.Valid()
    ensures |answers| == |calls|
    decreases |calls|
  {
    if calls == [] then []
    else var (next, answer) := ServiceStep(rows, calls[0]); [answer] + ServiceAnswers(next, calls[1..])
  }

  /** A live row is found by every service whose candidate list holds its key. */
  lemma LiveRowBlocks(rows: Rows, n: Node, source: string, ttl: int, now: int, k: StoredKey)
    requires n.Valid() && k in Candidates(n, source) && Live(rows, k, now)
    ensures LockOutcome(rows, n, source, ttl, now) == (rows, false)
  {
    var keys := Candidates(n, source);
    var i :| 0 <= i < |keys| && keys[i] == k;
    assert Live(rows, keys[i], now);
  }

  /**
   * Once a source is locked under some key, every later check of it answers false
   * until the lock expires or the source is released, whichever key is active in
   * the asking service, as long as its ring still holds the locking key.
   */
  lemma {:induction false} LockOutlivesActiveKey(rows: Rows, source: string, k: StoredKey, calls: seq<Call>)
    requires k in rows
    requires forall c :: c in calls ==> c.node.Valid() && c.now < rows[k]
    requires forall c :: c in calls && c.source == source ==> c.Check? && k in Candidates(c.node, source)
    requires forall c :: c in calls && c.source != source ==> k !in Candidates(c.node, c.source)
    ensures forall i :: 0 <= i < |calls| && calls[i].source == source ==> !ServiceAnswers(rows, calls)[i]
    decreases |calls|
  {
    if calls == [] {
    } else {
      var c := calls[0];
      var (next, answer) := ServiceStep(rows, c);
      if c.source == source {
        LiveRowBlocks(rows, c.node, source, c.ttl, c.now, k);
      }
      assert c in calls;
      assert k in next && next[k] == rows[k];
      LockOutlivesActiveKey(next, source, k, calls[1..]);
    }
  }

  /** Every service of the run can look the lock of `first` up. */
  ghost predicate RingsKeep(first: Node, calls: seq<Call>) {
    forall c :: c in calls ==>
                  c.node.Valid() && c.node.hmac == first.hmac && (first.hmac ==> first.active in c.node.ring)
  }

  lemma LockTaken(rows: Rows, n: Node, source: string, ttl: int, now: int)
    requires n.Valid() && ttl > 0
    requires LockOutcome(rows, n, source, ttl, now).1
    ensures var next := LockOutcome(rows, n, source, ttl, now).0;
            Head(n, source) in next && next[Head(n, source)] == now + ttl * 1000
  {
    var keys := Candidates(n, source);
    assert LockOutcome(rows, n, source, ttl, now) == SetNx(rows, keys[0], ttl, now, now, now);
  }

  lemma CallsSeparate(first: Node, source: string, calls: seq<Call>)
    requires first.Valid() && RingsKeep(first, calls)
    ensures forall c :: c in calls && c.source == source ==> Head(first, source) in Candidates(c.node, source)
    ensures forall c :: c in calls && c.source != source ==> Head(first, source) !in Candidates(c.node, c.source)
  {
    var k := Head(first, source);
    forall c | c in calls
      ensures c.source == source ==> k in Candidates(c.node, source)
      ensures c.source != source ==> k !in Candidates(c.node, c.source)
    {
      CandidateIff(c.node, c.source, k);
    }
  }

  /** Deduplication survives a change of active key: from the first lock until expiry or release. */
  lemma DeduplicationSurvivesKeyChange(rows: Rows, first: Node, source: string, ttl: int, taken: int, calls: seq<Call>)
    requires first.Valid() && RingsKeep(first, calls) && ttl > 0
    requires LockOutcome(rows, first, source, ttl, taken).1
    requires forall c :: c in calls ==> c.now < taken + ttl * 1000 && (c.source == source ==> c.Check?)
    ensures forall i :: 0 <= i < |calls| && calls[i].source == source ==>
                          !ServiceAnswers(LockOutcome(rows, first, source, ttl, taken).0, calls)[i]
  {
    LockTaken(rows, first, source, ttl, taken);
    CallsSeparate(first, source, calls);
    LockOutlivesActiveKey(LockOutcome(rows, first, source, ttl, taken).0, source, Head(first, source), calls);
  }

  /**
   * Exactly when a second service sees the lock a first one has just taken:
   * the locking text must be among its own candidates.
   */
  lemma SecondServiceSeesLockIff(first: Node, second: Node, source: string, ttl: int, now: int, later: int)
    requires first.Valid() && second.Valid()
    requires now <= later < now + ttl * 1000
    ensures var (rows, taken) := LockOutcome(map[], first, source, ttl, now);
            taken && (!LockOutcome(rows, second, source, ttl, later).1 <==>
                      Head(first, source) in Candidates(second, source))
  {
    var (rows, taken) := LockOutcome(map[], first, source, ttl, now);
    var head := Head(first, source);
    assert taken && rows == map[head := now + ttl * 1000];
    var keys := Candidates(second, source);
    if head in keys {
      LiveRowBlocks(rows, second, source, ttl, later, head);
    } else {
      assert forall i :: 0 <= i < |keys| ==> keys[i] != head;
    }
  }

  /** `k` is in the store, live, and the release by `n` does not remove it. */
  predicate SurvivesRelease(rows: Rows, n: Node, source: string, failing: set<StoredKey>, k: StoredKey, now: int)
    requires n.Valid()
  {
    Live(rows, k, now) && (k !in Candidates(n, source) || k in failing)
  }

  /**
   * Exactly when a source can be locked after a release: no live text that the next
   * service looks at lies outside the releasing service's candidates or among the
   * texts whose deletion threw. A single candidate is looked at by the write itself.
   */
  lemma ReleaseFreesSourceIff(rows: Rows, n: Node, m: Node, source: string, failing: set<StoredKey>, ttl: int, now: int)
    requires n.Valid() && m.Valid()
    ensures LockOutcome(AfterRelease(rows, n, source, failing), m, source, ttl, now).1 <==>
            forall k :: k in Candidates(m, source) ==> !SurvivesRelease(rows, n, source, failing, k, now)
  {
    var keys := Candidates(m, source);
    var after := AfterRelease(rows, n, source, failing);
    forall k
      ensures Live(after, k, now) <==> SurvivesRelease(rows, n, source, failing, k, now)
    {
    }
    if k :| k in keys && SurvivesRelease(rows, n, source, failing, k, now) {
      LiveRowBlocks(after, m, source, ttl, now, k);
    } else {
      forall i | 0 <= i < |keys|
        ensures !Live(after, keys[i], now)
      {
        assert keys[i] in keys;
      }
    }
  }

  /** Services that share their keys can lock a source as soon as one of them has released it without an error. */
  lemma ReleaseFreesSource(rows: Rows, n: Node, m: Node, source: string, ttl: int, now: int)
    requires n.Valid() && m.Valid() && n.hmac == m.hmac
    requires n.hmac ==> forall kid :: kid in m.ring ==> kid in n.ring
    ensures LockOutcome(AfterRelease(rows, n, source, {}), m, source, ttl, now).1
    ensures forall k :: k in rows && k !in Candidates(n, source) ==>
                          k in AfterRelease(rows, n, source, {}) && AfterRelease(rows, n, source, {})[k] == rows[k]
  {
    ReleaseFreesSourceIff(rows, n, m, source, {}, ttl, now);
    forall k | k in Candidates(m, source)
      ensures k in Candidates(n, source)
    {
      CandidateIff(m, source, k);
      CandidateIff(n, source, k);
    }
  }
}
