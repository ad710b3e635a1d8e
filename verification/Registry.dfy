/**
 * The connector registry: a map of connectors rebuilt from the table of target
 * systems, and the change detector that decides when to rebuild it.
 */
module Registry {
  import opened Common

  /** A row of the table. `stamp` is its `updatedAt`. */
  datatype Row = Row(name: string, kind: string, config: string, enabled: bool, stamp: int)

  type Table = map<string, Row> // by id

  /** What a name resolves to: a connector from code, or one bound to a row's configuration. */
  datatype Connector = Static(kind: string) | Proxy(kind: string, name: string, config: string)

  /** Connector types known to the code and the subset that may be used by type name. */
  datatype Blueprints = Blueprints(kinds: seq<string>, allowlist: set<string>)

  predicate NamesUnique(t: Table) {
    forall a, b :: a in t && b in t && t[a].name == t[b].name ==> a == b
  }

  /** A row that yields a connector. */
  predicate Usable(b: Blueprints, r: Row) {
    r.enabled && r.kind in b.kinds
  }

  /** The connector a name stands for, read off the table. */
  ghost function Resolve(b: Blueprints, t: Table, name: string): Option<Connector>
    requires NamesUnique(t)
  {
    if exists id :: id in t && t[id].name == name && Usable(b, t[id]) then
      var id :| id in t && t[id].name == name && Usable(b, t[id]);
      Some(Proxy(t[id].kind, name, t[id].config))
    else if name in b.kinds && name in b.allowlist then Some(Static(name))
    else None
  }

  /** The map holds exactly what the table and the blueprints say. */
  ghost predicate Reflects(connectors: map<string, Connector>, b: Blueprints, t: Table)
    requires NamesUnique(t)
  {
    forall name :: (if name in connectors then Some(connectors[name]) else None) == Resolve(b, t, name)
  }

  // ----- The change detector ---------------------------------------------------------

  /** Row count and latest stamp; `None` for an empty table. */
  datatype Version = Version(count: nat, latest: Option<int>)

  /** `v` is the version of `t`. */
  ghost predicate IsVersion(v: Version, t: Table) {
    && v.count == |t|
    && (v.latest.None? <==> |t| == 0)
    && (v.latest.Some? ==>
          && (exists id :: id in t && t[id].stamp == v.latest.value)
          && (forall id :: id in t ==> t[id].stamp <= v.latest.value))
  }

  datatype Change =
    | Create(id: string, row: Row)
    | Update(id: string, row: Row)
    | Delete(id: string)

  function Applied(t: Table, c: Change): Table {
    match c
    case Create(id, row) => t[id := row]
    case Update(id, row) => t[id := row]
    case Delete(id) => t - {id}
  }

  /** Writes carry stamps later than everything before `since`; a create uses a new id, the others an old one. */
  ghost predicate Legal(t: Table, c: Change, since: int) {
    && (c.Create? ==> c.id !in t && c.row.stamp > since)
    && (c.Update? ==> c.id in t && c.row.stamp > since)
    && (c.Delete? ==> c.id in t)
  }

  function Clock(c: Change, since: int): int {
    if c.Delete? then since else c.row.stamp
  }

  ghost predicate Ticking(t: Table, changes: seq<Change>, since: int)
    decreases |changes|
  {
    changes != [] ==>
      Legal(t, changes[0], since) && Ticking(Applied(t, changes[0]), changes[1..], Clock(changes[0], since))
  }

  function AppliedAll(t: Table, changes: seq<Change>): Table
    decreases |changes|
  {
    if changes == [] then t else AppliedAll(Applied(t, changes[0]), changes[1..])
  }

  /** Rows of `t` stamped no later than `at` come unchanged from `start`. */
  ghost predicate OldRowsKept(start: Table, t: Table, at: int) {
    forall id :: id in t && t[id].stamp <= at ==> id in start && start[id] == t[id]
  }

  lemma {:induction false} ChangesKeepOldRows(start: Table, t: Table, changes: seq<Change>, at: int, since: int)
    requires OldRowsKept(start, t, at) && at <= since && Ticking(t, changes, since)
    ensures OldRowsKept(start, AppliedAll(t, changes), at)
    decreases |changes|
  {
    if changes == [] {
    } else {
      ChangesKeepOldRows(start, Applied(t, changes[0]), changes[1..], at, Clock(changes[0], since));
    }
  }

  lemma SubmapOfEqualSize(a: Table, b: Table)
    requires forall id :: id in b ==> id in a && a[id] == b[id]
    requires |a| == |b|
    ensures a == b
  {
    assert a.Keys == b.Keys + (a.Keys - b.Keys);
  }

  /**
   * The detector misses nothing: over any creates, updates and deletes with strictly
   * later stamps, the same count and the same latest stamp mean the same rows.
   */
  lemma EqualVersionMeansEqualRows(t: Table, changes: seq<Change>, since: int, v: Version)
    requires forall id :: id in t ==> t[id].stamp <= since
    requires Ticking(t, changes, since)
    requires IsVersion(v, t) && IsVersion(v, AppliedAll(t, changes))
    ensures AppliedAll(t, changes) == t
  {
    var u := AppliedAll(t, changes);
    if |t| == 0 {
      assert t == map[] && u == map[];
    } else {
      var id :| id in t && t[id].stamp == v.latest.value;
      ChangesKeepOldRows(t, t, changes, v.latest.value, since);
      SubmapOfEqualSize(t, u);
    }
  }

  // ----- Stamps that may repeat ---------------------------------------------------------

  /** As `Legal`, but a write may carry the stamp of an earlier one. */
  ghost predicate LooselyLegal(t: Table, c: Change, since: int) {
    && (c.Create? ==> c.id !in t && c.row.stamp >= since)
    && (c.Update? ==> c.id in t && c.row.stamp >= since)
    && (c.Delete? ==> c.id in t)
  }

  ghost predicate LooselyTicking(t: Table, changes: seq<Change>, since: int)
    decreases |changes|
  {
    changes != [] ==>
      && LooselyLegal(t, changes[0], since)
      && LooselyTicking(Applied(t, changes[0]), changes[1..], Clock(changes[0], since))
  }

  /** Exactly which single writes go unseen: updates that carry the latest stamp there is. */
  lemma WriteGoesUnseenIff(t: Table, c: Change, since: int, v: Version)
    requires IsVersion(v, t) && LooselyLegal(t, c, since) && forall id :: id in t ==> t[id].stamp <= since
    ensures IsVersion(v, Applied(t, c)) <==> c.Update? && c.row.stamp == v.latest.value
  {
    var u := Applied(t, c);
    match c
    case Create(id, _) => assert u.Keys == t.Keys + {id} && |u| == |t| + 1;
    case Delete(id) => assert t.Keys == u.Keys + {id} && |t| == |u| + 1;
    case Update(id, row) =>
      assert u.Keys == t.Keys && |u| == |t|;
      assert u[id] == row;
      var w :| w in t && t[w].stamp == v.latest.value;
      assert t[w].stamp <= row.stamp;
      if row.stamp == v.latest.value {
        assert u[id].stamp == v.latest.value;
      }
  }

  /** Such an update is at hand: a second write within one clock reading. */
  lemma EqualStampsGoUnseen(at: int)
    ensures var t := map["1" := Row("erp", "rest", "old", true, at)];
            var c := Update("1", Row("erp", "rest", "new", true, at));
            var v := Version(1, Some(at));
            IsVersion(v, t) && LooselyLegal(t, c, at) && IsVersion(v, Applied(t, c)) && Applied(t, c) != t
  {
    var t := map["1" := Row("erp", "rest", "old", true, at)];
    var c := Update("1", Row("erp", "rest", "new", true, at));
    assert t["1"].config != Applied(t, c)["1"].config;
    assert |t| == 1 && t["1"].stamp == at;
    WriteGoesUnseenIff(t, c, at, Version(1, Some(at)));
  }

  /** A surviving row that was not there, or not like this, was written by some change. */
  predicate WroteRow(changes: seq<Change>, t: Table, u: Table, i: nat) {
    && i < |changes| && !changes[i].Delete?
    && changes[i].id in u && u[changes[i].id] == changes[i].row
    && !(changes[i].id in t && t[changes[i].id] == changes[i].row)
  }

  lemma {:induction false} NewRowsWereWritten(start: Table, t: Table, changes: seq<Change>, id: string) returns (i: nat)
    requires id in AppliedAll(t, changes) && !(id in start && start[id] == AppliedAll(t, changes)[id])
    requires id in t && t[id] == AppliedAll(t, changes)[id] ==> id in start && start[id] == t[id]
    ensures WroteRow(changes, start, AppliedAll(t, changes), i) && changes[i].id == id
    decreases |changes|
  {
    var u := AppliedAll(t, changes);
    var next := Applied(t, changes[0]);
    if id in next && next[id] == u[id] {
      i := 0;
    } else {
      var k := NewRowsWereWritten(start, next, changes[1..], id);
      i := k + 1;
    }
  }

  /** Rows stamped before `at` come unchanged from `start`. */
  ghost predicate OlderRowsKept(start: Table, t: Table, at: int) {
    forall id :: id in t && t[id].stamp < at ==> id in start && start[id] == t[id]
  }

  lemma {:induction false} LooseChangesKeepOlderRows(start: Table, t: Table, changes: seq<Change>, at: int, since: int)
    requires OlderRowsKept(start, t, at) && at <= since && LooselyTicking(t, changes, since)
    ensures OlderRowsKept(start, AppliedAll(t, changes), at)
    decreases |changes|
  {
    if changes == [] {
    } else {
      LooseChangesKeepOlderRows(start, Applied(t, changes[0]), changes[1..], at, Clock(changes[0], since));
    }
  }

  /**
   * Exactly when a history with stamps that may repeat goes unseen: as many rows as
   * before, none of them later than the latest stamp, and one written with that very stamp.
   */
  lemma HistoryGoesUnseenIff(t: Table, changes: seq<Change>, since: int, v: Version)
    requires IsVersion(v, t) && t != map[] && forall id :: id in t ==> t[id].stamp <= since
    requires LooselyTicking(t, changes, since)
    ensures var u := AppliedAll(t, changes);
            IsVersion(v, u) && u != t <==>
            && |u| == |t| && (forall id :: id in u ==> u[id].stamp <= v.latest.value)
            && exists i: nat :: WroteRow(changes, t, u, i) && changes[i].row.stamp == v.latest.value
  {
    var u := AppliedAll(t, changes);
    var latest := v.latest.value;
    if IsVersion(v, u) && u != t {
      var w :| w in t && t[w].stamp == latest;
      LooseChangesKeepOlderRows(t, t, changes, latest, since);
      if forall id :: id in u ==> id in t && t[id] == u[id] {
        SubmapOfEqualSize(t, u);
        assert false;
      }
      var id :| id in u && !(id in t && t[id] == u[id]);
      var i := NewRowsWereWritten(t, t, changes, id);
      assert changes[i].row.stamp == latest;
    }
    if |u| == |t| && (forall id :: id in u ==> u[id].stamp <= latest)
       && exists i: nat :: WroteRow(changes, t, u, i) && changes[i].row.stamp == latest {
      var i: nat :| WroteRow(changes, t, u, i) && changes[i].row.stamp == latest;
      assert u[changes[i].id].stamp == latest;
    }
  }

  // ----- The registry ------------------------------------------------------------------

  /** `rows` is what reading the enabled rows of `t` returns, in whatever order. */
  ghost predicate Lists(rows: seq<Row>, t: Table) {
    && (forall r :: r in rows ==> r.enabled && exists id :: id in t && t[id] == r)
    && (forall id :: id in t && t[id].enabled ==> t[id] in rows)
  }

  /** What an execute call of a proxy hands on: the configuration of the row wins over the caller's. */
  function ProxyPayload(payload: map<string, string>, config: string): (r: map<string, string>)
    ensures "config" in r && r["config"] == config
    ensures forall k :: k in payload && k != "config" ==> k in r && r[k] == payload[k]
    ensures r.Keys == payload.Keys + {"config"}
  {
    payload["config" := config]
  }

  datatype Reg = Reg(connectors: map<string, Connector>, last: Option<Version>)

  /** What a reload does: `t` is the table whose rows it reads, `later` the version it reads then. */
  ghost predicate ReloadEffect(b: Blueprints, r: Reg, t: Table, later: Option<Version>, fails: bool, after: Reg)
    requires NamesUnique(t)
  {
    if fails then after == r
    else Reflects(after.connectors, b, t) && after.last == if later.Some? then later else r.last
  }

  /** What one poll does: `observed` is the version it reads first. */
  ghost predicate PollEffect(b: Blueprints, r: Reg, observed: Option<Version>, t: Table, later: Option<Version>,
                             fails: bool, after: Reg)
    requires NamesUnique(t)
  {
    if observed.None? || observed == r.last then after == r
    else ReloadEffect(b, r, t, later, fails, after)
  }

  predicate HasUsable(b: Blueprints, rows: seq<Row>, name: string) {
    exists i :: 0 <= i < |rows| && Usable(b, rows[i]) && rows[i].name == name
  }

  /** The map after the allowed statics and the given rows have been entered. */
  ghost predicate Built(next: map<string, Connector>, b: Blueprints, rows: seq<Row>) {
    && (forall i :: 0 <= i < |rows| && Usable(b, rows[i]) ==>
          rows[i].name in next && next[rows[i].name] == Proxy(rows[i].kind, rows[i].name, rows[i].config))
    && (forall name :: !HasUsable(b, rows, name) ==>
          && (name in next <==> name in b.kinds && name in b.allowlist)
          && (name in next ==> next[name] == Static(name)))
  }

  lemma BuildOne(next: map<string, Connector>, b: Blueprints, rows: seq<Row>, i: nat)
    requires i < |rows| && rows[i].enabled && Built(next, b, rows[..i])
    requires forall r :: r in rows && r.name == rows[i].name ==> r == rows[i]
    ensures Built(if rows[i].kind in b.kinds
                  then next[rows[i].name := Proxy(rows[i].kind, rows[i].name, rows[i].config)] else next,
                  b, rows[..i + 1])
  {
    var r := rows[i];
    var after := if r.kind in b.kinds then next[r.name := Proxy(r.kind, r.name, r.config)] else next;
    forall j | 0 <= j < i + 1 && Usable(b, rows[j])
      ensures rows[j].name in after && after[rows[j].name] == Proxy(rows[j].kind, rows[j].name, rows[j].config)
    {
      assert rows[j] in rows;
      if j < i {
        assert rows[..i][j] == rows[j];
      }
    }
    forall name | !HasUsable(b, rows[..i + 1], name)
      ensures name in after <==> name in b.kinds && name in b.allowlist
      ensures name in after ==> after[name] == Static(name)
    {
      assert rows[..i + 1][i] == r;
      assert forall j :: 0 <= j < i ==> rows[..i + 1][j] == rows[..i][j];
    }
  }

  lemma BuiltReflects(next: map<string, Connector>, b: Blueprints, t: Table, rows: seq<Row>)
    requires NamesUnique(t) && Lists(rows, t) && Built(next, b, rows)
    ensures Reflects(next, b, t)
  {
    forall name
      ensures (if name in next then Some(next[name]) else None) == Resolve(b, t, name)
    {
      if HasUsable(b, rows, name) {
        var i :| 0 <= i < |rows| && Usable(b, rows[i]) && rows[i].name == name;
        assert rows[i] in rows;
        var id :| id in t && t[id] == rows[i];
        ResolvesTo(b, t, id);
      } else {
        forall id | id in t && t[id].name == name
          ensures !Usable(b, t[id])
        {
          if t[id].enabled {
            assert t[id] in rows;
          }
        }
      }
    }
  }

  lemma ResolvesTo(b: Blueprints, t: Table, id: string)
    requires NamesUnique(t) && id in t && Usable(b, t[id])
    ensures Resolve(b, t, t[id].name) == Some(Proxy(t[id].kind, t[id].name, t[id].config))
  {
  }

  /**
   * When the map is right, spelled out: each enabled row of known type has its proxy, and
   * any other name its static connector if that is known and allowed, or nothing.
   */
  lemma ReflectsIff(connectors: map<string, Connector>, b: Blueprints, t: Table)
    requires NamesUnique(t)
    ensures Reflects(connectors, b, t) <==>
            && (forall id :: id in t && t[id].enabled && t[id].kind in b.kinds ==>
                  t[id].name in connectors && connectors[t[id].name] == Proxy(t[id].kind, t[id].name, t[id].config))
            && (forall name ::
                  (forall id :: id in t && t[id].name == name ==> !t[id].enabled || t[id].kind !in b.kinds) ==>
                  && (name in connectors <==> name in b.kinds && name in b.allowlist)
                  && (name in connectors ==> connectors[name] == Static(name)))
  {
    forall id | id in t && t[id].enabled && t[id].kind in b.kinds
      ensures Resolve(b, t, t[id].name) == Some(Proxy(t[id].kind, t[id].name, t[id].config))
    {
      ResolvesTo(b, t, id);
    }
  }

  lemma SameNameSameRow(t: Table, rows: seq<Row>, i: nat)
    requires NamesUnique(t) && Lists(rows, t) && i < |rows|
    ensures forall r :: r in rows && r.name == rows[i].name ==> r == rows[i]
  {
    assert rows[i] in rows;
    var a :| a in t && t[a] == rows[i];
    forall r | r in rows && r.name == rows[i].name
      ensures r == rows[i]
    {
      var b :| b in t && t[b] == r;
      assert t[a].name == t[b].name;
    }
  }

  class ConnectorRegistry {
    var connectors: map<string, Connector>
    var lastVersion: Option<Version>
    const blueprints: Blueprints

    constructor (blueprints: Blueprints)
      ensures connectors == map[] && lastVersion == None && this.blueprints == blueprints
    {
      connectors, lastVersion, this.blueprints := map[], None, blueprints;
    }

    /** Static connectors are kept only when explicitly allowed. */
    method AllowedStatics() returns (next: map<string, Connector>)
      ensures Built(next, blueprints, [])
      ensures forall name :: name in next <==> name in blueprints.kinds && name in blueprints.allowlist
      ensures forall name :: name in next ==> next[name] == Static(name)
    {
      next := map[];
      for i := 0 to |blueprints.kinds|
        invariant forall name :: name in next <==> name in blueprints.kinds[..i] && name in blueprints.allowlist
        invariant forall name :: name in next ==> next[name] == Static(name)
      {
        if blueprints.kinds[i] in blueprints.allowlist {
          next := next[blueprints.kinds[i] := Static(blueprints.kinds[i])];
        }
      }
      assert blueprints.kinds[..|blueprints.kinds|] == blueprints.kinds;
    }

    /**
     * `rows` are the enabled rows of `t`; `later` is the version read afterwards,
     * `None` when that read throws. `fails`: reading or decrypting the rows throws.
     */
    method ReloadInternal(ghost t: Table, rows: seq<Row>, later: Option<Version>, fails: bool)
      requires NamesUnique(t) && Lists(rows, t)
      modifies this
      ensures ReloadEffect(blueprints, Reg(old(connectors), old(lastVersion)), t, later, fails,
                           Reg(connectors, lastVersion))
      ensures fails ==> connectors == old(connectors) && lastVersion == old(lastVersion)
      ensures !fails ==> Reflects(connectors, blueprints, t)
      ensures !fails ==> lastVersion == if later.Some? then later else old(lastVersion)
    {
      if fails {
        return;
      }
      var next := AllowedStatics();
      for i := 0 to |rows|
        invariant Built(next, blueprints, rows[..i])
        invariant lastVersion == old(lastVersion)
      {
        SameNameSameRow(t, rows, i);
        BuildOne(next, blueprints, rows, i);
        if rows[i].kind in blueprints.kinds {
          next := next[rows[i].name := Proxy(rows[i].kind, rows[i].name, rows[i].config)];
        }
      }
      assert rows[..|rows|] == rows;
      connectors := next;
      BuiltReflects(next, blueprints, t, rows);
      if later.Some? {
        lastVersion := later;
      }
    }

    /** One poll: `observed` is the version read, `None` when reading throws. */
    method ReloadIfChanged(observed: Option<Version>, ghost t: Table, rows: seq<Row>, later: Option<Version>,
                           fails: bool)
      requires NamesUnique(t) && Lists(rows, t)
      modifies this
      ensures PollEffect(blueprints, Reg(old(connectors), old(lastVersion)), observed, t, later, fails,
                         Reg(connectors, lastVersion))
      ensures observed.None? || observed == old(lastVersion) || fails ==>
                connectors == old(connectors) && lastVersion == old(lastVersion)
      ensures observed.Some? && observed != old(lastVersion) && !fails ==>
                && Reflects(connectors, blueprints, t)
                && lastVersion == if later.Some? then later else old(lastVersion)
    {
      if observed.Some? && observed != lastVersion {
        ReloadInternal(t, rows, later, fails);
      }
    }
  }

  // ----- Polling over whole histories ----------------------------------------------------

  lemma {:induction false} LatestExists(t: Table) returns (latest: int)
    requires t != map[]
    ensures exists id :: id in t && t[id].stamp == latest
    ensures forall id :: id in t ==> t[id].stamp <= latest
    decreases |t|
  {
    var id :| id in t;
    var rest := t - {id};
    if rest == map[] {
      latest := t[id].stamp;
      assert forall other :: other in t && other != id ==> other in rest;
    } else {
      assert t.Keys == rest.Keys + {id};
      var m := LatestExists(rest);
      latest := if m > t[id].stamp then m else t[id].stamp;
      var w :| w in rest && rest[w].stamp == m;
      assert w in t && t[w].stamp == m;
      forall other | other in t
        ensures t[other].stamp <= latest
      {
        assert other == id || other in rest;
      }
    }
  }

  ghost function VersionOf(t: Table): (v: Version)
    ensures IsVersion(v, t)
  {
    if t == map[] then Version(0, None)
    else
      assert exists latest :: IsVersion(Version(|t|, Some(latest)), t) by {
        var latest := LatestExists(t);
        assert IsVersion(Version(|t|, Some(latest)), t);
      }
      var latest :| IsVersion(Version(|t|, Some(latest)), t);
      Version(|t|, Some(latest))
  }

  lemma VersionUnique(v: Version, u: Version, t: Table)
    requires IsVersion(v, t) && IsVersion(u, t)
    ensures v == u
  {
    if v.latest.Some? && u.latest.Some? {
      var a :| a in t && t[a].stamp == v.latest.value;
      var b :| b in t && t[b].stamp == u.latest.value;
      assert t[a].stamp <= u.latest.value && t[b].stamp <= v.latest.value;
    }
  }

  /**
   * One poll of a history, or a `forced` reload, which reads no version first: what
   * throws, the writes before the rows are read and those before the version is read
   * again. A call that joins a reload in flight does nothing of its own.
   */
  datatype Poll = Poll(forced: bool, versionFails: bool, early: seq<Change>, rowsFail: bool, between: seq<Change>,
                       laterFails: bool)

  /** Writes and polls in any order. */
  datatype Event = Write(change: Change) | PollTick(poll: Poll)

  ghost predicate PollStep(b: Blueprints, r: Reg, t: Table, p: Poll, after: Reg)
    requires NamesUnique(t)
  {
    var u := AppliedAll(t, p.early);
    var later := if p.laterFails then None else Some(VersionOf(AppliedAll(u, p.between)));
    && NamesUnique(u)
    && if p.forced then ReloadEffect(b, r, u, later, p.rowsFail, after)
       else PollEffect(b, r, if p.versionFails then None else Some(VersionOf(t)), u, later, p.rowsFail, after)
  }

  ghost predicate EventStep(b: Blueprints, r: Reg, t: Table, e: Event, after: Reg)
    requires NamesUnique(t)
  {
    match e
    case Write(_) => after == r
    case PollTick(p) => PollStep(b, r, t, p, after)
  }

  function ChangesOf(e: Event): seq<Change> {
    match e
    case Write(c) => [c]
    case PollTick(p) => p.early + p.between
  }

  function ClockAfter(changes: seq<Change>, since: int): int
    decreases |changes|
  {
    if changes == [] then since else ClockAfter(changes[1..], Clock(changes[0], since))
  }

  /** Strictly later stamps throughout, and names that stay unique, as the table demands. */
  ghost predicate LegalChanges(t: Table, changes: seq<Change>, since: int)
    decreases |changes|
  {
    changes != [] ==>
      && Legal(t, changes[0], since) && NamesUnique(Applied(t, changes[0]))
      && LegalChanges(Applied(t, changes[0]), changes[1..], Clock(changes[0], since))
  }

  // ----- What the registry remembers ------------------------------------------------------

  /** The table the map was built from, and the table whose version is remembered. */
  datatype Memory = Memory(built: Option<Table>, seen: Option<Table>)

  function PollMemory(m: Memory, t: Table, p: Poll): Memory {
    var u := AppliedAll(t, p.early);
    if p.rowsFail || (!p.forced && (p.versionFails || m.seen == Some(t))) then m
    else Memory(Some(u), if p.laterFails then m.seen else Some(AppliedAll(u, p.between)))
  }

  function MemoryAfter(m: Memory, t: Table, e: Event): Memory {
    match e
    case Write(_) => m
    case PollTick(p) => PollMemory(m, t, p)
  }

  ghost predicate Tracks(b: Blueprints, r: Reg, m: Memory) {
    && (m.built.Some? ==> NamesUnique(m.built.value) && Reflects(r.connectors, b, m.built.value))
    && r.last == (if m.seen.None? then None else Some(VersionOf(m.seen.value)))
    && (m.seen.Some? ==> m.built.Some?)
  }

  /** `t` is what became of `seen` under strictly later writes. */
  ghost predicate LinkedBy(seen: Table, t: Table, log: seq<Change>, from: int, since: int) {
    && (forall id :: id in seen ==> seen[id].stamp <= from)
    && Ticking(seen, log, from) && AppliedAll(seen, log) == t && ClockAfter(log, from) <= since
  }

  ghost predicate Linked(seen: Table, t: Table, since: int) {
    exists log, from :: LinkedBy(seen, t, log, from, since)
  }

  ghost predicate Good(b: Blueprints, r: Reg, m: Memory, t: Table, since: int) {
    && Tracks(b, r, m) && NamesUnique(t)
    && (forall id :: id in t ==> t[id].stamp <= since)
    && (m.seen.Some? ==> Linked(m.seen.value, t, since))
  }

  /** The detector as an equality of tables. */
  lemma VersionsTell(seen: Table, t: Table, since: int)
    requires Linked(seen, t, since)
    ensures VersionOf(seen) == VersionOf(t) <==> seen == t
  {
    if VersionOf(seen) == VersionOf(t) {
      var log, from :| LinkedBy(seen, t, log, from, since);
      EqualVersionMeansEqualRows(seen, log, from, VersionOf(t));
    }
  }

  lemma {:induction false} LogAppend(t: Table, log: seq<Change>, c: Change, from: int, since: int)
    requires Ticking(t, log, from) && ClockAfter(log, from) <= since && Legal(AppliedAll(t, log), c, since)
    ensures Ticking(t, log + [c], from)
    ensures AppliedAll(t, log + [c]) == Applied(AppliedAll(t, log), c)
    ensures ClockAfter(log + [c], from) <= Clock(c, since)
    decreases |log|
  {
    if log == [] {
      assert log + [c] == [c] && [c][1..] == [];
    } else {
      assert (log + [c])[0] == log[0] && (log + [c])[1..] == log[1..] + [c];
      LogAppend(Applied(t, log[0]), log[1..], c, Clock(log[0], from), since);
    }
  }

  lemma LinkedSelf(t: Table, since: int)
    requires forall id :: id in t ==> t[id].stamp <= since
    ensures Linked(t, t, since)
  {
    assert LinkedBy(t, t, [], since, since);
  }

  lemma {:induction false} LinkedOn(seen: Table, t: Table, changes: seq<Change>, since: int)
    requires Linked(seen, t, since) && LegalChanges(t, changes, since)
    ensures Linked(seen, AppliedAll(t, changes), ClockAfter(changes, since))
    decreases |changes|
  {
    if changes == [] {
    } else {
      var log, from :| LinkedBy(seen, t, log, from, since);
      LogAppend(seen, log, changes[0], from, since);
      assert LinkedBy(seen, Applied(t, changes[0]), log + [changes[0]], from, Clock(changes[0], since));
      LinkedOn(seen, Applied(t, changes[0]), changes[1..], Clock(changes[0], since));
    }
  }

  lemma {:induction false} AppliedConcat(t: Table, xs: seq<Change>, ys: seq<Change>)
    ensures AppliedAll(t, xs + ys) == AppliedAll(AppliedAll(t, xs), ys)
    decreases |xs|
  {
    if xs == [] {
      assert xs + ys == ys;
    } else {
      assert (xs + ys)[0] == xs[0] && (xs + ys)[1..] == xs[1..] + ys;
      AppliedConcat(Applied(t, xs[0]), xs[1..], ys);
    }
  }

  lemma {:induction false} ChangesKeepTable(t: Table, changes: seq<Change>, since: int)
    requires NamesUnique(t) && LegalChanges(t, changes, since) && forall id :: id in t ==> t[id].stamp <= since
    ensures var u := AppliedAll(t, changes);
            NamesUnique(u) && forall id :: id in u ==> u[id].stamp <= ClockAfter(changes, since)
    decreases |changes|
  {
    if changes == [] {
    } else {
      ChangesKeepTable(Applied(t, changes[0]), changes[1..], Clock(changes[0], since));
    }
  }

  lemma PollKeepsTracks(b: Blueprints, r: Reg, m: Memory, t: Table, since: int, p: Poll, after: Reg)
    requires Good(b, r, m, t, since) && PollStep(b, r, t, p, after)
    ensures Tracks(b, after, PollMemory(m, t, p))
  {
    if m.seen.Some? {
      VersionsTell(m.seen.value, t, since);
    }
  }

  /** Every event keeps the registry in step with what it remembers. */
  lemma EventKeepsGood(b: Blueprints, r: Reg, m: Memory, t: Table, since: int, e: Event, after: Reg)
    requires Good(b, r, m, t, since) && LegalChanges(t, ChangesOf(e), since) && EventStep(b, r, t, e, after)
    ensures Good(b, after, MemoryAfter(m, t, e), AppliedAll(t, ChangesOf(e)), ClockAfter(ChangesOf(e), since))
  {
    var changes := ChangesOf(e);
    var u, now := AppliedAll(t, changes), ClockAfter(changes, since);
    ChangesKeepTable(t, changes, since);
    if m.seen.Some? {
      LinkedOn(m.seen.value, t, changes, since);
    }
    LinkedSelf(u, now);
    if e.PollTick? {
      AppliedConcat(t, e.poll.early, e.poll.between);
      PollKeepsTracks(b, r, m, t, since, e.poll, after);
    }
  }

  // ----- Whole histories -----------------------------------------------------------------------

  /** Two tables resolve every name alike. */
  ghost predicate Agree(b: Blueprints, t: Table, u: Table)
    requires NamesUnique(t) && NamesUnique(u)
  {
    forall name :: Resolve(b, t, name) == Resolve(b, u, name)
  }

  /** The poll reads the version and, if need be, the rows. */
  predicate Reads(p: Poll) {
    !p.versionFails && !p.rowsFail
  }

  /**
   * Exactly when a poll that can read leaves the map as of the reading of the rows: it
   * is forced, its table differs from the one remembered, or the map resolves alike.
   */
  lemma PollIsCurrentIff(b: Blueprints, r: Reg, m: Memory, t: Table, since: int, p: Poll, after: Reg)
    requires Good(b, r, m, t, since) && Reads(p) && PollStep(b, r, t, p, after)
    ensures var u := AppliedAll(t, p.early);
            Reflects(after.connectors, b, u) <==> p.forced || m.seen != Some(t) || Agree(b, m.built.value, u)
  {
    PollKeepsTracks(b, r, m, t, since, p, after);
  }

  /** No write falls between the two reads of a reload, and the second read works. */
  predicate Undisturbed(e: Event) {
    e.PollTick? ==> e.poll.between == [] && !e.poll.laterFails
  }

  /** `regs` are the registries of a history: one at the start and one after each event. */
  ghost predicate History(b: Blueprints, regs: seq<Reg>, t: Table, events: seq<Event>, since: int)
    requires NamesUnique(t)
    decreases |events|
  {
    && |regs| == |events| + 1
    && (events != [] ==>
          && LegalChanges(t, ChangesOf(events[0]), since)
          && EventStep(b, regs[0], t, events[0], regs[1])
          && NamesUnique(AppliedAll(t, ChangesOf(events[0])))
          && History(b, regs[1..], AppliedAll(t, ChangesOf(events[0])), events[1..],
                     ClockAfter(ChangesOf(events[0]), since)))
  }

  function TableAfter(t: Table, events: seq<Event>): Table
    decreases |events|
  {
    if events == [] then t else TableAfter(AppliedAll(t, ChangesOf(events[0])), events[1..])
  }

  /** What is remembered is what the map was built from, as long as no reload is disturbed. */
  lemma UndisturbedMemory(m: Memory, t: Table, e: Event)
    requires m.built == m.seen && Undisturbed(e)
    ensures MemoryAfter(m, t, e).built == MemoryAfter(m, t, e).seen
  {
  }

  lemma LastPollIsCurrent(b: Blueprints, r: Reg, m: Memory, t: Table, since: int, p: Poll, after: Reg)
    requires Good(b, r, m, t, since) && m.built == m.seen && Reads(p) && PollStep(b, r, t, p, after)
    ensures Reflects(after.connectors, b, t) || Reflects(after.connectors, b, AppliedAll(t, p.early))
    ensures p.early == [] ==> Reflects(after.connectors, b, t)
  {
    PollKeepsTracks(b, r, m, t, since, p, after);
  }

  /**
   * After any history of writes, polls and forced reloads, failing ones included, in
   * which no reload was disturbed, a poll that can read leaves the map equal to the
   * allowed statics overlaid by the enabled rows of known type of the table as it was at
   * some moment of that poll; without a write during the poll, of the current table.
   */
  lemma {:induction false} EveryPollIsCurrent(b: Blueprints, regs: seq<Reg>, m: Memory, t: Table, since: int,
                                              events: seq<Event>, p: Poll, after: Reg)
    requires |regs| == |events| + 1 && Good(b, regs[0], m, t, since) && m.built == m.seen
    requires History(b, regs, t, events, since) && forall e :: e in events ==> Undisturbed(e)
    requires Reads(p) && NamesUnique(TableAfter(t, events))
    requires PollStep(b, regs[|events|], TableAfter(t, events), p, after)
    ensures var u := TableAfter(t, events);
            Reflects(after.connectors, b, u) || Reflects(after.connectors, b, AppliedAll(u, p.early))
    ensures p.early == [] ==> Reflects(after.connectors, b, TableAfter(t, events))
    decreases |events|
  {
    hide Tracks, PollStep, EventStep, PollMemory, Reflects;
    if events == [] {
      LastPollIsCurrent(b, regs[0], m, t, since, p, after);
    } else {
      var e := events[0];
      assert e in events;
      EventKeepsGood(b, regs[0], m, t, since, e, regs[1]);
      UndisturbedMemory(m, t, e);
      assert regs[1..][|events| - 1] == regs[|events|];
      EveryPollIsCurrent(b, regs[1..], MemoryAfter(m, t, e), AppliedAll(t, ChangesOf(e)),
                         ClockAfter(ChangesOf(e), since), events[1..], p, after);
    }
  }

  /** A registry that has loaded nothing yet fits every table. */
  lemma EmptyIsGood(b: Blueprints, t: Table, since: int)
    requires NamesUnique(t) && forall id :: id in t ==> t[id].stamp <= since
    ensures Good(b, Reg(map[], None), Memory(None, None), t, since)
  {
  }

  // ----- Disturbed reloads ----------------------------------------------------------------------

  /** Whether a single write changes what any name resolves to. */
  predicate Harmless(b: Blueprints, t: Table, c: Change)
    requires c.Create? || c.id in t
  {
    match c
    case Create(_, row) => !Usable(b, row)
    case Delete(id) => !Usable(b, t[id])
    case Update(id, row) =>
      var was := t[id];
      || (!Usable(b, was) && !Usable(b, row))
      || (Usable(b, was) && Usable(b, row) && was.name == row.name && was.kind == row.kind && was.config == row.config)
  }

  lemma ResolvesToNoProxy(b: Blueprints, t: Table, name: string)
    requires NamesUnique(t) && forall id :: id in t && t[id].name == name ==> !Usable(b, t[id])
    ensures Resolve(b, t, name) == if name in b.kinds && name in b.allowlist then Some(Static(name)) else None
  {
  }

  /** Rows other than the written one resolve as before. */
  lemma OtherNamesAgree(b: Blueprints, t: Table, u: Table, id: string, name: string)
    requires NamesUnique(t) && NamesUnique(u)
    requires forall other :: other != id ==> (other in t <==> other in u) && (other in t ==> t[other] == u[other])
    requires id in t && t[id].name == name ==> !Usable(b, t[id])
    requires id in u && u[id].name == name ==> !Usable(b, u[id])
    ensures Resolve(b, t, name) == Resolve(b, u, name)
  {
    if other :| other in t && t[other].name == name && Usable(b, t[other]) {
      ResolvesTo(b, t, other);
      ResolvesTo(b, u, other);
    } else {
      ResolvesToNoProxy(b, t, name);
      ResolvesToNoProxy(b, u, name);
    }
  }

  /** A usable row shows: taking it away or changing it changes what its name resolves to. */
  lemma UsableRowShows(b: Blueprints, t: Table, u: Table, id: string)
    requires NamesUnique(t) && NamesUnique(u) && id in t && Usable(b, t[id])
    requires forall other :: other != id && other in u ==> other in t && t[other] == u[other]
    requires id in u && Usable(b, u[id]) ==>
               !(u[id].name == t[id].name && u[id].kind == t[id].kind && u[id].config == t[id].config)
    ensures !Agree(b, t, u)
  {
    var name := t[id].name;
    ResolvesTo(b, t, id);
    if id in u && Usable(b, u[id]) && u[id].name == name {
      ResolvesTo(b, u, id);
    } else {
      forall other | other in u && u[other].name == name
        ensures !Usable(b, u[other])
      {
        assert other == id;
      }
      ResolvesToNoProxy(b, u, name);
    }
    assert Resolve(b, t, name) != Resolve(b, u, name);
  }

  lemma AgreeSymmetric(b: Blueprints, t: Table, u: Table)
    requires NamesUnique(t) && NamesUnique(u)
    ensures Agree(b, t, u) <==> Agree(b, u, t)
  {
  }

  lemma HarmlessWriteAgrees(b: Blueprints, t: Table, c: Change)
    requires NamesUnique(t) && NamesUnique(Applied(t, c)) && (if c.Create? then c.id !in t else c.id in t)
    requires Harmless(b, t, c)
    ensures Agree(b, t, Applied(t, c))
  {
    var u := Applied(t, c);
    forall name
      ensures Resolve(b, t, name) == Resolve(b, u, name)
    {
      if c.id in t && c.id in u && Usable(b, t[c.id]) && t[c.id].name == name {
        ResolvesTo(b, t, c.id);
        ResolvesTo(b, u, c.id);
      } else {
        OtherNamesAgree(b, t, u, c.id, name);
      }
    }
  }

  /** Exactly which single writes leave every name as it was. */
  lemma WriteIsHarmlessIff(b: Blueprints, t: Table, c: Change)
    requires NamesUnique(t) && NamesUnique(Applied(t, c)) && (if c.Create? then c.id !in t else c.id in t)
    ensures Agree(b, t, Applied(t, c)) <==> Harmless(b, t, c)
  {
    var u := Applied(t, c);
    if Harmless(b, t, c) {
      HarmlessWriteAgrees(b, t, c);
    } else if c.id in t && Usable(b, t[c.id]) {
      UsableRowShows(b, t, u, c.id);
    } else {
      UsableRowShows(b, u, t, c.id);
      AgreeSymmetric(b, t, u);
    }
  }

  /** Polls with no write between or during them, and no forced reload. */
  predicate Idle(events: seq<Event>) {
    forall e :: e in events ==> e.PollTick? && !e.poll.forced && e.poll.early == [] && e.poll.between == []
  }

  lemma {:induction false} NothingNewStays(b: Blueprints, regs: seq<Reg>, m: Memory, t: Table, since: int,
                                           events: seq<Event>)
    requires |regs| == |events| + 1 && Good(b, regs[0], m, t, since) && m.seen == Some(t)
    requires History(b, regs, t, events, since) && Idle(events)
    ensures regs[|events|] == regs[0] && TableAfter(t, events) == t
    decreases |events|
  {
    if events == [] {
    } else {
      assert events[0] in events;
      EventKeepsGood(b, regs[0], m, t, since, events[0], regs[1]);
      assert regs[1..][|events| - 1] == regs[|events|];
      NothingNewStays(b, regs[1..], m, t, since, events[1..]);
    }
  }

  /**
   * A write between the two reads of a reload: the map shows the table before it, and
   * stays so through any number of polls until the next write or forced reload. It is
   * right if and only if the missed write was harmless.
   */
  lemma {:induction false} MissedWriteStaysMissed(b: Blueprints, r: Reg, m: Memory, t: Table, since: int, c: Change,
                                                forced: bool, after: Reg, regs: seq<Reg>, events: seq<Event>)
    requires Good(b, r, m, t, since) && (forced || m.seen != Some(t))
    requires LegalChanges(t, [c], since) && PollStep(b, r, t, Poll(forced, false, [], false, [c], false), after)
    requires |regs| == |events| + 1 && regs[0] == after
    requires NamesUnique(Applied(t, c)) && History(b, regs, Applied(t, c), events, Clock(c, since)) && Idle(events)
    ensures regs[|events|] == after
    ensures Reflects(regs[|events|].connectors, b, Applied(t, c)) <==> Harmless(b, t, c)
  {
    var p := Poll(forced, false, [], false, [c], false);
    assert [] + [c] == [c];
    EventKeepsGood(b, r, m, t, since, PollTick(p), after);
    assert [c][1..] == [] && AppliedAll(t, [c]) == Applied(t, c) && ClockAfter([c], since) == Clock(c, since);
    var n := PollMemory(m, t, p);
    assert n == Memory(Some(t), Some(Applied(t, c)));
    NothingNewStays(b, regs, n, Applied(t, c), Clock(c, since), events);
    WriteIsHarmlessIff(b, t, c);
  }

  /** A forced reload, or the next poll once the table differs from the one remembered, makes the map current. */
  lemma NextDifferenceRepairs(b: Blueprints, r: Reg, m: Memory, t: Table, since: int, p: Poll, after: Reg)
    requires Good(b, r, m, t, since) && (p.forced || m.seen != Some(t)) && Reads(p) && PollStep(b, r, t, p, after)
    ensures Reflects(after.connectors, b, AppliedAll(t, p.early))
  {
    PollIsCurrentIff(b, r, m, t, since, p, after);
  }

  /**
   * When only the second read of a reload fails, the map is ahead of the version
   * remembered. A later poll is fooled exactly when the table has returned to the one
   * remembered and resolves some name differently, unless the poll is forced.
   */
  lemma FailedSecondReadFoolsIff(b: Blueprints, r: Reg, m: Memory, t: Table, since: int, middle: Reg,
                                 changes: seq<Change>, p: Poll, after: Reg)
    requires Good(b, r, m, t, since) && m.seen != Some(t)
    requires PollStep(b, r, t, Poll(false, false, [], false, [], true), middle)
    requires LegalChanges(t, changes, since) && NamesUnique(AppliedAll(t, changes))
    requires Reads(p) && p.early == [] && PollStep(b, middle, AppliedAll(t, changes), p, after)
    ensures var u := AppliedAll(t, changes);
            !Reflects(after.connectors, b, u) <==> !p.forced && m.seen == Some(u) && !Agree(b, t, u)
  {
    var first := Poll(false, false, [], false, [], true);
    PollKeepsTracks(b, r, m, t, since, first, middle);
    var n := PollMemory(m, t, first);
    assert n == Memory(Some(t), m.seen) && AppliedAll(t, []) == t;
    assert Tracks(b, middle, n);
    ChangesKeepTable(t, changes, since);
    if m.seen.Some? {
      LinkedOn(m.seen.value, t, changes, since);
    }
    PollIsCurrentIff(b, middle, n, AppliedAll(t, changes), ClockAfter(changes, since), p, after);
  }

  // ----- A version read in two queries ----------------------------------------------------------

  /** The count is read from one table and the latest stamp from another, before or after it. */
  ghost predicate IsTornVersion(v: Version, counted: Table, stamped: Table) {
    && v.count == |counted|
    && exists n: nat :: IsVersion(Version(n, v.latest), stamped)
  }

  /** What is left are rows of `seen`, the latest among them. */
  ghost predicate LatestKept(seen: Table, t: Table) {
    && (t == map[] <==> seen == map[])
    && (forall id :: id in t ==> id in seen && seen[id] == t[id])
    && (seen != map[] ==> exists id :: id in t && t[id].stamp == VersionOf(seen).latest.value)
  }

  /**
   * Exactly when a version read in two queries equals the one remembered: as many rows
   * were counted, and nothing but remembered rows, the latest among them, were stamped.
   */
  lemma TornVersionUnseenIff(seen: Table, counted: Table, stamped: Table, since: int, v: Version)
    requires Linked(seen, stamped, since) && IsTornVersion(v, counted, stamped)
    ensures v == VersionOf(seen) <==> |counted| == |seen| && LatestKept(seen, stamped)
  {
    var n: nat :| IsVersion(Version(n, v.latest), stamped);
    if v == VersionOf(seen) && seen != map[] {
      var log, from :| LinkedBy(seen, stamped, log, from, since);
      var w :| w in seen && seen[w].stamp == v.latest.value;
      ChangesKeepOldRows(seen, seen, log, v.latest.value, from);
    }
    if |counted| == |seen| && LatestKept(seen, stamped) && seen != map[] {
      var w :| w in stamped && stamped[w].stamp == VersionOf(seen).latest.value;
      var x :| x in stamped && stamped[x].stamp == v.latest.value;
      assert x in seen && stamped[w].stamp <= v.latest.value;
    }
  }

  /** Two rows remembered; one is deleted before the stamps are read, another created before the count. */
  lemma TornVersionExample(a: Row, b: Row, c: Row)
    requires a.stamp < b.stamp < c.stamp
    ensures var seen, stamped := map["a" := a, "b" := b], map["b" := b];
            var counted := stamped["c" := c];
            Linked(seen, counted, c.stamp) && counted != seen && IsTornVersion(VersionOf(seen), counted, stamped)
  {
    var seen: Table, stamped: Table := map["a" := a, "b" := b], map["b" := b];
    var counted := stamped["c" := c];
    var log := [Delete("a"), Create("c", c)];
    assert seen - {"a"} == stamped;
    assert log[1..] == [Create("c", c)] && log[1..][1..] == [];
    assert Applied(seen, log[0]) == stamped && Applied(stamped, log[1]) == counted;
    assert AppliedAll(stamped, log[1..]) == AppliedAll(counted, []) == counted;
    assert AppliedAll(seen, log) == counted;
    assert Clock(log[0], b.stamp) == b.stamp && Clock(log[1], b.stamp) == c.stamp;
    assert ClockAfter(log, b.stamp) == ClockAfter(log[1..], b.stamp) == ClockAfter([], c.stamp);
    assert Ticking(stamped, log[1..], b.stamp) && Ticking(seen, log, b.stamp);
    assert seen["a"] == a && seen["b"] == b;
    assert LinkedBy(seen, counted, log, b.stamp, c.stamp);
    assert stamped["b"] == b && |stamped| == 1 && |seen| == 2 && |counted| == 2;
    assert IsVersion(Version(1, Some(b.stamp)), stamped);
    assert seen["b"].stamp == b.stamp;
    VersionUnique(VersionOf(seen), Version(2, Some(b.stamp)), seen);
    assert "a" in seen && "a" !in counted;
  }
}
