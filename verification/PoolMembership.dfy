/** The dual write of `adminStopService`: the cached pool of a stop and its membership rows. */
module PoolMembership {
  import opened Wrappers

  type StopId = string
  type PoolId = string

  /** A field of an update: left out, or given. */
  datatype Patch<T> = Absent | Given(value: T)

  datatype StopRow = StopRow(pool: Option<PoolId>, org: int, hotspot: bool, compactor: bool, trash: bool,
                             notes: Option<string>)

  datatype Membership = Membership(active: bool, org: int)

  datatype Tables = Tables(stops: map<StopId, StopRow>, memberships: map<(StopId, PoolId), Membership>,
                           pools: set<PoolId>)

  datatype StopPatch = StopPatch(pool: Patch<Option<PoolId>>, notes: Patch<Option<string>>)

  datatype BulkPatch = BulkPatch(pool: Patch<Option<PoolId>>, hotspot: Patch<bool>, compactor: Patch<bool>,
                                 trash: Patch<bool>)

  /** The foreign keys of the membership table. */
  ghost predicate Lawful(t: Tables) {
    forall s, p :: (s, p) in t.memberships ==> s in t.stops && p in t.pools
  }

  function Members(ids: seq<StopId>): set<StopId> {
    set s | s in ids
  }

  // -- What an update means --------------------------------------------------------------------------

  /** The empty string escapes the check that the pool exists; the foreign key then rejects it as soon as
      there is a stop to add a membership for. */
  predicate Accepts(t: Tables, ids: set<StopId>, pool: Option<PoolId>) {
    pool.None? || pool.value in t.pools || (pool.value == "" && ids !! t.stops.Keys)
  }

  function NewKeys(t: Tables, ids: set<StopId>, pool: Option<PoolId>): set<(StopId, PoolId)> {
    match pool
    case None => {}
    case Some(p) => set s | s in ids && s in t.stops :: (s, p)
  }

  function MembershipAfter(t: Tables, ids: set<StopId>, pool: Option<PoolId>, key: (StopId, PoolId)): Membership
    requires key in t.memberships || key in NewKeys(t, ids, pool)
  {
    if key !in t.memberships then Membership(true, t.stops[key.0].org)
    else if key.0 in ids then t.memberships[key].(active := pool == Some(key.1))
    else t.memberships[key]
  }

  /** All given stops are in `pool`, and of their memberships only the one in `pool` is active. */
  function SetPool(t: Tables, ids: set<StopId>, pool: Option<PoolId>): Tables {
    t.(stops := map s | s in t.stops :: if s in ids then t.stops[s].(pool := pool) else t.stops[s],
       memberships := map k | k in t.memberships.Keys + NewKeys(t, ids, pool) :: MembershipAfter(t, ids, pool, k))
  }

  /** The tables after a single update; `None` when it throws and is rolled back. */
  function Updated(t: Tables, id: StopId, patch: StopPatch): Option<Tables> {
    if patch.pool.Given? && !Accepts(t, {id}, patch.pool.value) then None
    else
      var moved := if patch.pool.Given? then SetPool(t, {id}, patch.pool.value) else t;
      Some(if patch.notes.Given? && id in moved.stops
           then moved.(stops := moved.stops[id := moved.stops[id].(notes := patch.notes.value)]) else moved)
  }

  datatype Flag = Hotspot | Compactor | Trash

  function WithFlag(row: StopRow, flag: Flag, value: bool): StopRow {
    match flag
    case Hotspot => row.(hotspot := value)
    case Compactor => row.(compactor := value)
    case Trash => row.(trash := value)
  }

  /** One flag column of the given stops; unchanged when the flag is left out. */
  function FlagColumn(t: Tables, ids: seq<StopId>, flag: Flag, value: Patch<bool>): Tables {
    match value
    case Absent => t
    case Given(v) => t.(stops := map s | s in t.stops :: if s in ids then WithFlag(t.stops[s], flag, v) else t.stops[s])
  }

  function FlagStops(t: Tables, ids: seq<StopId>, patch: BulkPatch): Tables {
    FlagColumn(FlagColumn(FlagColumn(t, ids, Hotspot, patch.hotspot), ids, Compactor, patch.compactor),
               ids, Trash, patch.trash)
  }

  /** The tables after a bulk update; nothing is checked or done for no stops at all. */
  function BulkUpdated(t: Tables, ids: seq<StopId>, patch: BulkPatch): Option<Tables> {
    if ids == [] then Some(t)
    else if patch.pool.Given? && !Accepts(t, Members(ids), patch.pool.value) then None
    else
      var moved := if patch.pool.Given? then SetPool(t, Members(ids), patch.pool.value) else t;
      Some(FlagStops(moved, ids, patch))
  }

  // -- The service -----------------------------------------------------------------------------------

  class StopStore {
    var tables: Tables

    constructor (tables: Tables)
      ensures this.tables == tables
    {
      this.tables := tables;
    }

    /** `SELECT 1 FROM route_pools WHERE id = $1`, skipped for null and for the empty string. */
    method PoolIsMissing(pool: Patch<Option<PoolId>>) returns (missing: bool)
      ensures missing <==>
        pool.Given? && pool.value.Some? && pool.value.value != "" && pool.value.value !in tables.pools
    {
      missing := pool.Given? && pool.value.Some? && pool.value.value != "" && pool.value.value !in tables.pools;
    }

    method UpdatePoolColumn(ids: set<StopId>, pool: Option<PoolId>)
      modifies this
      ensures tables == old(tables).(stops := SetPool(old(tables), ids, pool).stops)
    {
      tables := tables.(stops :=
        map s | s in tables.stops :: if s in ids then tables.stops[s].(pool := pool) else tables.stops[s]);
    }

    /** `INSERT … SELECT … ON CONFLICT DO UPDATE SET active = true`; false when the foreign key fails. */
    method InsertMemberships(ids: set<StopId>, pool: PoolId) returns (ok: bool)
      modifies this
      ensures ok <==> pool in old(tables).pools || ids !! old(tables).stops.Keys
      ensures tables == if !ok then old(tables) else
        old(tables).(memberships := map k | k in old(tables).memberships.Keys + NewKeys(old(tables), ids, Some(pool)) ::
          if k in NewKeys(old(tables), ids, Some(pool)) then
            Membership(true, if k in old(tables).memberships then old(tables).memberships[k].org
                             else old(tables).stops[k.0].org)
          else old(tables).memberships[k])
    {
      if pool !in tables.pools && !(ids !! tables.stops.Keys) {
        return false;
      }
      var keys := NewKeys(tables, ids, Some(pool));
      tables := tables.(memberships := map k | k in tables.memberships.Keys + keys ::
        if k in keys then
          Membership(true, if k in tables.memberships then tables.memberships[k].org else tables.stops[k.0].org)
        else tables.memberships[k]);
      return true;
    }

    /** `SET active = false` on all memberships of the stops except those in `keep`. */
    method Deactivate(ids: set<StopId>, keep: Option<PoolId>)
      modifies this
      ensures tables == old(tables).(memberships := map k | k in old(tables).memberships ::
        if k.0 in ids && keep != Some(k.1) then old(tables).memberships[k].(active := false)
        else old(tables).memberships[k])
    {
      tables := tables.(memberships := map k | k in tables.memberships ::
        if k.0 in ids && keep != Some(k.1) then tables.memberships[k].(active := false) else tables.memberships[k]);
    }

    /** The dual write shared by both updates. */
    method WritePool(ids: set<StopId>, pool: Option<PoolId>) returns (ok: bool)
      requires Lawful(tables)
      modifies this
      ensures ok <==> pool.None? || pool.value in old(tables).pools || ids !! old(tables).stops.Keys
      ensures ok ==> tables == SetPool(old(tables), ids, pool)
    {
      ghost var before := tables;
      UpdatePoolColumn(ids, pool);
      assert tables.stops.Keys == before.stops.Keys;
      match pool
      case None =>
        Deactivate(ids, None);
        assert tables.memberships == SetPool(before, ids, pool).memberships;
        return true;
      case Some(p) =>
        var inserted := InsertMemberships(ids, p);
        if !inserted {
          return false;
        }
        Deactivate(ids, pool);
        assert tables.memberships == SetPool(before, ids, pool).memberships;
        return true;
    }

    method UpdateStop(id: StopId, patch: StopPatch) returns (ok: bool, row: Option<StopRow>)
      requires Lawful(tables)
      modifies this
      ensures ok <==> Updated(old(tables), id, patch).Some?
      ensures tables == if ok then Updated(old(tables), id, patch).value else old(tables)
      ensures row == if ok && id in tables.stops && (patch.pool.Given? || patch.notes.Given?)
                     then Some(tables.stops[id]) else None
    {
      var before := tables;
      var missing := PoolIsMissing(patch.pool);
      if missing {
        return false, None;
      }
      if patch.pool.Given? {
        ok := WritePool({id}, patch.pool.value);
        if !ok {
          tables := before;
          return false, None;
        }
      }
      if patch.notes.Given? && id in tables.stops {
        tables := tables.(stops := tables.stops[id := tables.stops[id].(notes := patch.notes.value)]);
      }
      ok := true;
      row := if id in tables.stops && (patch.pool.Given? || patch.notes.Given?) then Some(tables.stops[id]) else None;
    }

    /** `UPDATE … SET flag = $1`, when the flag is given; returns the number of rows. */
    method UpdateFlag(ids: seq<StopId>, flag: Flag, value: Patch<bool>) returns (rows: nat)
      modifies this
      ensures tables == FlagColumn(old(tables), ids, flag, value)
      ensures rows == if value.Given? then |Members(ids) * old(tables).stops.Keys| else 0
    {
      rows := 0;
      if value.Given? {
        rows := |Members(ids) * tables.stops.Keys|;
        tables := tables.(stops := map s | s in tables.stops ::
          if s in ids then WithFlag(tables.stops[s], flag, value.value) else tables.stops[s]);
      }
    }

    method BulkUpdateStops(ids: seq<StopId>, patch: BulkPatch) returns (ok: bool, count: nat)
      requires Lawful(tables)
      modifies this
      ensures ok <==> BulkUpdated(old(tables), ids, patch).Some?
      ensures tables == if ok then BulkUpdated(old(tables), ids, patch).value else old(tables)
      ensures count == if ok && patch != BulkPatch(Absent, Absent, Absent, Absent)
                       then |Members(ids) * old(tables).stops.Keys| else 0
    {
      var before := tables;
      if ids == [] {
        return true, 0;
      }
      var missing := PoolIsMissing(patch.pool);
      if missing {
        return false, 0;
      }
      count := 0;
      if patch.pool.Given? {
        ok := WritePool(Members(ids), patch.pool.value);
        if !ok {
          tables := before;
          return false, 0;
        }
        count := |Members(ids) * before.stops.Keys|;
      }
      assert tables.stops.Keys == before.stops.Keys;
      var hotspots := UpdateFlag(ids, Hotspot, patch.hotspot);
      assert tables.stops.Keys == before.stops.Keys;
      var compactors := UpdateFlag(ids, Compactor, patch.compactor);
      assert tables.stops.Keys == before.stops.Keys;
      var trash := UpdateFlag(ids, Trash, patch.trash);
      count := Max(Max(count, hotspots), Max(compactors, trash));
      ok := true;
    }
  }

  function Max(a: nat, b: nat): nat {
    if a >= b then a else b
  }

  // -- The synchronisation ---------------------------------------------------------------------------

  /** The cached pool of a stop is its one active membership, and it has none when the pool is null. */
  ghost predicate Synced(t: Tables, s: StopId) {
    s in t.stops ==>
      forall p :: (s, p) in t.memberships && t.memberships[(s, p)].active <==> t.stops[s].pool == Some(p)
  }

  datatype Request = Update(id: StopId, patch: StopPatch) | Bulk(ids: seq<StopId>, bulk: BulkPatch)

  function Result(t: Tables, r: Request): Option<Tables> {
    match r
    case Update(id, patch) => Updated(t, id, patch)
    case Bulk(ids, patch) => BulkUpdated(t, ids, patch)
  }

  /** The stops whose pool the request sets when it runs to completion. */
  function Touched(t: Tables, r: Request): set<StopId> {
    if Result(t, r).None? then {}
    else
      match r
      case Update(id, patch) => if patch.pool.Given? then {id} else {}
      case Bulk(ids, patch) => if patch.pool.Given? then Members(ids) else {}
  }

  function Serve(t: Tables, r: Request): Tables {
    Result(t, r).GetOr(t)
  }

  function ServeAll(t: Tables, requests: seq<Request>): Tables
    decreases |requests|
  {
    if requests == [] then t else ServeAll(Serve(t, requests[0]), requests[1..])
  }

  /** Every stop that some completed request has given a pool, or null. */
  function EverTouched(t: Tables, requests: seq<Request>): set<StopId>
    decreases |requests|
  {
    if requests == [] then {} else Touched(t, requests[0]) + EverTouched(Serve(t, requests[0]), requests[1..])
  }

  lemma SetPoolSyncs(t: Tables, ids: set<StopId>, pool: Option<PoolId>, s: StopId)
    requires Lawful(t) && (s in ids || Synced(t, s))
    ensures Synced(SetPool(t, ids, pool), s)
  {
    var after := SetPool(t, ids, pool);
    if s in t.stops {
      forall p ensures (s, p) in after.memberships && after.memberships[(s, p)].active <==> after.stops[s].pool == Some(p) {
        if s in ids {
          assert (s, p) in NewKeys(t, ids, pool) <==> pool == Some(p);
        } else {
          assert (s, p) !in NewKeys(t, ids, pool);
          assert (s, p) in t.memberships && t.memberships[(s, p)].active <==> t.stops[s].pool == Some(p);
        }
      }
    }
  }

  lemma SetPoolKeepsLawful(t: Tables, ids: set<StopId>, pool: Option<PoolId>)
    requires Lawful(t) && Accepts(t, ids, pool)
    ensures Lawful(SetPool(t, ids, pool))
  {
    var after := SetPool(t, ids, pool);
    forall s, p | (s, p) in after.memberships ensures s in after.stops && p in after.pools {
      assert (s, p) in t.memberships || (s, p) in NewKeys(t, ids, pool);
    }
  }

  lemma FlagColumnKeeps(t: Tables, ids: seq<StopId>, flag: Flag, value: Patch<bool>)
    ensures Lawful(t) ==> Lawful(FlagColumn(t, ids, flag, value))
    ensures forall s :: Synced(t, s) ==> Synced(FlagColumn(t, ids, flag, value), s)
  {
    var after := FlagColumn(t, ids, flag, value);
    forall s | Synced(t, s) ensures Synced(after, s) {
      assert after.memberships == t.memberships && (s in t.stops ==> after.stops[s].pool == t.stops[s].pool);
    }
  }

  lemma FlagsKeep(t: Tables, ids: seq<StopId>, patch: BulkPatch)
    ensures Lawful(t) ==> Lawful(FlagStops(t, ids, patch))
    ensures forall s :: Synced(t, s) ==> Synced(FlagStops(t, ids, patch), s)
  {
    var a := FlagColumn(t, ids, Hotspot, patch.hotspot);
    FlagColumnKeeps(t, ids, Hotspot, patch.hotspot);
    FlagColumnKeeps(a, ids, Compactor, patch.compactor);
    FlagColumnKeeps(FlagColumn(a, ids, Compactor, patch.compactor), ids, Trash, patch.trash);
  }

  lemma UpdateSyncs(t: Tables, id: StopId, patch: StopPatch, s: StopId)
    requires Lawful(t) && (s in Touched(t, Update(id, patch)) || Synced(t, s))
    ensures Lawful(Serve(t, Update(id, patch))) && Synced(Serve(t, Update(id, patch)), s)
  {
    if Updated(t, id, patch).Some? && patch.pool.Given? {
      SetPoolSyncs(t, {id}, patch.pool.value, s);
      SetPoolKeepsLawful(t, {id}, patch.pool.value);
    }
  }

  lemma BulkSyncs(t: Tables, ids: seq<StopId>, patch: BulkPatch, s: StopId)
    requires Lawful(t) && (s in Touched(t, Bulk(ids, patch)) || Synced(t, s))
    ensures Lawful(Serve(t, Bulk(ids, patch))) && Synced(Serve(t, Bulk(ids, patch)), s)
  {
    if ids != [] && BulkUpdated(t, ids, patch).Some? {
      if patch.pool.Given? {
        SetPoolSyncs(t, Members(ids), patch.pool.value, s);
        SetPoolKeepsLawful(t, Members(ids), patch.pool.value);
        FlagsKeep(SetPool(t, Members(ids), patch.pool.value), ids, patch);
      } else {
        FlagsKeep(t, ids, patch);
      }
    }
  }

  /** After any requests, completed or rolled back, every stop that was ever given a pool is synchronised. */
  lemma {:induction false} TouchedStopsStaySynced(t: Tables, requests: seq<Request>, s: StopId)
    requires Lawful(t) && (s in EverTouched(t, requests) || Synced(t, s))
    ensures Synced(ServeAll(t, requests), s)
    decreases |requests|
  {
    if requests != [] {
      var r := requests[0];
      if s in Touched(t, r) || Synced(t, s) {
        match r {
          case Update(id, patch) => UpdateSyncs(t, id, patch, s);
          case Bulk(ids, patch) => BulkSyncs(t, ids, patch, s);
        }
      } else {
        ServeKeepsLawful(t, r);
      }
      TouchedStopsStaySynced(Serve(t, r), requests[1..], s);
    }
  }

  lemma ServeKeepsLawful(t: Tables, r: Request)
    requires Lawful(t)
    ensures Lawful(Serve(t, r))
  {
    match r
    case Update(id, patch) =>
      if Updated(t, id, patch).Some? && patch.pool.Given? {
        SetPoolKeepsLawful(t, {id}, patch.pool.value);
      }
    case Bulk(ids, patch) =>
      if ids != [] && BulkUpdated(t, ids, patch).Some? {
        if patch.pool.Given? {
          SetPoolKeepsLawful(t, Members(ids), patch.pool.value);
          FlagsKeep(SetPool(t, Members(ids), patch.pool.value), ids, patch);
        } else {
          FlagsKeep(t, ids, patch);
        }
      }
  }

  // -- Bulk updates as single updates ------------------------------------------------------------------

  function PoolOnly(pool: Option<PoolId>): StopPatch {
    StopPatch(Given(pool), Absent)
  }

  function BulkPoolOnly(pool: Option<PoolId>): BulkPatch {
    BulkPatch(Given(pool), Absent, Absent, Absent)
  }

  /** Single updates one after the other, each on its own; `ok` tells whether all of them completed. */
  function Fold(t: Tables, ids: seq<StopId>, pool: Option<PoolId>): (r: (Tables, bool))
    decreases |ids|
  {
    if ids == [] then (t, true)
    else
      match Updated(t, ids[0], PoolOnly(pool))
      case None => (Fold(t, ids[1..], pool).0, false)
      case Some(next) => Fold(next, ids[1..], pool)
  }

  lemma SetPoolOfNone(t: Tables, pool: Option<PoolId>)
    ensures SetPool(t, {}, pool) == t
  {
    var after := SetPool(t, {}, pool);
    assert NewKeys(t, {}, pool) == {};
    assert after.stops == t.stops;
    assert after.memberships == t.memberships;
  }

  lemma SetPoolInTwo(t: Tables, a: set<StopId>, b: set<StopId>, pool: Option<PoolId>)
    ensures SetPool(SetPool(t, a, pool), b, pool) == SetPool(t, a + b, pool)
  {
    var once, middle := SetPool(t, a + b, pool), SetPool(t, a, pool);
    var twice := SetPool(middle, b, pool);
    assert twice.stops == once.stops;
    MembershipsInTwo(t, a, b, pool);
  }

  lemma MembershipsInTwo(t: Tables, a: set<StopId>, b: set<StopId>, pool: Option<PoolId>)
    ensures SetPool(SetPool(t, a, pool), b, pool).memberships == SetPool(t, a + b, pool).memberships
  {
    var once, twice := SetPool(t, a + b, pool), SetPool(SetPool(t, a, pool), b, pool);
    NewKeysInTwo(t, a, b, pool);
    forall k | k in once.memberships ensures twice.memberships[k] == once.memberships[k] {
      MembershipInTwo(t, a, b, pool, k);
    }
  }

  lemma NewKeysInTwo(t: Tables, a: set<StopId>, b: set<StopId>, pool: Option<PoolId>)
    ensures NewKeys(t, a + b, pool) == NewKeys(t, a, pool) + NewKeys(SetPool(t, a, pool), b, pool)
  {
    assert SetPool(t, a, pool).stops.Keys == t.stops.Keys;
  }

  lemma MembershipInTwo(t: Tables, a: set<StopId>, b: set<StopId>, pool: Option<PoolId>, k: (StopId, PoolId))
    requires k in t.memberships || k in NewKeys(t, a + b, pool)
    ensures var middle := SetPool(t, a, pool);
      && (k in middle.memberships || k in NewKeys(middle, b, pool))
      && MembershipAfter(middle, b, pool, k) == MembershipAfter(t, a + b, pool, k)
  {
    NewKeysInTwo(t, a, b, pool);
  }

  lemma {:induction false} FoldSetsPool(t: Tables, ids: seq<StopId>, pool: Option<PoolId>)
    requires pool.None? || pool.value in t.pools || (pool.value == "" && Members(ids) !! t.stops.Keys)
    ensures Fold(t, ids, pool) == (SetPool(t, Members(ids), pool), true)
    decreases |ids|
  {
    if ids == [] {
      SetPoolOfNone(t, pool);
      assert Members(ids) == {};
    } else {
      var next := SetPool(t, {ids[0]}, pool);
      assert Members(ids) == {ids[0]} + Members(ids[1..]);
      assert Updated(t, ids[0], PoolOnly(pool)) == Some(next);
      assert next.stops.Keys == t.stops.Keys;
      FoldSetsPool(next, ids[1..], pool);
      SetPoolInTwo(t, {ids[0]}, Members(ids[1..]), pool);
    }
  }

  lemma SetPoolOfStrangers(t: Tables, ids: set<StopId>, pool: Option<PoolId>)
    requires Lawful(t) && ids !! t.stops.Keys
    ensures SetPool(t, ids, pool) == t
  {
    var after := SetPool(t, ids, pool);
    assert NewKeys(t, ids, pool) == {};
    assert after.stops == t.stops;
    forall k | k in t.memberships ensures after.memberships[k] == t.memberships[k] {
      assert (k.0, k.1) in t.memberships;
    }
    assert after.memberships == t.memberships;
  }

  /** What becomes of a pool that does not exist, the empty one included: the update is rejected, or, when
      the pool is empty and none of the given stops exists, it is accepted and changes nothing. */
  lemma UnknownPoolIff(t: Tables, ids: seq<StopId>, pool: PoolId)
    requires Lawful(t) && ids != [] && pool !in t.pools
    ensures BulkUpdated(t, ids, BulkPoolOnly(Some(pool)))
      == if pool == "" && Members(ids) !! t.stops.Keys then Some(t) else None
    ensures Updated(t, ids[0], PoolOnly(Some(pool))) == if pool == "" && ids[0] !in t.stops then Some(t) else None
  {
    if pool == "" {
      if Members(ids) !! t.stops.Keys {
        SetPoolOfStrangers(t, Members(ids), Some(pool));
      }
      if ids[0] !in t.stops {
        SetPoolOfStrangers(t, {ids[0]}, Some(pool));
      }
    }
  }

  lemma {:induction false} FoldRejects(t: Tables, ids: seq<StopId>, pool: Option<PoolId>)
    requires Lawful(t) && ids != [] && !Accepts(t, Members(ids), pool)
    ensures Fold(t, ids, pool) == (t, false)
    decreases |ids|
  {
    var rest := Members(ids[1..]);
    assert Members(ids) == {ids[0]} + rest;
    if Accepts(t, {ids[0]}, pool) {
      SetPoolOfStrangers(t, {ids[0]}, pool);
      FoldRejects(t, ids[1..], pool);
    } else if Accepts(t, rest, pool) {
      FoldSetsPool(t, ids[1..], pool);
      SetPoolOfStrangers(t, rest, pool);
    } else if ids[1..] != [] {
      FoldRejects(t, ids[1..], pool);
    }
  }

  lemma NoMembersIff(ids: seq<StopId>)
    ensures Members(ids) == {} <==> ids == []
  {
    if ids != [] {
      assert ids[0] in Members(ids);
    }
  }

  /** A bulk update of the pool is the fold of single updates over the same stops, in any order and with
      any duplicates: the same tables, and an error exactly when one of the single updates has one. */
  lemma BulkIsFold(t: Tables, ids: seq<StopId>, ids': seq<StopId>, pool: Option<PoolId>)
    requires Lawful(t) && Members(ids) == Members(ids')
    ensures var bulk := BulkUpdated(t, ids, BulkPoolOnly(pool));
      Fold(t, ids', pool) == (bulk.GetOr(t), bulk.Some?)
  {
    NoMembersIff(ids);
    NoMembersIff(ids');
    if ids != [] {
      if Accepts(t, Members(ids), pool) {
        FoldSetsPool(t, ids', pool);
      } else {
        FoldRejects(t, ids', pool);
      }
    }
  }
}
