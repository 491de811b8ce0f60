/** What the updates of `adminStopService` do, column by column. */
module PoolRules {
  import opened Wrappers
  import opened PoolMembership

  function Pick<T>(was: T, patch: Patch<T>): T {
    if patch.Given? then patch.value else was
  }

  /** The pool does not exist. The empty string is not looked up; the foreign key rejects it when there is a
      stop to add a membership for. */
  ghost predicate RejectsPool(t: Tables, ids: set<StopId>, pool: Patch<Option<PoolId>>) {
    && pool.Given? && pool.value.Some? && pool.value.value !in t.pools
    && (pool.value.value != "" || exists s :: s in ids && s in t.stops)
  }

  /** Membership rows after the given stops were put into `pool`: theirs are active for that pool only, a missing
      one is added for it with the organisation of the stop, and all others are as they were. */
  ghost predicate MembershipsAre(t: Tables, after: Tables, ids: set<StopId>, pool: Option<PoolId>) {
    && (forall s, p :: (s, p) in after.memberships <==>
         (s, p) in t.memberships || (s in ids && s in t.stops && pool == Some(p)))
    && (forall s, p :: (s, p) in t.memberships && s !in ids ==> after.memberships[(s, p)] == t.memberships[(s, p)])
    && (forall s, p :: (s, p) in t.memberships && s in ids ==>
         after.memberships[(s, p)] == Membership(pool == Some(p), t.memberships[(s, p)].org))
    && (forall s, p :: (s, p) !in t.memberships && s in ids && s in t.stops && pool == Some(p) ==>
         after.memberships[(s, p)] == Membership(true, t.stops[s].org))
  }

  lemma SetPoolIs(t: Tables, ids: set<StopId>, pool: Option<PoolId>)
    ensures MembershipsAre(t, SetPool(t, ids, pool), ids, pool)
  {
    assert forall s, p :: (s, p) in NewKeys(t, ids, pool) <==> s in ids && s in t.stops && pool == Some(p);
  }

  lemma AcceptsIff(t: Tables, ids: set<StopId>, pool: Option<PoolId>)
    ensures Accepts(t, ids, pool) <==> !RejectsPool(t, ids, Given(pool))
  {
  }

  /** An update of one stop fails exactly when its pool does not exist. Otherwise it changes the pool and the
      notes of that stop as far as they are given, and the memberships when a pool or null is given. */
  lemma UpdateIs(t: Tables, id: StopId, patch: StopPatch)
    ensures Updated(t, id, patch).None? <==> RejectsPool(t, {id}, patch.pool)
    ensures Updated(t, id, patch).Some? ==>
      var after := Updated(t, id, patch).value;
      && after.stops.Keys == t.stops.Keys && after.pools == t.pools
      && (forall s :: s in t.stops && s != id ==> after.stops[s] == t.stops[s])
      && (id in t.stops ==>
           var row := t.stops[id];
           after.stops[id] == StopRow(Pick(row.pool, patch.pool), row.org, row.hotspot, row.compactor, row.trash,
                                      Pick(row.notes, patch.notes)))
      && (patch.pool == Absent ==> after.memberships == t.memberships)
      && (patch.pool.Given? ==> MembershipsAre(t, after, {id}, patch.pool.value))
  {
    if patch.pool.Given? {
      AcceptsIff(t, {id}, patch.pool.value);
      SetPoolIs(t, {id}, patch.pool.value);
    }
  }

  function Flagged(row: StopRow, patch: BulkPatch): StopRow {
    StopRow(row.pool, row.org, Pick(row.hotspot, patch.hotspot), Pick(row.compactor, patch.compactor),
            Pick(row.trash, patch.trash), row.notes)
  }

  lemma FlagColumnIs(t: Tables, ids: seq<StopId>, flag: Flag, value: Patch<bool>)
    ensures var after := FlagColumn(t, ids, flag, value);
      && after == t.(stops := after.stops) && after.stops.Keys == t.stops.Keys
      && forall s :: s in t.stops ==>
           after.stops[s] == if value.Given? && s in ids then WithFlag(t.stops[s], flag, value.value) else t.stops[s]
  {
  }

  lemma FlagStopsIs(t: Tables, ids: seq<StopId>, patch: BulkPatch)
    ensures var after := FlagStops(t, ids, patch);
      && after == t.(stops := after.stops) && after.stops.Keys == t.stops.Keys
      && (forall s :: s in t.stops && s !in ids ==> after.stops[s] == t.stops[s])
      && (forall s :: s in t.stops && s in ids ==> after.stops[s] == Flagged(t.stops[s], patch))
  {
    var a := FlagColumn(t, ids, Hotspot, patch.hotspot);
    var b := FlagColumn(a, ids, Compactor, patch.compactor);
    FlagColumnIs(t, ids, Hotspot, patch.hotspot);
    FlagColumnIs(a, ids, Compactor, patch.compactor);
    FlagColumnIs(b, ids, Trash, patch.trash);
  }

  lemma PoolColumnIs(t: Tables, ids: seq<StopId>, pool: Option<PoolId>)
    ensures var after := SetPool(t, Members(ids), pool);
      && after.stops.Keys == t.stops.Keys && after.pools == t.pools
      && (forall s :: s in t.stops && s !in ids ==> after.stops[s] == t.stops[s])
      && (forall s :: s in t.stops && s in ids ==> after.stops[s] == t.stops[s].(pool := pool))
  {
  }

  /** A bulk update of no stops is accepted and does nothing. Otherwise it fails exactly when its pool does not
      exist, or changes the pool and the three flags of the given stops as far as they are given, and their
      memberships when a pool or null is given. */
  lemma BulkUpdateIs(t: Tables, ids: seq<StopId>, patch: BulkPatch)
    ensures forall s :: s in Members(ids) <==> s in ids
    ensures BulkUpdated(t, ids, patch).None? <==> ids != [] && RejectsPool(t, Members(ids), patch.pool)
    ensures ids == [] ==> BulkUpdated(t, ids, patch) == Some(t)
    ensures ids != [] && BulkUpdated(t, ids, patch).Some? ==>
      var after := BulkUpdated(t, ids, patch).value;
      && after.stops.Keys == t.stops.Keys && after.pools == t.pools
      && (forall s :: s in t.stops && s !in ids ==> after.stops[s] == t.stops[s])
      && (forall s :: s in t.stops && s in ids ==> after.stops[s] == Patched(t.stops[s], patch))
      && (patch.pool == Absent ==> after.memberships == t.memberships)
      && (patch.pool.Given? ==> MembershipsAre(t, after, Members(ids), patch.pool.value))
  {
    if ids != [] && patch.pool.Given? {
      AcceptsIff(t, Members(ids), patch.pool.value);
      SetPoolIs(t, Members(ids), patch.pool.value);
      PoolColumnIs(t, ids, patch.pool.value);
      FlagStopsIs(SetPool(t, Members(ids), patch.pool.value), ids, patch);
    } else {
      FlagStopsIs(t, ids, patch);
    }
  }

  function Patched(row: StopRow, patch: BulkPatch): StopRow {
    StopRow(Pick(row.pool, patch.pool), row.org, Pick(row.hotspot, patch.hotspot), Pick(row.compactor, patch.compactor),
            Pick(row.trash, patch.trash), row.notes)
  }
}
