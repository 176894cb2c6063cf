/** The context service: the entity store, the query registry with each
    query's active set, the pending change set and the transaction flag,
    updated in place by its methods. */
module Service {
  import opened Types
  import opened UniqueIds
  import opened Diff
  import opened Snapshots

  class ContextService {
    var idCounter: int
    var queries: map<string, Query>
    var ctx: map<string, Entity>
    var active: map<string, set<string>>
    var changes: set<ActiveChange>
    var transaction: bool

    /** The counter is a 32-bit int, every store key is its entity's id, and
        every query with an active set has a predicate. */
    ghost predicate Valid()
      reads this
    {
      && IsInt32(idCounter)
      && KeyedById(ctx)
      && active.Keys <= queries.Keys
    }

    /** The state a diff pass leaves, from the active sets `before` and the
        pending changes `pending` it started with: every set recomputed from
        the store, and the pass's changes added to the pending ones. */
    ghost predicate DiffedFrom(before: map<string, set<string>>, pending: set<ActiveChange>)
      reads this
    {
      && before.Keys <= queries.Keys
      && active == Refreshed(ctx, queries, before)
      && changes == pending + Delta(before, active)
    }

    constructor ()
      ensures Valid()
      ensures idCounter == 0 && queries == map[] && ctx == map[] && active == map[]
      ensures changes == {} && !transaction
    {
      idCounter := 0;
      queries := map[];
      ctx := map[];
      active := map[];
      changes := {};
      transaction := false;
    }

    /** `generateUniqueId`: the next value of the counter. */
    method GenerateUniqueId() returns (id: int)
      requires Valid()
      modifies this`idCounter
      ensures Valid()
      ensures id == Int32Inc(old(idCounter)) && idCounter == id
      ensures old(idCounter) < MaxInt32 ==> id > old(idCounter)
    {
      idCounter := Int32Inc(idCounter);
      id := idCounter;
    }

    /** `getActive`: the active set of a registered query. */
    function GetActive(name: string): (r: Result<set<string>>)
      reads this
      ensures r.Ok? <==> name in active
      ensures r.Ok? ==> r.value == active[name]
      ensures r.Err? ==> r.error == UnknownQuery(name)
    {
      if name in active then Ok(active[name]) else Err(UnknownQuery(name))
    }

    /** `getQueryResults(Function)`: the stored entities the predicate
        holds for, by one pass over the store. */
    method QueryResultsOf(p: Query) returns (r: set<string>)
      ensures r == Matching(ctx, p)
    {
      r := {};
      var rest := ctx.Keys;
      while rest != {}
        invariant rest <= ctx.Keys
        invariant forall id :: id in r <==> id in ctx && id !in rest && p(ctx[id])
        decreases rest
      {
        var id :| id in rest;
        if p(ctx[id]) {
          r := r + {id};
        }
        rest := rest - {id};
      }
    }

    /** `getQueryResults(String)`: fails on an unregistered name. */
    method GetQueryResults(name: string) returns (r: Result<set<string>>)
      ensures name !in queries ==> r == Err(UnknownQuery(name))
      ensures name in queries ==> r == Ok(Matching(ctx, queries[name]))
    {
      if name !in queries {
        return Err(UnknownQuery(name));
      }
      var results := QueryResultsOf(queries[name]);
      r := Ok(results);
    }

    /** `getEntity`: the stored entity with this id, if any. */
    function GetEntity(id: string): (r: Option<Entity>)
      reads this
      ensures r.Some? <==> id in ctx
      ensures r.Some? ==> r.value == ctx[id]
    {
      if id in ctx then Some(ctx[id]) else None
    }

    /** `recentChanges`: hands out the pending changes and empties the set. */
    method RecentChanges() returns (r: set<ActiveChange>)
      modifies this`changes
      ensures r == old(changes) && changes == {}
    {
      r := changes;
      changes := {};
    }

    /** `getRecentCtxEnd`: the pending `End` changes; the set is kept. */
    function GetRecentCtxEnd(): (r: set<ActiveChange>)
      reads this
      ensures r <= changes
      ensures forall c | c in changes :: c in r <==> c.kind == End
    {
      set c | c in changes && c.kind == End
    }

    method BeginTransaction()
      modifies this`transaction
      ensures transaction
    {
      transaction := true;
    }

    /** `endTransaction`: clears the flag and runs exactly one diff pass. */
    method EndTransaction()
      requires Valid()
      modifies this
      ensures Valid() && !transaction
      ensures idCounter == old(idCounter) && queries == old(queries) && ctx == old(ctx)
      ensures DiffedFrom(old(active), old(changes))
    {
      transaction := false;
      UpdateQueries();
    }

    /** `insertEntity`: fails if the id is already stored; otherwise stores
        the entity and, outside a transaction, runs a diff pass. */
    method InsertEntity(e: Entity) returns (res: Outcome)
      requires Valid()
      modifies this
      ensures Valid()
      ensures res == if e.id in old(ctx) then Fail(DuplicateKey(e.id)) else Pass
      ensures res.Fail? ==> ctx == old(ctx) && active == old(active) && changes == old(changes)
      ensures res.Pass? ==> ctx == old(ctx)[e.id := e]
      ensures idCounter == old(idCounter) && queries == old(queries) && transaction == old(transaction)
      ensures res.Pass? && !transaction ==> DiffedFrom(old(active), old(changes))
      ensures transaction ==> active == old(active) && changes == old(changes)
    {
      if e.id in ctx {
        return Fail(DuplicateKey(e.id));
      }
      // the attached copy of a value is the value itself
      var attached := e;
      ctx := ctx[attached.id := attached];
      if !transaction {
        UpdateQueries();
      }
      res := Pass;
    }

    /** `updateEntity`: fails if the id is not stored; otherwise merges the
        detached entity into the stored one and, outside a transaction, runs
        a diff pass. */
    method UpdateEntity(detached: Entity) returns (res: Outcome)
      requires Valid()
      modifies this
      ensures Valid()
      ensures res == if detached.id in old(ctx) then Pass else Fail(UnknownKey(detached.id))
      ensures res.Fail? ==> ctx == old(ctx) && active == old(active) && changes == old(changes)
      ensures res.Pass? ==> ctx == old(ctx)[detached.id := MergeChanges(old(ctx)[detached.id], detached)]
      ensures idCounter == old(idCounter) && queries == old(queries) && transaction == old(transaction)
      ensures res.Pass? && !transaction ==> DiffedFrom(old(active), old(changes))
      ensures transaction ==> active == old(active) && changes == old(changes)
    {
      if detached.id !in ctx {
        return Fail(UnknownKey(detached.id));
      }
      ctx := ctx[detached.id := MergeChanges(ctx[detached.id], detached)];
      if !transaction {
        UpdateQueries();
      }
      res := Pass;
    }

    /** `deleteEntity`: fails if the id is not stored; otherwise removes
        exactly that key and, outside a transaction, runs a diff pass. */
    method DeleteEntity(detached: Entity) returns (res: Outcome)
      requires Valid()
      modifies this
      ensures Valid()
      ensures res == if detached.id in old(ctx) then Pass else Fail(UnknownKey(detached.id))
      ensures res.Fail? ==> ctx == old(ctx) && active == old(active) && changes == old(changes)
      ensures res.Pass? ==> ctx == old(ctx) - {detached.id}
      ensures idCounter == old(idCounter) && queries == old(queries) && transaction == old(transaction)
      ensures res.Pass? && !transaction ==> DiffedFrom(old(active), old(changes))
      ensures transaction ==> active == old(active) && changes == old(changes)
    {
      if detached.id !in ctx {
        return Fail(UnknownKey(detached.id));
      }
      ctx := ctx - {detached.id};
      if !transaction {
        UpdateQueries();
      }
      res := Pass;
    }

    /** `registerQuery`: fails if the name already has an active set;
        otherwise binds the predicate with an empty active set. No diff
        pass runs. */
    method RegisterQuery(name: string, p: Query) returns (res: Outcome)
      requires Valid()
      modifies this`active, this`queries
      ensures Valid()
      ensures res == if name in old(active) then Fail(DuplicateQuery(name)) else Pass
      ensures res.Fail? ==> active == old(active) && queries == old(queries)
      ensures res.Pass? ==> active == old(active)[name := {}] && queries == old(queries)[name := p]
    {
      if name in active {
        return Fail(DuplicateQuery(name));
      }
      active := active[name := {}];
      queries := queries[name := p];
      res := Pass;
    }

    /** `updateQueries`: one diff pass. Each query's set is replaced by the
        query's current results, recording `New` for the entities that
        joined and `End` for those that left. */
    method UpdateQueries()
      requires Valid()
      modifies this`active, this`changes
      ensures Valid()
      ensures DiffedFrom(old(active), old(changes))
    {
      ghost var before := active;
      var pending := active.Keys;
      while pending != {}
        invariant pending <= before.Keys && active.Keys == before.Keys
        invariant forall q | q in pending :: active[q] == before[q]
        invariant forall q | q in before && q !in pending :: active[q] == Matching(ctx, queries[q])
        invariant changes == old(changes) + DeltaOn(before.Keys - pending, before, active)
        decreases pending
      {
        var q :| q in pending;
        var known := active[q];
        var current := QueryResultsOf(queries[q]);
        DeltaOnStep(before.Keys - pending, before, active, q, current);
        assert before.Keys - pending + {q} == before.Keys - (pending - {q});
        active := active[q := current];
        changes := changes + QueryDelta(q, known, current);
        pending := pending - {q};
      }
      assert before.Keys - pending == before.Keys;
      assert active == Refreshed(ctx, queries, before);
    }

    /** `writeReplace`: the proxy's view of the service. */
    function TakeSnapshot(): (s: Snapshot)
      reads this
      ensures s.idCounter == idCounter && s.ctx == ctx && s.active == active
    {
      Snapshot(idCounter, ctx, active)
    }

    /** `readResolve`: installs the snapshot's counter, store and active
        sets and empties the pending changes. */
    method Restore(s: Snapshot)
      requires Valid()
      requires IsInt32(s.idCounter) && KeyedById(s.ctx) && s.active.Keys <= queries.Keys
      modifies this`idCounter, this`ctx, this`active, this`changes
      ensures Valid()
      ensures TakeSnapshot() == s && changes == {}
    {
      idCounter := s.idCounter;
      ctx := s.ctx;
      active := s.active;
      changes := {};
    }

    /** The service's own `equals`: store, active sets and pending changes.
        It is the snapshot's equality plus equal pending changes. */
    predicate ServiceEquals(other: ContextService)
      reads this, other
      ensures ServiceEquals(other) <==>
                SnapshotEquals(TakeSnapshot(), other.TakeSnapshot()) && changes == other.changes
    {
      ctx == other.ctx && active == other.active && changes == other.changes
    }
  }

  /** Equal services have equal snapshots: the service's equality is finer
      than the snapshot's, which leaves out the pending changes; and it is
      an equivalence relation. */
  lemma ServiceEqualsRefinesSnapshot(a: ContextService, b: ContextService, c: ContextService)
    ensures a.ServiceEquals(b) ==> SnapshotEquals(a.TakeSnapshot(), b.TakeSnapshot())
    ensures a.ServiceEquals(a)
    ensures a.ServiceEquals(b) ==> b.ServiceEquals(a)
    ensures a.ServiceEquals(b) && b.ServiceEquals(c) ==> a.ServiceEquals(c)
  {
  }
}
