/** Client runs of the service that pin down its observable behaviour on
    concrete inputs, using only the contracts of its methods. */
module Scenarios {
  import opened Types
  import opened Diff
  import opened Snapshots
  import opened Service

  function AttrX(x: int): map<string, Value>
  {
    map["x" := IntVal(x)]
  }

  /** The query "big": the entity's `x` is a number above 5. */
  function Big(e: Entity): bool
  {
    "x" in e.attrs && e.attrs["x"].IntVal? && e.attrs["x"].n > 5
  }

  /** A store of one entity matches its id exactly when the predicate
      holds for the entity. */
  lemma MatchingOne(id: string, e: Entity, p: Query)
    ensures Matching(map[id := e], p) == if p(e) then {id} else {}
    ensures Matching(map[], p) == {}
  {
  }

  /** A pass over a single registered query. */
  lemma OnePass(store: map<string, Entity>, queries: map<string, Query>, q: string,
                known: set<string>, current: set<string>)
    requires q in queries && Matching(store, queries[q]) == current
    ensures Refreshed(store, queries, map[q := known]) == map[q := current]
    ensures Delta(map[q := known], map[q := current]) == QueryDelta(q, known, current)
  {
    var before, after := map[q := known], map[q := current];
    assert before.Keys == {q};
    DeltaOnStep({}, before, before, q, current);
    assert before[q := current] == after;
    assert DeltaOn({}, before, before) == {};
  }

  /** The changes of one query whose set gains or loses one entity. */
  lemma OneChange(q: string, id: string)
    ensures QueryDelta(q, {}, {id}) == {ActiveChange(q, id, New)}
    ensures QueryDelta(q, {id}, {}) == {ActiveChange(q, id, End)}
    ensures QueryDelta(q, {}, {}) == {}
  {
    assert QueryDelta(q, {}, {id}) == (set e | e in {id} :: ActiveChange(q, e, New)) + {};
    assert QueryDelta(q, {id}, {}) == {} + (set e | e in {id} :: ActiveChange(q, e, End));
  }

  /** A fresh service with the single query `name`, nothing stored and
      nothing pending. */
  method NewService(name: string, p: Query) returns (cs: ContextService)
    ensures fresh(cs) && cs.Valid()
    ensures cs.queries == map[name := p] && cs.active == map[name := {}]
    ensures cs.ctx == map[] && cs.changes == {} && !cs.transaction && cs.idCounter == 0
  {
    cs := new ContextService();
    var registered := cs.RegisterQuery(name, p);
  }

  /** A fresh service with the query "big" after `a` with x = 3 was
      inserted: "big" matches nothing yet. */
  method BigServiceHoldingA() returns (cs: ContextService)
    ensures fresh(cs) && cs.Valid() && !cs.transaction
    ensures cs.queries == map["big" := Big] && cs.ctx == map["a" := Entity("a", AttrX(3))]
    ensures cs.active == map["big" := {}] && cs.changes == {}
  {
    cs := NewService("big", Big);
    OneChange("big", "a");
    MatchingOne("a", Entity("a", AttrX(3)), Big);
    OnePass(map["a" := Entity("a", AttrX(3))], cs.queries, "big", {}, {});
    var inserted := cs.InsertEntity(Entity("a", AttrX(3)));
  }

  /** Updating a to x = 9 makes it join "big"; draining hands out that one
      change. */
  method UpdateBig(cs: ContextService) returns (afterUpdate: Result<set<string>>, drained: set<ActiveChange>)
    requires cs.Valid() && !cs.transaction
    requires cs.queries == map["big" := Big] && cs.ctx == map["a" := Entity("a", AttrX(3))]
    requires cs.active == map["big" := {}] && cs.changes == {}
    modifies cs
    ensures cs.Valid() && !cs.transaction && cs.queries == map["big" := Big]
    ensures cs.ctx == map["a" := Entity("a", AttrX(9))] && cs.active == map["big" := {"a"}] && cs.changes == {}
    ensures afterUpdate == Ok({"a"}) && drained == {ActiveChange("big", "a", New)}
  {
    OneChange("big", "a");
    MatchingOne("a", Entity("a", AttrX(9)), Big);
    assert AttrX(3) + AttrX(9) == AttrX(9);
    assert map["a" := Entity("a", AttrX(3))]["a" := Entity("a", AttrX(9))] == map["a" := Entity("a", AttrX(9))];
    OnePass(map["a" := Entity("a", AttrX(9))], cs.queries, "big", {}, {"a"});
    var updated := cs.UpdateEntity(Entity("a", AttrX(9)));
    assert cs.ctx == map["a" := Entity("a", AttrX(9))];
    afterUpdate := cs.GetActive("big");
    drained := cs.RecentChanges();
  }

  /** Deleting a makes it leave "big"; draining hands out that one change. */
  method DeleteBig(cs: ContextService) returns (afterDelete: Result<set<string>>, drained: set<ActiveChange>)
    requires cs.Valid() && !cs.transaction
    requires cs.queries == map["big" := Big] && cs.ctx == map["a" := Entity("a", AttrX(9))]
    requires cs.active == map["big" := {"a"}] && cs.changes == {}
    modifies cs
    ensures afterDelete == Ok({}) && drained == {ActiveChange("big", "a", End)}
  {
    OneChange("big", "a");
    OnePass(map[], cs.queries, "big", {"a"}, {});
    assert map["a" := Entity("a", AttrX(9))] - {"a"} == map[];
    var deleted := cs.DeleteEntity(Entity("a", map[]));
    assert cs.ctx == map[];
    afterDelete := cs.GetActive("big");
    drained := cs.RecentChanges();
  }

  /** Register "big"; insert a with x = 3; update a to x = 9; delete a. The
      set of "big" goes from empty to {a} to empty, and each drain hands out
      exactly the one change the preceding step caused. */
  method BigQueryScenario() returns (afterInsert: Result<set<string>>, afterUpdate: Result<set<string>>,
                                     drainedUpdate: set<ActiveChange>, afterDelete: Result<set<string>>,
                                     drainedDelete: set<ActiveChange>)
    ensures afterInsert == Ok({})
    ensures afterUpdate == Ok({"a"}) && drainedUpdate == {ActiveChange("big", "a", New)}
    ensures afterDelete == Ok({}) && drainedDelete == {ActiveChange("big", "a", End)}
  {
    var cs := BigServiceHoldingA();
    afterInsert := cs.GetActive("big");
    afterUpdate, drainedUpdate := UpdateBig(cs);
    afterDelete, drainedDelete := DeleteBig(cs);
  }

  function All(e: Entity): bool
  {
    true
  }

  /** A fresh service with the query "all", after `a` was inserted outside a
      transaction; its change is still pending. */
  method ServiceHoldingA(a: Entity) returns (cs: ContextService)
    ensures fresh(cs) && cs.Valid() && !cs.transaction && cs.idCounter == 0
    ensures cs.queries == map["all" := All] && cs.ctx == map[a.id := a]
    ensures cs.active == map["all" := {a.id}] && cs.changes == {ActiveChange("all", a.id, New)}
  {
    cs := NewService("all", All);
    OneChange("all", a.id);
    MatchingOne(a.id, a, All);
    OnePass(map[a.id := a], cs.queries, "all", {}, {a.id});
    var inserted := cs.InsertEntity(a);
  }

  /** Inserting and deleting the same entity inside a transaction records no
      change; the same two steps outside a transaction record that it joined
      and that it left, and both changes are pending until drained. */
  method TransactionScenario() returns (batched: set<ActiveChange>, unbatched: set<ActiveChange>)
    ensures batched == {}
    ensures unbatched == {ActiveChange("all", "a", New), ActiveChange("all", "a", End)}
  {
    var a := Entity("a", map[]);
    OneChange("all", "a");
    assert map["a" := a] - {"a"} == map[];

    var cs := NewService("all", All);
    cs.BeginTransaction();
    var inserted := cs.InsertEntity(a);
    var deleted := cs.DeleteEntity(a);
    OnePass(map[], cs.queries, "all", {}, {});
    cs.EndTransaction();
    batched := cs.RecentChanges();

    var live := ServiceHoldingA(a);
    OnePass(map[], live.queries, "all", {"a"}, {});
    deleted := live.DeleteEntity(a);
    unbatched := live.RecentChanges();
  }

  /** Two services reaching the same store and active sets, one with an
      undrained change and an advanced id counter: their snapshots are
      equal, the services are not; restoring one's snapshot into the other
      makes the services equal. */
  method EqualityScenario() returns (serviceEqual: bool, snapshotEqual: bool, restoredEqual: bool)
    ensures !serviceEqual && snapshotEqual && restoredEqual
  {
    var a := Entity("a", map[]);
    var first := ServiceHoldingA(a);
    var second := ServiceHoldingA(a);
    var drained := second.RecentChanges();
    var id := second.GenerateUniqueId();

    serviceEqual := first.ServiceEquals(second);
    snapshotEqual := SnapshotEquals(first.TakeSnapshot(), second.TakeSnapshot());
    second.Restore(first.TakeSnapshot());
    var ignored := first.RecentChanges();
    restoredEqual := first.ServiceEquals(second);
  }
}
