/** The active-set diff engine: which stored entities a query matches, the
    active sets a diff pass installs, and the change events it records.

    An active set holds the ids (store keys) of its entities: the lists of
    the service hold the attached entity objects themselves, which an update
    changes in place, so membership follows the entity's identity, which is
    its key in the store. */
module Diff {
  import opened Types

  /** A query predicate; in the service it is a script function. */
  type Query = Entity -> bool

  datatype ChangeKind = New | End

  /** `ActiveChange`: entity `entity` joined (`New`) or left (`End`) the
      active set of query `query`. Equal when all three fields are equal. */
  datatype ActiveChange = ActiveChange(query: string, entity: string, kind: ChangeKind)

  /** The ids of the stored entities the predicate holds for
      (`getQueryResults(Function)`). */
  function Matching(store: map<string, Entity>, p: Query): set<string>
  {
    set id | id in store && p(store[id])
  }

  /** The active sets after a diff pass: every registered query's set is
      recomputed from the store; the set of query names does not change. */
  function Refreshed(store: map<string, Entity>, queries: map<string, Query>,
                     active: map<string, set<string>>): (r: map<string, set<string>>)
    requires active.Keys <= queries.Keys
    ensures r.Keys == active.Keys
  {
    map q | q in active :: Matching(store, queries[q])
  }

  /** The changes one query contributes to a pass: `New` for each entity in
      the recomputed set and not in the known one, `End` for each entity in
      the known set and not in the recomputed one. */
  function QueryDelta(q: string, known: set<string>, current: set<string>): set<ActiveChange>
  {
    (set e | e in current && e !in known :: ActiveChange(q, e, New))
    + (set e | e in known && e !in current :: ActiveChange(q, e, End))
  }

  /** The changes of the queries `names` between two active-set maps. */
  function DeltaOn(names: set<string>, before: map<string, set<string>>,
                   after: map<string, set<string>>): set<ActiveChange>
    requires names <= before.Keys && names <= after.Keys
  {
    (set q, e | q in names && e in after[q] && e !in before[q] :: ActiveChange(q, e, New))
    + (set q, e | q in names && e in before[q] && e !in after[q] :: ActiveChange(q, e, End))
  }

  /** The changes a whole diff pass records. */
  function Delta(before: map<string, set<string>>, after: map<string, set<string>>): set<ActiveChange>
    requires before.Keys == after.Keys
  {
    DeltaOn(before.Keys, before, after)
  }

  /** When a change is recorded between `before` and `after`. */
  predicate Joined(before: map<string, set<string>>, after: map<string, set<string>>, q: string, e: string)
    requires before.Keys == after.Keys
  {
    q in before && e in after[q] && e !in before[q]
  }

  predicate Left(before: map<string, set<string>>, after: map<string, set<string>>, q: string, e: string)
    requires before.Keys == after.Keys
  {
    q in before && e in before[q] && e !in after[q]
  }

  /** A pass records `(q, e, New)` exactly when `e` joined `q`'s set and
      `(q, e, End)` exactly when it left; an entity whose membership did not
      change gets no change for `q`. */
  lemma DeltaExact(before: map<string, set<string>>, after: map<string, set<string>>, q: string, e: string)
    requires before.Keys == after.Keys
    ensures ActiveChange(q, e, New) in Delta(before, after) <==> Joined(before, after, q, e)
    ensures ActiveChange(q, e, End) in Delta(before, after) <==> Left(before, after, q, e)
    ensures q in before && (e in before[q] <==> e in after[q]) ==>
              ActiveChange(q, e, New) !in Delta(before, after) && ActiveChange(q, e, End) !in Delta(before, after)
  {
    if Joined(before, after, q, e) {
      assert ActiveChange(q, e, New) in
        (set q', e' | q' in before.Keys && e' in after[q'] && e' !in before[q'] :: ActiveChange(q', e', New));
    }
    if Left(before, after, q, e) {
      assert ActiveChange(q, e, End) in
        (set q', e' | q' in before.Keys && e' in before[q'] && e' !in after[q'] :: ActiveChange(q', e', End));
    }
  }

  /** Extending the processed query names by one query `q` adds exactly
      that query's changes; the other queries' entries are left alone. */
  lemma DeltaOnStep(names: set<string>, before: map<string, set<string>>,
                    after: map<string, set<string>>, q: string, current: set<string>)
    requires names <= before.Keys && names <= after.Keys
    requires q in before && q !in names
    ensures DeltaOn(names + {q}, before, after[q := current])
            == DeltaOn(names, before, after) + QueryDelta(q, before[q], current)
  {
    var after' := after[q := current];
    var lhs := DeltaOn(names + {q}, before, after');
    var rhs := DeltaOn(names, before, after) + QueryDelta(q, before[q], current);
    forall c | c in lhs ensures c in rhs {
      if c.query == q {
        assert c in QueryDelta(q, before[q], current);
      } else {
        assert after'[c.query] == after[c.query];
      }
    }
    forall c | c in rhs ensures c in lhs {
      if c in QueryDelta(q, before[q], current) {
        if c.kind == New {
          assert c == ActiveChange(q, c.entity, New);
        } else {
          assert c == ActiveChange(q, c.entity, End);
        }
      } else {
        assert c.query in names && after'[c.query] == after[c.query];
        if c.kind == New {
          assert c == ActiveChange(c.query, c.entity, New);
        } else {
          assert c == ActiveChange(c.query, c.entity, End);
        }
      }
    }
  }

  /** Diff completeness: after a pass every registered query's set holds
      exactly the stored entities its predicate holds for. */
  lemma RefreshedExact(store: map<string, Entity>, queries: map<string, Query>,
                       active: map<string, set<string>>, q: string, e: string)
    requires active.Keys <= queries.Keys && q in active
    ensures e in Refreshed(store, queries, active)[q] <==> e in store && queries[q](store[e])
  {
  }

  /** A pass right after a pass, with the store unchanged, installs the same
      sets and records nothing. */
  lemma RefreshIdle(store: map<string, Entity>, queries: map<string, Query>,
                    active: map<string, set<string>>)
    requires active.Keys <= queries.Keys
    ensures Refreshed(store, queries, Refreshed(store, queries, active)) == Refreshed(store, queries, active)
    ensures Delta(Refreshed(store, queries, active), Refreshed(store, queries, active)) == {}
  {
    var r := Refreshed(store, queries, active);
    forall c | c in Delta(r, r) ensures false {
      DeltaExact(r, r, c.query, c.entity);
    }
  }

  /** Batching: the changes of one pass over the net effect of two steps are
      among the changes the two steps would have recorded one pass each. */
  lemma BatchedDeltaWithinUnbatched(a0: map<string, set<string>>,
                                    a1: map<string, set<string>>,
                                    a2: map<string, set<string>>)
    requires a0.Keys == a1.Keys == a2.Keys
    ensures Delta(a0, a2) <= Delta(a0, a1) + Delta(a1, a2)
  {
    forall c | c in Delta(a0, a2) ensures c in Delta(a0, a1) + Delta(a1, a2) {
      DeltaExact(a0, a2, c.query, c.entity);
      DeltaExact(a0, a1, c.query, c.entity);
      DeltaExact(a1, a2, c.query, c.entity);
      assert c == ActiveChange(c.query, c.entity, c.kind);
    }
  }

  /** A run of active-set maps over the same query names. */
  predicate SameQueries(steps: seq<map<string, set<string>>>)
  {
    forall i | 0 <= i < |steps| :: steps[i].Keys == steps[0].Keys
  }

  /** The changes recorded when every step of the run gets its own pass. */
  function StepDeltas(steps: seq<map<string, set<string>>>): set<ActiveChange>
    requires SameQueries(steps)
    decreases |steps|
  {
    if |steps| < 2 then {}
    else
      assert SameQueries(steps[1..]) by {
        forall i | 0 <= i < |steps| - 1 ensures steps[1..][i].Keys == steps[1..][0].Keys {
          assert steps[1..][i] == steps[i + 1];
        }
      }
      Delta(steps[0], steps[1]) + StepDeltas(steps[1..])
  }

  /** Batching over any number of steps: the changes of one pass over the
      net effect of a run are among those one pass per step would have
      recorded. */
  lemma {:induction false} BatchedDeltaWithinSteps(steps: seq<map<string, set<string>>>)
    requires |steps| >= 1 && SameQueries(steps)
    ensures Delta(steps[0], steps[|steps| - 1]) <= StepDeltas(steps)
    decreases |steps|
  {
    if |steps| == 1 {
      var a := steps[0];
      forall c | c in Delta(a, a) ensures false {
        DeltaExact(a, a, c.query, c.entity);
      }
    } else {
      var rest := steps[1..];
      assert SameQueries(rest) by {
        forall i | 0 <= i < |rest| ensures rest[i].Keys == rest[0].Keys {
          assert rest[i] == steps[i + 1];
        }
      }
      BatchedDeltaWithinSteps(rest);
      assert rest[|rest| - 1] == steps[|steps| - 1];
      BatchedDeltaWithinUnbatched(steps[0], steps[1], steps[|steps| - 1]);
    }
  }
}
