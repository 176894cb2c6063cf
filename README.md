# Context service of BPjs-Context, modelled in Dafny

This project models `ContextService`, the state container behind the
context layer of BPjs-Context. It has four parts, all changed in place by the
service's methods:

- **Entity store** (`CTX`): a map from id to context entity. Insert fails on a
  duplicate id. Update and delete fail on a missing id.
- **Query registry** (`queries`): a map from query name to a predicate over
  entities. Each query also has an active set (`active`).
- **Diff pass** (`updateQueries`): recomputes every active set from the store.
  It records an `ActiveChange` of kind `New` for each entity that joined a set
  and of kind `End` for each entity that left one. Changes go into the pending
  set `changes`, which `recentChanges` drains.
- **Transaction flag**: while it is set, store mutations skip the diff pass.
  `endTransaction` clears the flag and runs the pass once.

The serialization proxy (`ContextServiceProxy`) is modelled as a snapshot
value: the id counter, the store and the active sets. `writeReplace` becomes
`TakeSnapshot` and `readResolve` becomes `Restore`. Snapshot equality
compares only the store and the active sets. The service's own `equals` also
compares the pending changes.

Modules:

- `types.dfy` (`Types`): entities, attribute values, `mergeChanges`, and the
  error datatypes.
- `unique_ids.dfy` (`UniqueIds`): the 32-bit id counter.
- `diff.dfy` (`Diff`): query matching, the active sets a pass installs, the
  changes it records, and lemmas about them.
- `snapshots.dfy` (`Snapshots`): the proxy as a value, and its equality.
- `service.dfy` (`Service`): the class `ContextService`. Its methods are proved
  against the functions of `Diff`.
- `scenarios.dfy` (`Scenarios`): client runs of the service on concrete
  inputs, proved from the method contracts alone.

Design decisions:

- Predicates are Dafny functions `Entity -> bool`.
- Failures are returned as values (`Outcome`, `Result`), one `Error` per
  `IllegalArgumentException` the source throws.
- Active sets and changes refer to an entity by its id, which is its key in
  the store. In the source the lists hold the attached entity objects, and
  `updateEntity` changes those objects in place. So membership follows the
  entity's identity, not its attribute values at the time it was listed.
- Lists become sets. The order of the source's lists follows `HashMap`
  iteration, and the pending changes are a `HashSet`.

In three details the model follows the code as written:

- `registerQuery` checks for duplicates in `active`, not in `queries`.
- The proxy stores the live maps rather than deep copies. Serialization makes
  the copy; here a snapshot is a value.
- A non-boolean predicate result is not reported as an error of its own. That
  conversion happens in the script engine, which is not modelled.

## Model

| member | source | states |
|---|---|---|
| `Types.MergeChanges` | src/main/java/il/ac/bgu/cs/bp/bpjs/context/ContextService.java:153 | the merged entity keeps the stored id; its attributes are the union of both maps, the detached entity's values winning |
| `Types.MergeChangesIdempotent` | src/main/java/il/ac/bgu/cs/bp/bpjs/context/ContextService.java:153 | merging the same detached entity a second time changes nothing |
| `UniqueIds.Int32Inc` | src/main/java/il/ac/bgu/cs/bp/bpjs/context/ContextService.java:77-79 | one `incrementAndGet` stays a 32-bit int; it increases the value by one below the bound and wraps to the 32-bit minimum at the bound |
| `UniqueIds.IssuedIdsIncrease` | src/main/java/il/ac/bgu/cs/bp/bpjs/context/ContextService.java:77-79 | n successive ids from counter c are c+1 … c+n, strictly increasing, while c+n stays within the 32-bit bound |
| `UniqueIds.IssuedIdsWrap` | src/main/java/il/ac/bgu/cs/bp/bpjs/context/ContextService.java:77-79 | past the 32-bit bound the next id is smaller than the one before |
| `Diff.Refreshed` | src/main/java/il/ac/bgu/cs/bp/bpjs/context/ContextService.java:183 | a diff pass keeps the set of query names |
| `Diff.RefreshedExact` | src/main/java/il/ac/bgu/cs/bp/bpjs/context/ContextService.java:188-189 | after a pass, an id is in query q's set iff it is stored and q's predicate holds for its entity |
| `Diff.DeltaExact` | src/main/java/il/ac/bgu/cs/bp/bpjs/context/ContextService.java:190-198 | a pass records (q, e, New) iff e joined q's set and (q, e, End) iff e left it; an entity whose membership did not change gets no change for q |
| `Diff.DeltaOnStep` | src/main/java/il/ac/bgu/cs/bp/bpjs/context/ContextService.java:183-199 | processing one more query adds exactly that query's changes and leaves the others' changes alone |
| `Diff.RefreshIdle` | src/main/java/il/ac/bgu/cs/bp/bpjs/context/ContextService.java:182-199 | a second pass over an unchanged store installs the same sets and records no change |
| `Diff.BatchedDeltaWithinUnbatched` | src/main/java/il/ac/bgu/cs/bp/bpjs/context/ContextService.java:125-132 | for a transaction of two steps, the one pass at its end records only changes that a pass after each step would also have recorded |
| `Diff.BatchedDeltaWithinSteps` | src/main/java/il/ac/bgu/cs/bp/bpjs/context/ContextService.java:125-132 | the same for a transaction of any number of steps: the changes of the one pass over the net effect are among the changes of one pass per step |
| `Snapshots.SnapshotEqualsByKey` | src/main/java/il/ac/bgu/cs/bp/bpjs/context/ContextService.java:58-70 | snapshot equality holds iff the (store, active sets) pairs are equal, so a hash of that pair agrees on equal snapshots; the id counter never matters |
| `Snapshots.SnapshotEqualsIsEquivalence` | src/main/java/il/ac/bgu/cs/bp/bpjs/context/ContextService.java:58-65 | snapshot equality is reflexive, symmetric and transitive |
| `Snapshots.ProxyEqualsAsWritten` | src/main/java/il/ac/bgu/cs/bp/bpjs/context/ContextService.java:58-65 | the proxy's `equals` as written never returns true for another object, and it throws exactly when the argument is a proxy |
| `Snapshots.ProxyEqualsAsWrittenRejectsEqualState` | src/main/java/il/ac/bgu/cs/bp/bpjs/context/ContextService.java:60-62 | for two proxies of the very same state, the snapshots are equal but `equals` as written throws |
| `Snapshots.SnapshotEquals` | src/main/java/il/ac/bgu/cs/bp/bpjs/context/ContextService.java:63-64 | two snapshots are equal exactly when they differ at most in their id counters |
| `Snapshots.ProxyEquals` | src/main/java/il/ac/bgu/cs/bp/bpjs/context/ContextService.java:58-65 | intended proxy equality: true iff the argument is a proxy whose snapshot equals this one |
| `Service.ContextService.constructor` | src/main/java/il/ac/bgu/cs/bp/bpjs/context/ContextService.java:20-26 | a new service has counter 0, empty maps, no pending changes and no transaction |
| `Service.ContextService.GenerateUniqueId` | src/main/java/il/ac/bgu/cs/bp/bpjs/context/ContextService.java:77-79 | the counter advances by one 32-bit increment and the new value is returned; below the bound it is larger than before |
| `Service.ContextService.GetActive` | src/main/java/il/ac/bgu/cs/bp/bpjs/context/ContextService.java:90-94 | a registered query's active set; `UnknownQuery` for a name without one |
| `Service.ContextService.QueryResultsOf` | src/main/java/il/ac/bgu/cs/bp/bpjs/context/ContextService.java:102-104 | the loop over the store returns exactly the ids of stored entities the predicate holds for |
| `Service.ContextService.GetQueryResults` | src/main/java/il/ac/bgu/cs/bp/bpjs/context/ContextService.java:96-100 | `UnknownQuery` for a name without a predicate; otherwise exactly the matching stored ids |
| `Service.ContextService.GetEntity` | src/main/java/il/ac/bgu/cs/bp/bpjs/context/ContextService.java:106-108 | the stored entity for the id, or none if the id is not stored |
| `Service.ContextService.RecentChanges` | src/main/java/il/ac/bgu/cs/bp/bpjs/context/ContextService.java:119-123 | returns the pending changes and leaves the pending set empty |
| `Service.ContextService.GetRecentCtxEnd` | src/main/java/il/ac/bgu/cs/bp/bpjs/context/ContextService.java:157-159 | exactly the pending changes of kind `End`; reads the pending set without changing it |
| `Service.ContextService.BeginTransaction` | src/main/java/il/ac/bgu/cs/bp/bpjs/context/ContextService.java:125-127 | sets the flag and changes nothing else |
| `Service.ContextService.EndTransaction` | src/main/java/il/ac/bgu/cs/bp/bpjs/context/ContextService.java:129-132 | clears the flag and runs exactly one diff pass; the store is unchanged |
| `Service.ContextService.InsertEntity` | src/main/java/il/ac/bgu/cs/bp/bpjs/context/ContextService.java:140-147 | on a stored id: `DuplicateKey` and no change. Otherwise: stores the entity under its id, leaves every other key alone, runs a diff pass outside a transaction, and leaves the active sets and pending changes alone inside one |
| `Service.ContextService.UpdateEntity` | src/main/java/il/ac/bgu/cs/bp/bpjs/context/ContextService.java:149-155 | on a missing id: `UnknownKey` and no change. Otherwise: only that entry changes, to the merge; a diff pass runs only outside a transaction |
| `Service.ContextService.DeleteEntity` | src/main/java/il/ac/bgu/cs/bp/bpjs/context/ContextService.java:161-167 | on a missing id: `UnknownKey` and no change. Otherwise: exactly that key is removed; a diff pass runs only outside a transaction |
| `Service.ContextService.RegisterQuery` | src/main/java/il/ac/bgu/cs/bp/bpjs/context/ContextService.java:173-180 | on a name with an active set: `DuplicateQuery` and no change. Otherwise: binds the predicate with an empty active set, and no diff pass runs |
| `Service.ContextService.UpdateQueries` | src/main/java/il/ac/bgu/cs/bp/bpjs/context/ContextService.java:182-200 | every active set becomes the matching stored ids; the pass's New/End changes are added to the pending ones, which are kept |
| `Service.ContextService.TakeSnapshot` | src/main/java/il/ac/bgu/cs/bp/bpjs/context/ContextService.java:43-47 | the snapshot holds the counter, the store and the active sets, and not the pending changes |
| `Service.ContextService.Restore` | src/main/java/il/ac/bgu/cs/bp/bpjs/context/ContextService.java:49-56 | installs the snapshot's counter, store and active sets, so taking a snapshot again gives it back; the pending set is empty |
| `Service.ContextService.ServiceEquals` | src/main/java/il/ac/bgu/cs/bp/bpjs/context/ContextService.java:202-210 | two services are equal exactly when their snapshots are equal and their pending changes are equal |
| `Service.ServiceEqualsRefinesSnapshot` | src/main/java/il/ac/bgu/cs/bp/bpjs/context/ContextService.java:203-210 | equal services have equal snapshots, and service equality is reflexive, symmetric and transitive |
| `Scenarios.BigQueryScenario` | src/main/java/il/ac/bgu/cs/bp/bpjs/context/ContextService.java:140-167 | "big" (x > 5): inserting a with x = 3 leaves the set empty; updating a to x = 9 gives {a} and the drain {(big, a, New)}; deleting a gives {} and the drain {(big, a, End)} |
| `Scenarios.TransactionScenario` | src/main/java/il/ac/bgu/cs/bp/bpjs/context/ContextService.java:125-132 | insert and delete of one entity inside a transaction records no change; outside a transaction both New and End are pending until drained |
| `Scenarios.EqualityScenario` | src/main/java/il/ac/bgu/cs/bp/bpjs/context/ContextService.java:203-210 | services that differ only in pending changes and counter are unequal while their snapshots are equal; after a restore and a drain the services are equal |

## Left out

- `addEffectFunction` and the effect-function list: they forward a listener to an external runner or verifier. The model does not invoke or store effects.
- The static singleton, `GetInstance` and `CreateInstance`: the service is an explicit object. `generateUniqueId` becomes an instance method.
- `writeReplace`/`readResolve` as Java serialization hooks: modelled as `TakeSnapshot` and `Restore`. The byte form is not modelled.
- `runQuery`: the call into the JavaScript engine and the conversion of its result to a boolean. The predicate is a Dafny function, so every predicate is assumed to return normally. In the source a predicate that throws during `updateQueries` leaves that query's list cleared (ContextService.java:188) with no `End` changes for the entities it held, and the queries after it in the pass are not processed.
- `attachedCopy`: the attached copy of a value is the value itself. Script-scope bindings are not modelled.
- `Types.MergeChanges`: `ContextEntity.mergeChanges` is not part of this model. The merge is assumed to keep the stored entity's id and to override its attributes with the detached entity's attributes.
- `hashCode` implementations: `Snapshots.SnapshotEqualsByKey` states only that equality is determined by the same fields the hash uses.
- List order: active lists, `recentChanges` and `getRecentCtxEnd` return sets. The source's order depends on hashing.
- `Service.ContextService.ServiceEquals`: weaker than the source in two ways, so two services the model calls equal can be unequal in the source, and their hash codes (ContextService.java:214) can differ.
  - Order: it compares active sets as sets, while the source compares the active lists in order (ContextService.java:208). The lists are filled in `HashMap` iteration order. That order depends on the insertion history, both for ids that share a hash (for example "Aa" and "BB") and through the table's capacity, which never shrinks.
  - Identity: pending changes and active entries hold entity ids, while the source's `ActiveChange` holds the entity object and compares it with `Objects.equals` (ContextService.java:243, :209). A pending change or a mid-transaction active entry that names a deleted or replaced entity is therefore compared by id alone. Example: two services with the query "all"; insert `a` with x = 1 into one and `a` with x = 2 into the other, then delete `a` in both without draining. The model finds the services equal; the source's pending sets are {New(a1), End(a1)} and {New(a2), End(a2)}, unequal whenever `ContextEntity.equals` compares attributes.
- `Snapshots.SnapshotEquals`: weaker than the proxy's comparison (ContextService.java:64) in the same two ways, so the source can find two snapshots unequal where the model finds them equal.
  - Order: it compares active sets as sets, while the proxy compares the lists in the same `HashMap` order.
  - Identity: an active entry that names a deleted or replaced entity, possible only inside a transaction, is compared by id alone. Example: in two services with the query "all" holding `a` with x = 1 and `a` with x = 2, begin a transaction and delete `a` in both. Both stores are empty and both active sets are {a}, so the model's snapshots are equal. The proxy's lists hold the two different objects.
- `Service.ContextService.GetActive`: returns the set's value, not a live list that the next pass changes.
- Entity identity: changes and active sets carry the entity's id, not the object. So when an id is deleted and a new entity with that id is inserted between two drains, the model merges the changes of the old and the new object. This holds inside or outside a transaction. Take a query whose predicate holds for both objects. Outside a transaction the model's pending set is {New, End} for that id, where the source's `HashSet` holds New and End for the old object and New for the new one. Inside one transaction the model records nothing, where the source records End for the old object and New for the new one. Either way, the source's result is different unless `ContextEntity.equals` treats the two objects as equal. `ContextEntity` is not part of this model.
- `Service.ContextService.Restore`: requires that every query name in the snapshot has a predicate, and that the snapshot's store is keyed by entity id. This holds for snapshots taken from the same service. With a foreign snapshot whose active sets name a query that has no predicate, the source fails in the next diff pass, where `getQueryResults` throws (ContextService.java:97-98). A store not keyed by id makes no pass fail in the source; the model requires it only to keep its invariant that every store key is its entity's id.
- Concurrency: `AtomicInteger` atomicity is irrelevant to a single writer. The counter is a plain 32-bit int whose wrap-around is modelled.
- ContextProxy.java, the ConnectedFour example's Main.java, and the scripts bl.js and dal.js are not part of this model.

## Findings

| source | as written | input that shows it | evidently intended | confidence | as-written member | corrected member |
|---|---|---|---|---|---|---|
| src/main/java/il/ac/bgu/cs/bp/bpjs/context/ContextService.java:61-62 | the proxy's `equals` checks that the argument has the proxy's own class, then casts it to `ContextService` | two distinct proxies of the same store and active sets: the cast throws `ClassCastException` instead of returning true | compare the two proxies' `CTX` and `active` field by field | high; not executed | `Snapshots.ProxyEqualsAsWrittenRejectsEqualState` | `Snapshots.ProxyEquals` |
