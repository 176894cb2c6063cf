/** Context entities, the errors the context service reports, and the small
    wrapper datatypes its operations return. */
module Types {

  /** An attribute value of a context entity (the scripts store strings,
      numbers and booleans). */
  datatype Value = StrVal(s: string) | IntVal(n: int) | BoolVal(b: bool)

  /** A context entity: its id and its attribute map. Equality is value
      equality on both. */
  datatype Entity = Entity(id: string, attrs: map<string, Value>)

  /** The store's invariant: every key is the id of the entity it holds. */
  predicate KeyedById(store: map<string, Entity>)
  {
    forall id | id in store :: store[id].id == id
  }

  /** `mergeChanges`: the attribute values of a detached entity override
      those of the stored one; the stored entity keeps its id. */
  function MergeChanges(stored: Entity, detached: Entity): (r: Entity)
    ensures r.id == stored.id
    ensures r.attrs.Keys == stored.attrs.Keys + detached.attrs.Keys
    ensures forall k | k in detached.attrs :: r.attrs[k] == detached.attrs[k]
    ensures forall k | k in stored.attrs && k !in detached.attrs :: r.attrs[k] == stored.attrs[k]
  {
    Entity(stored.id, stored.attrs + detached.attrs)
  }

  /** Merging the same detached entity twice changes nothing more. */
  lemma MergeChangesIdempotent(stored: Entity, detached: Entity)
    ensures MergeChanges(MergeChanges(stored, detached), detached) == MergeChanges(stored, detached)
  {
    var once := MergeChanges(stored, detached);
    assert once.attrs + detached.attrs == once.attrs;
  }

  /** The IllegalArgumentExceptions the service throws, one per cause. */
  datatype Error =
    | DuplicateKey(key: string)
    | UnknownKey(key: string)
    | DuplicateQuery(name: string)
    | UnknownQuery(name: string)

  datatype Outcome = Pass | Fail(error: Error)

  datatype Result<T> = Ok(value: T) | Err(error: Error)

  datatype Option<T> = None | Some(value: T)
}
