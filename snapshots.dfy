/** The serialization proxy of the service as a snapshot value: the id
    counter, the entity store and the active sets. The pending changes are
    not part of it. */
module Snapshots {
  import opened Types

  datatype Snapshot = Snapshot(idCounter: int, ctx: map<string, Entity>, active: map<string, set<string>>)

  /** Snapshot equality: the store and the active sets, never the id
      counter, so two snapshots are equal exactly when they differ at most
      in their counters. */
  predicate SnapshotEquals(a: Snapshot, b: Snapshot)
    ensures SnapshotEquals(a, b) <==> a.(idCounter := b.idCounter) == b
  {
    a.ctx == b.ctx && a.active == b.active
  }

  /** The fields equality (and `hashCode`) depend on. */
  function SnapshotKey(s: Snapshot): (map<string, Entity>, map<string, set<string>>)
  {
    (s.ctx, s.active)
  }

  /** Equal snapshots are exactly those with the same key, so any hash
      computed from the key agrees on equal snapshots; the counter is
      irrelevant to both. */
  lemma SnapshotEqualsByKey(a: Snapshot, b: Snapshot, counter: int)
    ensures SnapshotEquals(a, b) <==> SnapshotKey(a) == SnapshotKey(b)
    ensures SnapshotEquals(a, b) <==> SnapshotEquals(a.(idCounter := counter), b)
  {
  }

  /** Snapshot equality is an equivalence relation. */
  lemma SnapshotEqualsIsEquivalence(a: Snapshot, b: Snapshot, c: Snapshot)
    ensures SnapshotEquals(a, a)
    ensures SnapshotEquals(a, b) ==> SnapshotEquals(b, a)
    ensures SnapshotEquals(a, b) && SnapshotEquals(b, c) ==> SnapshotEquals(a, c)
  {
  }

  /** The runtime class of the argument given to the proxy's `equals`. */
  datatype Argument = NullArg | ProxyArg(snapshot: Snapshot) | OtherArg

  /** What a call of `equals` does: return a boolean or throw. */
  datatype EqualsOutcome = Returned(b: bool) | ClassCastThrown

  /** The proxy's `equals` as written, for an argument that is not the
      receiver itself: null and other classes give false; an argument of
      the proxy's own class is cast to the service class, which it is not,
      so the call throws. */
  function ProxyEqualsAsWritten(self: Snapshot, o: Argument): (r: EqualsOutcome)
    ensures r != Returned(true)
    ensures o.ProxyArg? <==> r == ClassCastThrown
  {
    match o
    case NullArg => Returned(false)
    case OtherArg => Returned(false)
    case ProxyArg(_) => ClassCastThrown
  }

  /** As written, two distinct proxies of the very same state are never
      found equal: comparing them throws. */
  lemma ProxyEqualsAsWrittenRejectsEqualState(s: Snapshot)
    ensures SnapshotEquals(s, s)
    ensures ProxyEqualsAsWritten(s, ProxyArg(s)) == ClassCastThrown
  {
  }

  /** The intended comparison: another proxy is equal exactly when its
      store and active sets are equal. */
  function ProxyEquals(self: Snapshot, o: Argument): (r: bool)
    ensures r <==> o.ProxyArg? && SnapshotEquals(self, o.snapshot)
  {
    o.ProxyArg? && SnapshotEquals(self, o.snapshot)
  }
}
