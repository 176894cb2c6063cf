/** The service's id counter: a 32-bit `AtomicInteger` whose
    `incrementAndGet` wraps from the largest int to the smallest. */
module UniqueIds {

  const MinInt32: int := -0x8000_0000
  const MaxInt32: int := 0x7fff_ffff

  predicate IsInt32(x: int)
  {
    MinInt32 <= x <= MaxInt32
  }

  /** One `incrementAndGet` on a 32-bit counter. */
  function Int32Inc(x: int): (r: int)
    requires IsInt32(x)
    ensures IsInt32(r)
    ensures x < MaxInt32 ==> r == x + 1 && r > x
    ensures x == MaxInt32 ==> r == MinInt32 && r < x
  {
    if x == MaxInt32 then MinInt32 else x + 1
  }

  /** The ids that `n` successive calls of `generateUniqueId` return when
      the counter starts at `counter`. */
  function IssuedIds(counter: int, n: nat): (r: seq<int>)
    requires IsInt32(counter)
    ensures |r| == n
    decreases n
  {
    if n == 0 then [] else [Int32Inc(counter)] + IssuedIds(Int32Inc(counter), n - 1)
  }

  /** As long as the counter does not reach the 32-bit bound, the ids issued
      are counter+1, counter+2, ..., and so strictly increasing. */
  lemma {:induction false} IssuedIdsIncrease(counter: int, n: nat)
    requires IsInt32(counter) && counter + n <= MaxInt32
    ensures forall i | 0 <= i < n :: IssuedIds(counter, n)[i] == counter + i + 1
    ensures forall i, j | 0 <= i < j < n :: IssuedIds(counter, n)[i] < IssuedIds(counter, n)[j]
    decreases n
  {
    if n > 0 {
      IssuedIdsIncrease(counter + 1, n - 1);
      var rest := IssuedIds(counter + 1, n - 1);
      assert IssuedIds(counter, n) == [counter + 1] + rest;
      forall i | 0 <= i < n
        ensures IssuedIds(counter, n)[i] == counter + i + 1
      {
        if i > 0 { assert IssuedIds(counter, n)[i] == rest[i - 1]; }
      }
    }
  }

  /** Past the bound the counter wraps: the id issued after MaxInt32 is
      smaller than the one before it. */
  lemma IssuedIdsWrap()
    ensures IssuedIds(MaxInt32 - 1, 2) == [MaxInt32, MinInt32]
  {
    assert IssuedIds(MaxInt32, 1) == [MinInt32] + IssuedIds(MinInt32, 0);
  }
}
