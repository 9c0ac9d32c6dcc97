/** The process-wide customer id counter (`CustomerIdSequencer`), as one
    explicitly constructed object whose counter is a Java `int`. */
module IdSequencing {

  const IntMin: int := -0x8000_0000
  const IntMax: int := 0x7fff_ffff

  /** A Java `int`. */
  newtype Int32 = x: int | -0x8000_0000 <= x <= 0x7fff_ffff

  /** Java's `++` on an `int`: two's-complement successor, which wraps from
      the largest value to the smallest. */
  function Increment(x: Int32): (r: Int32)
    ensures r as int == (x as int + 1 - IntMin) % 0x1_0000_0000 + IntMin
    ensures x as int < IntMax ==> r as int == x as int + 1
  {
    if x as int == IntMax then IntMin as Int32 else x + 1
  }

  class CustomerIdSequencer {
    /** The last id handed out; 0 before the first call. */
    var currentId: Int32

    constructor ()
      ensures currentId == 0
    {
      currentId := 0;
    }

    /** `nextId()`: pre-increment the counter and return its new value. */
    method NextId() returns (id: Int32)
      modifies this
      ensures currentId == Increment(old(currentId))
      ensures id == currentId
    {
      currentId := Increment(currentId);
      id := currentId;
    }
  }

  /** The counter after `n` calls of `NextId` on a fresh sequencer, which is
      also the id the `n`-th call returns. */
  function AfterCalls(n: nat): Int32 {
    if n == 0 then 0 else Increment(AfterCalls(n - 1))
  }

  /** Below the `int` maximum, the `n`-th call returns `n`: the first returns 1
      and each one more than the one before. */
  lemma {:induction false} AfterCallsCounts(n: nat)
    requires n <= IntMax
    ensures AfterCalls(n) as int == n
  {
    if n > 0 {
      AfterCallsCounts(n - 1);
    }
  }

  /** Ids returned before the counter wraps are strictly increasing, and hence
      pairwise distinct. */
  lemma IdsIncrease(i: nat, j: nat)
    requires 1 <= i < j <= IntMax
    ensures 1 <= AfterCalls(i) < AfterCalls(j)
  {
    AfterCallsCounts(i);
    AfterCallsCounts(j);
  }

  /** The wrap is real: the call after `IntMax` calls returns the smallest `int`,
      which repeats no earlier id only because it is negative. */
  lemma {:induction false} CounterWraps()
    ensures AfterCalls(IntMax + 1) as int == IntMin
  {
    AfterCallsCounts(IntMax);
  }
}
