// The policy of include/RoundRobinEngine.hpp: executors are taken in turn, and failed offers
// are counted per executor in 32 bits.
module RoundRobinEngine {

  const UINT32: nat := 0x1_0000_0000

  /** The executor in turn after index. */
  function Next(index: nat, count: nat): (i: nat)
    requires index < count
    ensures i < count
  {
    if index + 1 == count then 0 else index + 1
  }

  /** How many choices away from index the executor e is; index itself comes last. */
  function Turns(index: nat, e: nat, count: nat): (k: nat)
    requires index < count && e < count
    ensures 1 <= k <= count
  {
    if e > index then e - index else e + count - index
  }

  lemma NextByRemainder(index: nat, count: nat)
    requires index < count
    ensures (index + 1) % count == Next(index, count)
  {
  }

  /** What the last of n calls of choose_executor in a row answers. */
  function After(index: nat, n: nat, count: nat): (i: nat)
    requires index < count
    ensures i < count
    decreases n
  {
    if n == 0 then index else After(Next(index, count), n - 1, count)
  }

  lemma {:induction false} AfterNext(index: nat, n: nat, count: nat)
    requires index < count
    ensures After(index, n + 1, count) == Next(After(index, n, count), count)
    decreases n
  {
    if n > 0 { AfterNext(Next(index, count), n - 1, count); }
  }

  lemma {:induction false} AfterAt(index: nat, n: nat, count: nat)
    requires index < count && n <= count
    ensures After(index, n, count) == if index + n < count then index + n else index + n - count
    decreases n
  {
    if n > 0 { AfterAt(Next(index, count), n - 1, count); }
  }

  /** Among any count consecutive choices each executor comes up exactly once. */
  lemma EachOnceARound(index: nat, e: nat, count: nat, k: nat)
    requires index < count && e < count && 1 <= k <= count
    ensures After(index, k, count) == e <==> k == Turns(index, e, count)
  {
    AfterAt(index, k, count);
  }

  /** std::vector::resize: cut off, or filled up with zeros. */
  function Resized(failCount: seq<nat>, count: nat): (f: seq<nat>)
    ensures |f| == count
    ensures forall e :: 0 <= e < count ==> f[e] == if e < |failCount| then failCount[e] else 0
  {
    if count <= |failCount| then failCount[..count]
    else failCount + seq(count - |failCount|, e => 0)
  }

  class Engine {
    var executorIndex: nat
    var executorCount: nat
    var failCount: seq<nat>

    constructor ()
      ensures Sized() && executorIndex == 0 && executorCount == 0 && failCount == []
    {
      executorIndex, executorCount, failCount := 0, 0, [];
    }

    /** One counter of 32 bits for each executor. */
    ghost predicate Sized()
      reads this
    {
      executorCount == |failCount| && forall e :: 0 <= e < |failCount| ==> failCount[e] < UINT32
    }

    /** The index is that of an executor: so it is after every choice, and after set_executors unless
        the executors became too few. */
    ghost predicate Valid()
      reads this
    {
      Sized() && executorIndex < executorCount
    }

    method SetExecutors(count: nat)
      requires forall e :: 0 <= e < |failCount| ==> failCount[e] < UINT32
      modifies this
      ensures Sized() && executorCount == count && executorIndex == old(executorIndex)
      ensures failCount == Resized(old(failCount), count)
    {
      executorCount := count;
      failCount := Resized(failCount, count);
    }

    /** The choice is good even if the index before was not. */
    method ChooseExecutor() returns (index: nat)
      requires Sized() && 1 <= executorCount
      modifies this`executorIndex
      ensures Valid() && index == executorIndex == (old(executorIndex) + 1) % executorCount
      ensures old(executorIndex) < executorCount ==> index == Next(old(executorIndex), executorCount)
    {
      executorIndex := (executorIndex + 1) % executorCount;
      index := executorIndex;
    }

    method ReportPushResult(success: bool)
      requires Valid()
      modifies this`failCount
      ensures Valid()
      ensures failCount == if success then old(failCount)
        else old(failCount)[executorIndex := (old(failCount)[executorIndex] + 1) % UINT32]
    {
      if !success {
        failCount := failCount[executorIndex := (failCount[executorIndex] + 1) % UINT32];
      }
    }
  }
}
