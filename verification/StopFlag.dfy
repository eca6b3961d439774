// The flags that keep the threads running. Other threads may flip them at any time, so that a
// thread's successive loads are told by a list of answers; after the last one a flag is down.
module StopFlag {
  import opened Base

  predicate Up(answers: seq<bool>, load: nat)
  {
    load < |answers| && answers[load]
  }

  /** How many of the loads from the first to before the last find the flag down. */
  function Downs(answers: seq<bool>, first: nat, last: nat): nat
    requires first <= last
    decreases last - first
  {
    if first == last then 0 else Downs(answers, first, last - 1) + Count(!Up(answers, last - 1))
  }

  lemma {:induction false} DownsSplit(answers: seq<bool>, first: nat, middle: nat, last: nat)
    requires first <= middle <= last
    ensures Downs(answers, first, last) == Downs(answers, first, middle) + Downs(answers, middle, last)
    decreases last - middle
  {
    if middle < last { DownsSplit(answers, first, middle, last - 1); }
  }
}
