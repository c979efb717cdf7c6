/**
 * A trace of the lifecycle calls, evaluated on concrete states: a process
 * whose threads A and B exit with 7 and 9, one joiner on A and two joiners
 * on B.
 */
module Scenarios {
  import opened Records
  import opened Lifecycle

  /** The process after its first four CreateThread calls: main (2), A (3), B (4) and C (5). */
  function FourThreads(): Kernel {
    Kernel(6, [NewPtcb(2), NewPtcb(3), NewPtcb(4), NewPtcb(5)], 4, multiset{})
  }

  /**
   * Starting from a process without threads, four CreateThread calls issue
   * tids 2, 3, 4 and 5 in that order.
   */
  lemma FourCreates()
    ensures var c1 := CreateThread(Kernel(FIRST_TID, [], 0, multiset{}), true);
      var c2 := CreateThread(c1.k, true);
      var c3 := CreateThread(c2.k, true);
      var c4 := CreateThread(c3.k, true);
      [c1.out, c2.out, c3.out, c4.out] == [2, 3, 4, 5] && c4.k == FourThreads()
  {
  }

  /** Main (2), B (4) and C (5) running after A's record was released. */
  function AfterJoinA(): Kernel {
    Kernel(6, [NewPtcb(2), NewPtcb(4), NewPtcb(5)], 3, multiset{})
  }

  /** B exited with 9 while main and C wait on it. */
  function BExitedTwoWaiters(): Kernel {
    Kernel(6, [NewPtcb(2), NewPtcb(4).(exitval := 9, running := false, exited := true, waiters := 2), NewPtcb(5)], 2, multiset{4, 4})
  }

  /** A tid that no record carries is not found. */
  lemma Absent(recs: seq<Ptcb>, tid: Tid)
    requires forall j :: 0 <= j < |recs| ==> recs[j].tid != tid
    ensures !Has(recs, tid)
  {
  }

  /** A exits with 7 while the other three run on. */
  lemma AExits()
    ensures Runs(FourThreads(), 3)
    ensures Exit(FourThreads(), 3, 7) == Step(Kernel(6, [NewPtcb(2), AExited(), NewPtcb(4), NewPtcb(5)], 3, multiset{}), Parked)
  {
  }

  /** A's record once it exited with 7. */
  function AExited(): Ptcb {
    NewPtcb(3).(exitval := 7, running := false, exited := true)
  }

  /** Main joins the exited A: the join passes its checks and registers main on A. */
  lemma MainJoinsA()
    ensures var k := Kernel(6, [NewPtcb(2), AExited(), NewPtcb(4), NewPtcb(5)], 3, multiset{});
      JoinBegin(k, 2, 3) == Step(Kernel(6, [NewPtcb(2), AExited().(waiters := 1), NewPtcb(4), NewPtcb(5)], 3, multiset{3}), true)
  {
    IndexOfUnique([NewPtcb(2), AExited(), NewPtcb(4), NewPtcb(5)], 1);
  }

  /** Main leaves the wait with 7, and as the only waiter it releases A's record. */
  lemma MainReapsA()
    ensures var k := Kernel(6, [NewPtcb(2), AExited().(waiters := 1), NewPtcb(4), NewPtcb(5)], 3, multiset{3});
      && CanFinishJoin(k, 3)
      && JoinFinish(k, 3) == Step(AfterJoinA(), 7)
      && !Has(AfterJoinA().records, 3)
  {
    var k := Kernel(6, [NewPtcb(2), AExited().(waiters := 1), NewPtcb(4), NewPtcb(5)], 3, multiset{3});
    IndexOfUnique(k.records, 1);
    assert Remove(k.records, 1) == AfterJoinA().records;
    Absent(AfterJoinA().records, 3);
  }

  /** Main and then C wait on B, and B exits with 9 while both wait. */
  lemma TwoWaitOnB()
    ensures var k := AfterJoinA();
      && var j1 := JoinBegin(k, 2, 4);
      && j1.out
      && var j2 := JoinBegin(j1.k, 5, 4);
      && j2.out
      && Runs(j2.k, 4) && var e := Exit(j2.k, 4, 9);
      && e.out == Parked && e.k == BExitedTwoWaiters()
  {
  }

  /**
   * Both joiners of B receive 9; the first leaves the record for the second,
   * the second releases it, and a third Join on B then fails.
   */
  lemma BothJoinersOfBReceiveNine()
    ensures var k := BExitedTwoWaiters();
      && CanFinishJoin(k, 4) && var f1 := JoinFinish(k, 4);
      && f1.out == 9 && Has(f1.k.records, 4)
      && CanFinishJoin(f1.k, 4) && var f2 := JoinFinish(f1.k, 4);
      && f2.out == 9 && !Has(f2.k.records, 4)
      && JoinBegin(f2.k, 2, 4) == Step(f2.k, false)
  {
  }
}
