/**
 * `sys_ThreadDetach` as kernel_threads.c writes it. On a self-detach it
 * clears `joinable` through the list's sentinel head node instead of through
 * the caller's record. The sentinel's record pointer is set where the
 * process is created (kernel_proc.c, not part of this model); the model
 * takes it to be none of the process's records, so the caller stays
 * joinable. The rest of the model uses the corrected Lifecycle.Detach,
 * which marks the caller's own record.
 */
module DetachFinding {
  import opened Records
  import Lifecycle

  /** Detach as written: the self-detach branch returns 0 and leaves every record of the list as it was. */
  function DetachAsWritten(k: Kernel, me: Tid, tid: Tid): Lifecycle.Step<int>
    requires Runs(k, me)
  {
    if me == tid then Lifecycle.Step(k, 0) else Lifecycle.Detach(k, me, tid)
  }

  /** Two running threads, 2 and 3, as CreateThread leaves them. */
  function TwoThreads(): Kernel {
    Kernel(4, [NewPtcb(2), NewPtcb(3)], 2, multiset{})
  }

  /**
   * As written: thread 3 detaches itself (the call returns 0) and exits with
   * 5; thread 2 then joins thread 3 and succeeds, receiving 5, although a
   * detached thread must not be joinable.
   */
  lemma AsWrittenSelfDetachStaysJoinable()
    ensures WellFormed(TwoThreads()) && Runs(TwoThreads(), 3)
    ensures var d := DetachAsWritten(TwoThreads(), 3, 3);
      && d.out == 0
      && Runs(d.k, 3)
      && var e := Lifecycle.Exit(d.k, 3, 5);
      && e.out == Lifecycle.Parked
      && var b := Lifecycle.JoinBegin(e.k, 2, 3);
      && b.out
      && Lifecycle.CanFinishJoin(b.k, 3)
      && Lifecycle.JoinFinish(b.k, 3).out == 5
  {
    var k := TwoThreads();
    assert IndexOf(k.records, 2) == Some(0);
    assert IndexOf(k.records, 3) == Some(1) by {
      assert IndexOf(k.records[1..], 3) == Some(0);
    }
    RunningSingle(NewPtcb(2));
    RunningAppend([NewPtcb(2)], NewPtcb(3));
    RunningSingle(NewPtcb(3));
    assert [NewPtcb(2)] + [NewPtcb(3)] == k.records;
    forall t
      ensures k.joining[t] == Waiters(k.records, t)
    {
      WaitersSingle(NewPtcb(2), t);
      WaitersAppend([NewPtcb(2)], NewPtcb(3), t);
    }
    var e := Lifecycle.Exit(k, 3, 5);
    Lifecycle.ExitSound(k, 3, 5);
    Lifecycle.JoinBeginSound(e.k, 2, 3);
  }

  /**
   * Corrected: once a thread has detached itself, whatever calls follow
   * (its own exit among them), every Join on it fails and changes nothing.
   */
  lemma SelfDetachedNeverJoined(k: Kernel, me: Tid, k': Kernel, joiner: Tid)
    requires WellFormed(k) && Runs(k, me)
    requires Lifecycle.Later(Lifecycle.Detach(k, me, me).k, k')
    ensures Lifecycle.JoinBegin(k', joiner, me) == Lifecycle.Step(k', false)
  {
    var d := Lifecycle.Detach(k, me, me);
    Lifecycle.DetachSound(k, me, me);
    if Has(k'.records, me) {
      assert !Lookup(k'.records, me).joinable;
    }
  }
}
