/**
 * The thread lifecycle calls of kernel_threads.c as steps of the bookkeeping
 * state: each call, run atomically under the kernel lock, maps a Kernel state
 * to a new one and a result. Join is split at its wait loop into JoinBegin
 * (the checks and the waiter registration) and JoinFinish (reading the exit
 * value, unregistering and reaping).
 */
module Lifecycle {
  import opened Records

  /** The state after a call, and what the call returns. */
  datatype Step<R> = Step(k: Kernel, out: R)

  /** How ThreadExit ends: the process terminates with a status, or the thread parks. */
  datatype ExitOutcome = ProcessExit(status: int) | Parked

  /** `sys_CreateThread`; `gotMemory` says whether the allocation of the record succeeded. */
  function CreateThread(k: Kernel, gotMemory: bool): Step<Tid> {
    if !gotMemory then Step(k, NOTHREAD)
    else Step(k.(next := k.next + 1, records := k.records + [NewPtcb(k.next)], active := k.active + 1), k.next)
  }

  /**
   * `sys_ThreadJoin` up to its wait loop; `out` is false when the call
   * returns -1. A success registers the caller as a joiner of `tid`.
   */
  function JoinBegin(k: Kernel, me: Tid, tid: Tid): Step<bool> {
    if me == tid then Step(k, false)
    else
      match IndexOf(k.records, tid)
      case None => Step(k, false)
      case Some(i) =>
        var r := k.records[i];
        if !r.joinable then Step(k, false)
        else Step(k.(records := k.records[i := r.(waiters := r.waiters + 1)], joining := k.joining + multiset{tid}), true)
  }

  /**
   * A joiner registered on `tid` leaves the wait loop: it is one of the
   * registrations on `tid`, and the target's record shows it exited.
   * RegisteredJoinerKeepsRecord proves that the record is still there.
   */
  predicate CanFinishJoin(k: Kernel, tid: Tid) {
    tid in k.joining && Has(k.records, tid) && Lookup(k.records, tid).exited
  }

  /**
   * `sys_ThreadJoin` after its wait loop: read the exit value, unregister,
   * and release the record when no waiter is left. The call then returns 0;
   * `out` is the exit value it stores.
   */
  function JoinFinish(k: Kernel, tid: Tid): Step<int>
    requires CanFinishJoin(k, tid)
  {
    var i := IndexOf(k.records, tid).value;
    var r := k.records[i].(waiters := k.records[i].waiters - 1);
    var recs := if r.waiters <= 0 then Remove(k.records, i) else k.records[i := r];
    Step(k.(records := recs, joining := k.joining - multiset{tid}), r.exitval)
  }

  function MarkDetached(k: Kernel, i: nat): Kernel
    requires i < |k.records|
  {
    k.(records := k.records[i := k.records[i].(joinable := false)])
  }

  /**
   * `sys_ThreadDetach` called by thread `me`: returns 0 or -1. Detaching
   * oneself marks the caller's own record (see the findings in README.md
   * about the record the kernel writes to).
   */
  function Detach(k: Kernel, me: Tid, tid: Tid): Step<int>
    requires Runs(k, me)
  {
    if me == tid then Step(MarkDetached(k, IndexOf(k.records, me).value), 0)
    else if k.active < 2 then Step(k, -1)
    else
      match IndexOf(k.records, tid)
      case None => Step(k, -1)
      case Some(i) =>
        if !k.records[i].exited then Step(MarkDetached(k, i), 0) else Step(k, -1)
  }

  /** `sys_ThreadExit(v)` called by thread `me`. */
  function Exit(k: Kernel, me: Tid, v: int): Step<ExitOutcome>
    requires Runs(k, me)
  {
    var i := IndexOf(k.records, me).value;
    var recs := k.records[i := k.records[i].(exitval := v, running := false, exited := true)];
    var active := k.active - 1;
    Step(k.(records := recs, active := active), if active <= 0 then ProcessExit(v) else Parked)
  }

  // ----- how state may evolve -----

  /**
   * How one record may change between two states: its tid is fixed, once
   * exited it stays exited with the same exit value, and once non-joinable
   * it stays non-joinable.
   */
  predicate Evolves(a: Ptcb, b: Ptcb) {
    && b.tid == a.tid
    && (a.exited ==> b.exited && b.exitval == a.exitval)
    && (!a.joinable ==> !b.joinable)
  }

  /**
   * `k2` can follow `k1`: the tid counter never goes back, every record in
   * both evolved as Evolves allows, and every record new in `k2` carries a
   * tid the counter had not issued in `k1`.
   */
  ghost predicate Later(k1: Kernel, k2: Kernel) {
    && k1.next <= k2.next
    && (forall t :: Has(k2.records, t) && Has(k1.records, t) ==>
          Evolves(Lookup(k1.records, t), Lookup(k2.records, t)))
    && (forall t :: Has(k2.records, t) && !Has(k1.records, t) ==> k1.next <= t)
  }

  /** No record of `k1` is gone in `k2`. */
  ghost predicate Keeps(k1: Kernel, k2: Kernel) {
    forall t :: Has(k1.records, t) ==> Has(k2.records, t)
  }

  lemma LaterReflexive(k: Kernel)
    ensures Later(k, k) && Keeps(k, k)
  {
  }

  lemma LaterTransitive(k1: Kernel, k2: Kernel, k3: Kernel)
    requires WellFormed(k1) && WellFormed(k2)
    requires Later(k1, k2) && Later(k2, k3)
    ensures Later(k1, k3)
  {
  }

  /**
   * Replacing the record at position `i` by one with the same tid that the
   * record may evolve into keeps the invariant (with `active_threads` and
   * the joiners on that tid adjusted), loses no record, and changes the
   * lookup of that tid only.
   */
  lemma ReplaceSound(k: Kernel, i: nat, r: Ptcb, active: int, joining: multiset<Tid>)
    requires WellFormed(k) && i < |k.records|
    requires r.tid == k.records[i].tid && Sound(r) && Evolves(k.records[i], r)
    requires active == k.active - Running([k.records[i]]) + Running([r])
    requires forall t :: joining[t] + Own(k.records[i], t) == k.joining[t] + Own(r, t)
    ensures var k' := Kernel(k.next, k.records[i := r], active, joining);
      && WellFormed(k') && Later(k, k') && Keeps(k, k')
      && |k'.records| == |k.records|
      && (forall t :: Has(k'.records, t) <==> Has(k.records, t))
      && (forall t :: Has(k.records, t) ==>
            Lookup(k'.records, t) == if t == r.tid then r else Lookup(k.records, t))
  {
    var k' := Kernel(k.next, k.records[i := r], active, joining);
    RunningUpdate(k.records, i, r);
    forall t
      ensures IndexOf(k'.records, t) == IndexOf(k.records, t)
    {
      IndexOfUpdate(k.records, i, r, t);
    }
    IndexOfUnique(k.records, i);
    forall t
      ensures joining[t] == Waiters(k'.records, t)
    {
      WaitersUpdate(k.records, i, r, t);
    }
  }

  /**
   * Releasing an exited record on which no joiner is left keeps the
   * invariant (`active_threads` counts only running records), and changes
   * the lookup of that record's tid only.
   */
  lemma RemoveSound(k: Kernel, i: nat, joining: multiset<Tid>)
    requires WellFormed(k) && i < |k.records| && k.records[i].exited
    requires forall t :: joining[t] + Own(k.records[i], t) == k.joining[t]
    ensures var k' := Kernel(k.next, Remove(k.records, i), k.active, joining);
      && WellFormed(k') && Later(k, k')
      && !Has(k'.records, k.records[i].tid)
      && (forall t :: t != k.records[i].tid ==> (Has(k'.records, t) <==> Has(k.records, t)))
      && (forall t :: t != k.records[i].tid && Has(k.records, t) ==> Lookup(k'.records, t) == Lookup(k.records, t))
  {
    var k' := Kernel(k.next, Remove(k.records, i), k.active, joining);
    RunningSingle(k.records[i]);
    RunningRemove(k.records, i);
    forall t
      ensures t == k.records[i].tid ==> !Has(k'.records, t)
      ensures t != k.records[i].tid ==> (Has(k'.records, t) <==> Has(k.records, t))
      ensures t != k.records[i].tid && Has(k.records, t) ==> Lookup(k'.records, t) == Lookup(k.records, t)
    {
      RemoveLookup(k.records, i, t);
    }
    assert forall j :: 0 <= j < |k'.records| ==> k'.records[j] == k.records[if j < i then j else j + 1];
    forall t
      ensures joining[t] == Waiters(k'.records, t)
    {
      WaitersRemove(k.records, i, t);
    }
  }

  // ----- each call keeps the invariant -----

  /**
   * CreateThread: on a failed allocation nothing changes and NOTHREAD is
   * returned; otherwise exactly one record is appended, at the end, with a
   * tid no record had, joinable, not exited, without waiters and running;
   * `active_threads` grows by one and every other record is untouched.
   */
  lemma CreateThreadSound(k: Kernel, gotMemory: bool)
    requires WellFormed(k)
    ensures var s := CreateThread(k, gotMemory);
      && WellFormed(s.k) && Later(k, s.k) && Keeps(k, s.k)
      && (!gotMemory ==> s.k == k && s.out == NOTHREAD)
      && (gotMemory ==>
            && s.out != NOTHREAD && !Has(k.records, s.out)
            && k.next < s.k.next
            && s.k.records == k.records + [NewPtcb(s.out)]
            && IndexOf(s.k.records, s.out) == Some(|k.records|)
            && s.k.active == k.active + 1
            && s.k.joining == k.joining
            && (forall t :: Has(k.records, t) ==> Lookup(s.k.records, t) == Lookup(k.records, t)))
  {
    if gotMemory {
      var s := CreateThread(k, gotMemory);
      var n := NewPtcb(k.next);
      assert !Has(k.records, k.next);
      forall t
        ensures t == n.tid ==> IndexOf(s.k.records, t) == Some(|k.records|)
        ensures t != n.tid ==> IndexOf(s.k.records, t) == IndexOf(k.records, t)
      {
        IndexOfAppend(k.records, n, t);
      }
      RunningAppend(k.records, n);
      RunningSingle(n);
      assert forall i :: 0 <= i < |k.records| ==> s.k.records[i] == k.records[i];
    }
  }

  /**
   * JoinBegin fails (and the call returns -1) exactly when the target is the
   * caller itself, is not in the list, or is not joinable; a failure changes
   * nothing. A success adds one waiter to the target, registers the caller
   * as one more joiner of it, and changes nothing else.
   */
  lemma JoinBeginSound(k: Kernel, me: Tid, tid: Tid)
    requires WellFormed(k)
    ensures var s := JoinBegin(k, me, tid);
      && WellFormed(s.k) && Later(k, s.k) && Keeps(k, s.k)
      && (s.out <==> me != tid && Has(k.records, tid) && Lookup(k.records, tid).joinable)
      && (!s.out ==> s.k == k)
      && (s.out ==>
            && s.k.next == k.next && s.k.active == k.active
            && s.k.joining == k.joining + multiset{tid}
            && (forall t :: Has(s.k.records, t) <==> Has(k.records, t))
            && Lookup(s.k.records, tid) == Lookup(k.records, tid).(waiters := Lookup(k.records, tid).waiters + 1)
            && (forall t :: Has(k.records, t) && t != tid ==> Lookup(s.k.records, t) == Lookup(k.records, t)))
  {
    var s := JoinBegin(k, me, tid);
    if me != tid && Has(k.records, tid) && Lookup(k.records, tid).joinable {
      var i := IndexOf(k.records, tid).value;
      var r := k.records[i];
      var r' := r.(waiters := r.waiters + 1);
      RunningSingle(r);
      RunningSingle(r');
      ReplaceSound(k, i, r', k.active, k.joining + multiset{tid});
      assert s.k == Kernel(k.next, k.records[i := r'], k.active, k.joining + multiset{tid});
    } else {
      LaterReflexive(k);
    }
  }

  /**
   * JoinFinish hands the joiner the exit value stored in the target and
   * takes one waiter, and that joiner's registration, away; the record is
   * released exactly when no waiter is left, and then its tid is no longer
   * found, so any later Join on it fails.
   */
  lemma JoinFinishSound(k: Kernel, tid: Tid)
    requires WellFormed(k) && CanFinishJoin(k, tid)
    ensures var s := JoinFinish(k, tid);
      && WellFormed(s.k) && Later(k, s.k)
      && s.out == Lookup(k.records, tid).exitval
      && s.k.next == k.next && s.k.active == k.active
      && s.k.joining == k.joining - multiset{tid}
      && (Has(s.k.records, tid) <==> Lookup(k.records, tid).waiters > 1)
      && (Has(s.k.records, tid) ==>
            Lookup(s.k.records, tid) == Lookup(k.records, tid).(waiters := Lookup(k.records, tid).waiters - 1))
      && (forall t :: t != tid ==> (Has(s.k.records, t) <==> Has(k.records, t)))
      && (forall t :: t != tid && Has(k.records, t) ==> Lookup(s.k.records, t) == Lookup(k.records, t))
  {
    var s := JoinFinish(k, tid);
    var i := IndexOf(k.records, tid).value;
    var r := k.records[i];
    var r' := r.(waiters := r.waiters - 1);
    var joining := k.joining - multiset{tid};
    RegisteredJoinerKeepsRecord(k, tid);
    if r'.waiters <= 0 {
      RemoveSound(k, i, joining);
      assert s.k == Kernel(k.next, Remove(k.records, i), k.active, joining);
    } else {
      RunningSingle(r);
      RunningSingle(r');
      ReplaceSound(k, i, r', k.active, joining);
      assert s.k == Kernel(k.next, k.records[i := r'], k.active, joining);
    }
  }

  /**
   * Detach follows the kernel's rules: detaching oneself succeeds; otherwise
   * it fails while fewer than two threads are active; otherwise it succeeds
   * on a listed record that has not exited and fails on anything else. A
   * success marks exactly the target non-joinable; a failure changes
   * nothing; no record loses or gains anything but joinability.
   */
  lemma DetachSound(k: Kernel, me: Tid, tid: Tid)
    requires WellFormed(k) && Runs(k, me)
    ensures var s := Detach(k, me, tid);
      && WellFormed(s.k) && Later(k, s.k) && Keeps(k, s.k)
      && (s.out == 0 || s.out == -1)
      && (s.out == 0 <==>
            me == tid || (k.active >= 2 && Has(k.records, tid) && !Lookup(k.records, tid).exited))
      && (s.out == -1 ==> s.k == k)
      && s.k.next == k.next && s.k.active == k.active && s.k.joining == k.joining
      && (forall t :: Has(s.k.records, t) <==> Has(k.records, t))
      && (s.out == 0 ==> Lookup(s.k.records, tid) == Lookup(k.records, tid).(joinable := false))
      && (forall t :: Has(k.records, t) && t != tid ==> Lookup(s.k.records, t) == Lookup(k.records, t))
  {
    var s := Detach(k, me, tid);
    if s.out == 0 {
      var i := IndexOf(k.records, tid).value;
      var r := k.records[i];
      RunningSingle(r);
      RunningSingle(r.(joinable := false));
      ReplaceSound(k, i, r.(joinable := false), k.active, k.joining);
    }
  }

  /**
   * Exit stores the exit value in the caller's record, clears its TCB link
   * and marks it exited; `active_threads` drops by one, and the process
   * terminates with status `v` exactly when that leaves no active thread,
   * which is exactly when the caller was the last thread still running.
   */
  lemma ExitSound(k: Kernel, me: Tid, v: int)
    requires WellFormed(k) && Runs(k, me)
    ensures var s := Exit(k, me, v);
      && WellFormed(s.k) && Later(k, s.k) && Keeps(k, s.k)
      && Lookup(s.k.records, me) == Lookup(k.records, me).(exitval := v, running := false, exited := true)
      && (forall t :: Has(k.records, t) && t != me ==> Lookup(s.k.records, t) == Lookup(k.records, t))
      && s.k.next == k.next && s.k.active == k.active - 1 && s.k.joining == k.joining
      && (s.out == ProcessExit(v) <==> s.k.active <= 0)
      && (s.out == ProcessExit(v) <==> Running(k.records) == 1)
      && (s.out.Parked? <==> s.k.active > 0)
  {
    var i := IndexOf(k.records, me).value;
    var r := k.records[i];
    var r' := r.(exitval := v, running := false, exited := true);
    RunningSingle(r);
    RunningSingle(r');
    ReplaceSound(k, i, r', k.active - 1, k.joining);
  }

  // ----- what the calls promise together -----

  /**
   * Join delivers the value the target's Exit stored: once a record has
   * exited with value `v`, whatever calls follow, a joiner that finishes on
   * it receives `v`.
   */
  lemma JoinDeliversExitValue(k: Kernel, me: Tid, v: int, k': Kernel)
    requires WellFormed(k) && Runs(k, me)
    requires Later(Exit(k, me, v).k, k') && CanFinishJoin(k', me)
    ensures JoinFinish(k', me).out == v
  {
  }

  /** A record that JoinFinish released is never found again, whatever calls follow. */
  lemma ReapedStaysGone(k: Kernel, tid: Tid, k': Kernel)
    requires WellFormed(k) && CanFinishJoin(k, tid)
    requires !Has(JoinFinish(k, tid).k.records, tid)
    requires Later(JoinFinish(k, tid).k, k')
    ensures !Has(k'.records, tid)
  {
  }

  /**
   * The tid counter never hands out a tid again: whatever calls follow a
   * state, CreateThread returns none of the tids issued before it, in
   * particular none of a record that was released.
   */
  lemma IssuedTidsNeverReturn(k: Kernel, k': Kernel, t: Tid)
    requires Later(k, k') && t < k.next
    ensures CreateThread(k', true).out != t
  {
  }

  /** Join on a tid that is not in the list fails; together with ReapedStaysGone, Join on a reaped tid fails. */
  lemma JoinUnknownFails(k: Kernel, me: Tid, tid: Tid)
    requires !Has(k.records, tid)
    ensures JoinBegin(k, me, tid) == Step(k, false)
  {
  }

  /** A thread can never join itself. */
  lemma JoinSelfFails(k: Kernel, me: Tid)
    ensures JoinBegin(k, me, me) == Step(k, false)
  {
  }

  /**
   * After a successful Detach of `tid`, whatever calls follow, every Join on
   * `tid` fails and changes nothing.
   */
  lemma DetachThenJoinFails(k: Kernel, me: Tid, tid: Tid, k': Kernel, joiner: Tid)
    requires WellFormed(k) && Runs(k, me)
    requires Detach(k, me, tid).out == 0
    requires Later(Detach(k, me, tid).k, k')
    ensures JoinBegin(k', joiner, tid) == Step(k', false)
  {
    DetachSound(k, me, tid);
    if Has(k'.records, tid) {
      assert !Lookup(k'.records, tid).joinable;
    }
  }

  /**
   * A joiner that registered on `tid` and has not finished finds the
   * target's record still in the list, with a `wt_counter` that counts it:
   * no call releases a record while a joiner on it is pending.
   */
  lemma RegisteredJoinerKeepsRecord(k: Kernel, tid: Tid)
    requires WellFormed(k) && tid in k.joining
    ensures Has(k.records, tid)
    ensures Lookup(k.records, tid).waiters == k.joining[tid] >= 1
  {
    WaitersCount(k.records, tid);
  }

  /**
   * Create, exit, join: a thread created by CreateThread that exits with `v`
   * is joined by another running thread, which receives `v`; that join was
   * the only one, so the record is released and a second Join fails.
   */
  lemma CreateExitJoin(k: Kernel, me: Tid, v: int)
    requires WellFormed(k) && Runs(k, me)
    ensures var c := CreateThread(k, true);
      var t := c.out;
      Runs(c.k, t) && me != t &&
      var e := Exit(c.k, t, v);
      var b := JoinBegin(e.k, me, t);
      b.out && CanFinishJoin(b.k, t) && JoinFinish(b.k, t).out == v
      && JoinBegin(JoinFinish(b.k, t).k, me, t) == Step(JoinFinish(b.k, t).k, false)
  {
    var c := CreateThread(k, true);
    var t := c.out;
    CreateThreadSound(k, true);
    assert Lookup(c.k.records, t) == NewPtcb(t);
    ExitSound(c.k, t, v);
    var e := Exit(c.k, t, v);
    assert me != t;
    JoinBeginSound(e.k, me, t);
    var b := JoinBegin(e.k, me, t);
    JoinFinishSound(b.k, t);
  }
}
