/**
 * The lifecycle calls as the kernel runs them: the tid counter and a
 * process's bookkeeping are objects updated in place, the record list is
 * walked with loops, and each call is one method (the kernel lock makes
 * every call atomic). Each method is proved to do what the matching step of
 * module Lifecycle describes, and to keep the invariant WellFormed.
 */
module KernelThreads {
  import opened Records
  import Lifecycle

  /** The static counter behind `idgen`, one for all processes. */
  class TidAllocator {
    var next: Tid

    constructor ()
      ensures next == FIRST_TID
    {
      next := FIRST_TID;
    }

    /** `idgen`: hand out the counter's value and advance it, so each id is larger than all before it. */
    method Generate() returns (id: Tid)
      modifies this
      ensures id == old(next) && next == id + 1
    {
      id := next;
      next := next + 1;
    }
  }

  /**
   * One process: its record list (`ptcb_list`), `active_threads`, and the
   * targets of the joiners blocked in or leaving `sys_ThreadJoin`. A calling
   * thread is named by the position of its record in the list, which stands
   * for its TCB's `owner_ptcb`.
   */
  class Process {
    const ids: TidAllocator
    var records: seq<Ptcb>
    var active: int
    ghost var joining: multiset<Tid>

    ghost function State(): Kernel
      reads this, ids
    {
      Kernel(ids.next, records, active, joining)
    }

    ghost predicate Valid()
      reads this, ids
    {
      WellFormed(State())
    }

    /** The record at position `caller` is that of a thread still running: a possible caller. */
    ghost predicate IsCaller(caller: nat)
      reads this
    {
      caller < |records| && !records[caller].exited
    }

    /** A process before its first thread is created. */
    constructor (ids: TidAllocator)
      requires FIRST_TID <= ids.next
      ensures Valid() && this.ids == ids && records == [] && active == 0 && joining == multiset{}
    {
      this.ids := ids;
      records := [];
      active := 0;
      joining := multiset{};
    }

    /** The list walk of `sys_ThreadJoin`: the position of the record with tid `tid`, if any. */
    method Find(tid: Tid) returns (o: Option<nat>)
      ensures o == IndexOf(records, tid)
    {
      var i := 0;
      while i < |records|
        invariant 0 <= i <= |records|
        invariant forall j :: 0 <= j < i ==> records[j].tid != tid
      {
        if records[i].tid == tid {
          return Some(i);
        }
        i := i + 1;
      }
      return None;
    }

    /**
     * `sys_ThreadSelf`: the tid in the caller's own record. Looking that tid
     * up finds the caller's record again, and no other.
     */
    method ThreadSelf(caller: nat) returns (t: Tid)
      requires Valid() && IsCaller(caller)
      ensures IndexOf(records, t) == Some(caller) && Runs(State(), t)
    {
      t := records[caller].tid;
      IndexOfUnique(records, caller);
    }

    /** `sys_CreateThread`; `gotMemory` says whether allocating the record succeeded. */
    method CreateThread(gotMemory: bool) returns (t: Tid)
      requires Valid()
      modifies this, ids
      ensures Valid()
      ensures Lifecycle.Step(State(), t) == Lifecycle.CreateThread(old(State()), gotMemory)
    {
      if !gotMemory {
        return NOTHREAD;
      }
      var tid := ids.Generate();
      var p := Ptcb(tid := tid, joinable := true, exited := false, exitval := 0, waiters := 0, running := true);
      records := records + [p];
      active := active + 1;
      t := tid;
      Lifecycle.CreateThreadSound(old(State()), gotMemory);
      assert State() == Lifecycle.CreateThread(old(State()), gotMemory).k;
    }

    /** `release_PTCB`: drop the record at position `i` from the list. */
    method ReleasePtcb(i: nat)
      requires i < |records|
      modifies this
      ensures records == Remove(old(records), i) && active == old(active) && joining == old(joining)
    {
      records := records[..i] + records[i + 1..];
    }

    /**
     * `sys_ThreadJoin` by the thread whose record is at `caller`, up to its
     * wait loop: false is the call's -1; true means the caller is registered
     * as a joiner of `tid`.
     */
    method JoinBegin(caller: nat, tid: Tid) returns (ok: bool)
      requires Valid() && IsCaller(caller)
      modifies this
      ensures Valid()
      ensures Lifecycle.Step(State(), ok) == Lifecycle.JoinBegin(old(State()), old(records[caller].tid), tid)
    {
      var self := ThreadSelf(caller);
      if self == tid {
        return false;
      }
      var o := Find(tid);
      if o.None? {
        return false;
      }
      var i := o.value;
      if !records[i].joinable {
        return false;
      }
      records := records[i := records[i].(waiters := records[i].waiters + 1)];
      joining := joining + multiset{tid};
      ok := true;
      Lifecycle.JoinBeginSound(old(State()), self, tid);
    }

    /**
     * `sys_ThreadJoin` after its wait loop, by a joiner registered on `tid`
     * whose target has exited: returns 0 and the target's exit value.
     */
    method JoinFinish(tid: Tid) returns (code: int, exitval: int)
      requires Valid() && Lifecycle.CanFinishJoin(State(), tid)
      modifies this
      ensures Valid() && code == 0
      ensures Lifecycle.Step(State(), exitval) == Lifecycle.JoinFinish(old(State()), tid)
    {
      var o := Find(tid);
      var i := o.value;
      exitval := records[i].exitval;
      ghost var before := records;
      records := records[i := records[i].(waiters := records[i].waiters - 1)];
      joining := joining - multiset{tid};
      if records[i].waiters <= 0 {
        assert Remove(records, i) == Remove(before, i);
        ReleasePtcb(i);
      }
      code := 0;
      Lifecycle.JoinFinishSound(old(State()), tid);
    }

    /** `sys_ThreadDetach` called by the thread whose record is at `caller`: returns 0 or -1. */
    method Detach(caller: nat, tid: Tid) returns (code: int)
      requires Valid() && IsCaller(caller)
      modifies this
      ensures Valid()
      ensures Lifecycle.Step(State(), code) == Lifecycle.Detach(old(State()), old(records[caller].tid), tid)
    {
      var me := records[caller].tid;
      IndexOfUnique(records, caller);
      if me == tid {
        records := records[caller := records[caller].(joinable := false)];
        Lifecycle.DetachSound(old(State()), me, tid);
        return 0;
      }
      if active < 2 {
        return -1;
      }
      var i := 0;
      while i < |records|
        invariant 0 <= i <= |records|
        invariant records == old(records) && active == old(active)
        invariant forall j :: 0 <= j < i ==> records[j].tid != tid || records[j].exited
      {
        if records[i].tid == tid && !records[i].exited {
          IndexOfUnique(records, i);
          records := records[i := records[i].(joinable := false)];
          Lifecycle.DetachSound(old(State()), me, tid);
          return 0;
        }
        if records[caller].tid == tid {
          // The kernel tests for a self-detach again here; the test above
          // already returned in that case, so this branch is dead.
          assert false;
        }
        i := i + 1;
      }
      Lifecycle.DetachSound(old(State()), me, tid);
      return -1;
    }

    /**
     * `sys_ThreadExit(v)` called by the thread whose record is at `caller`:
     * terminate the process with status `v`, or park.
     */
    method Exit(caller: nat, v: int) returns (outcome: Lifecycle.ExitOutcome)
      requires Valid() && IsCaller(caller)
      modifies this
      ensures Valid()
      ensures Lifecycle.Step(State(), outcome) == Lifecycle.Exit(old(State()), old(records[caller].tid), v)
    {
      ghost var me := records[caller].tid;
      IndexOfUnique(records, caller);
      records := records[caller := records[caller].(exitval := v)];
      records := records[caller := records[caller].(running := false)];
      records := records[caller := records[caller].(exited := true)];
      active := active - 1;
      if active <= 0 {
        outcome := Lifecycle.ProcessExit(v);
      } else {
        outcome := Lifecycle.Parked;
      }
      Lifecycle.ExitSound(old(State()), me, v);
      assert State() == Lifecycle.Exit(old(State()), me, v).k;
    }
  }
}
