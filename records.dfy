/**
 * Thread records (PTCBs) of one process, the lookup by tid that the kernel
 * performs by walking the process's record list, and the invariant that the
 * bookkeeping state keeps.
 */
module Records {

  /** Thread ids (`Tid_t`); unbounded here. */
  type Tid = int

  /** The sentinel CreateThread returns when no record could be allocated. */
  const NOTHREAD: Tid := 0

  /** The first value the tid counter hands out. */
  const FIRST_TID: Tid := 2

  datatype Option<T> = None | Some(value: T)

  /**
   * One thread record. `waiters` is the kernel's `wt_counter`; `running`
   * stands for the record's link to its TCB, which is set at creation and
   * cleared when the thread exits.
   */
  datatype Ptcb = Ptcb(
    tid: Tid,
    joinable: bool,
    exited: bool,
    exitval: int,
    waiters: int,
    running: bool)

  /**
   * The record CreateThread initialises for tid `t`. The kernel leaves
   * `exitval` uninitialised; nothing reads it before the thread exits.
   */
  function NewPtcb(t: Tid): Ptcb {
    Ptcb(tid := t, joinable := true, exited := false, exitval := 0, waiters := 0, running := true)
  }

  /**
   * The position of the first record with tid `tid`, scanning the list from
   * its head as the kernel does, or None when no record carries that tid.
   */
  function IndexOf(recs: seq<Ptcb>, tid: Tid): (r: Option<nat>)
    ensures r.Some? ==> r.value < |recs| && recs[r.value].tid == tid
    ensures r.Some? ==> forall j :: 0 <= j < r.value ==> recs[j].tid != tid
    ensures r.None? ==> forall j :: 0 <= j < |recs| ==> recs[j].tid != tid
  {
    if |recs| == 0 then None
    else if recs[0].tid == tid then Some(0)
    else
      match IndexOf(recs[1..], tid)
      case None =>
        assert forall j :: 1 <= j < |recs| ==> recs[j] == recs[1..][j - 1];
        None
      case Some(j) =>
        assert forall i :: 1 <= i < j + 1 ==> recs[i] == recs[1..][i - 1];
        Some(j + 1)
  }

  predicate Has(recs: seq<Ptcb>, tid: Tid) {
    IndexOf(recs, tid).Some?
  }

  /** The record with tid `tid`. */
  function Lookup(recs: seq<Ptcb>, tid: Tid): Ptcb
    requires Has(recs, tid)
  {
    recs[IndexOf(recs, tid).value]
  }

  /** `rlist_remove`: the list without the record at position `i`. */
  function Remove(recs: seq<Ptcb>, i: nat): (r: seq<Ptcb>)
    requires i < |recs|
    ensures |r| == |recs| - 1
    ensures multiset(r) + multiset{recs[i]} == multiset(recs)
  {
    assert recs == recs[..i] + [recs[i]] + recs[i + 1..];
    recs[..i] + recs[i + 1..]
  }

  predicate UniqueTids(recs: seq<Ptcb>) {
    forall i, j :: 0 <= i < j < |recs| ==> recs[i].tid != recs[j].tid
  }

  /** The number of records whose thread has not exited. */
  function Running(recs: seq<Ptcb>): (n: nat)
    ensures n <= |recs|
  {
    if |recs| == 0 then 0
    else Running(recs[..|recs| - 1]) + (if recs[|recs| - 1].exited then 0 else 1)
  }

  /** The joiners one record counts on tid `t`: its `wt_counter` if it carries `t`. */
  function Own(r: Ptcb, t: Tid): int {
    if r.tid == t then r.waiters else 0
  }

  /** The joiners the records count on tid `t`. */
  function Waiters(recs: seq<Ptcb>, t: Tid): int {
    if |recs| == 0 then 0
    else Waiters(recs[..|recs| - 1], t) + Own(recs[|recs| - 1], t)
  }

  /**
   * The bookkeeping state the lifecycle calls work on: the global tid
   * counter of `idgen`, one process's record list in insertion order, that
   * process's `active_threads`, and `joining`, the targets of the joiners
   * that registered in `sys_ThreadJoin` and have not yet left it (one
   * occurrence of a tid per joiner blocked on, or about to finish on, it).
   */
  datatype Kernel = Kernel(next: Tid, records: seq<Ptcb>, active: int, joining: multiset<Tid>)

  /** A record on its own: a non-negative waiter count, and a TCB link exactly while not exited. */
  predicate Sound(r: Ptcb) {
    r.waiters >= 0 && (r.running <==> !r.exited)
  }

  /**
   * The invariant: every tid in the list was issued by the counter (so it is
   * at least FIRST_TID and below the next one to be issued), tids are unique,
   * each record is sound, `active_threads` counts the records whose thread
   * has not exited, and the registered joiners are exactly those the
   * records' `wt_counter`s count.
   */
  ghost predicate WellFormed(k: Kernel) {
    && FIRST_TID <= k.next
    && (forall i :: 0 <= i < |k.records| ==> FIRST_TID <= k.records[i].tid < k.next)
    && (forall i :: 0 <= i < |k.records| ==> Sound(k.records[i]))
    && UniqueTids(k.records)
    && k.active == Running(k.records)
    && (forall t :: k.joining[t] == Waiters(k.records, t))
  }

  /** `me` is the tid of a thread of the process that is still running: a possible caller. */
  predicate Runs(k: Kernel, me: Tid) {
    Has(k.records, me) && !Lookup(k.records, me).exited
  }

  // ----- lookup after the list changes -----

  /** With unique tids, the record that carries `tid` is the one IndexOf finds. */
  lemma IndexOfUnique(recs: seq<Ptcb>, i: nat)
    requires UniqueTids(recs) && i < |recs|
    ensures IndexOf(recs, recs[i].tid) == Some(i)
  {
  }

  /** Lookup depends only on the tids, position by position. */
  lemma IndexOfSameTids(a: seq<Ptcb>, b: seq<Ptcb>, tid: Tid)
    requires |a| == |b|
    requires forall j :: 0 <= j < |a| ==> a[j].tid == b[j].tid
    ensures IndexOf(a, tid) == IndexOf(b, tid)
  {
  }

  /** Changing a record's fields other than its tid leaves every lookup where it was. */
  lemma IndexOfUpdate(recs: seq<Ptcb>, i: nat, r: Ptcb, tid: Tid)
    requires i < |recs| && r.tid == recs[i].tid
    ensures IndexOf(recs[i := r], tid) == IndexOf(recs, tid)
  {
    IndexOfSameTids(recs[i := r], recs, tid);
  }

  /** Appending a record with a tid not yet in the list: old lookups stay, the new tid is found at the end. */
  lemma IndexOfAppend(recs: seq<Ptcb>, r: Ptcb, tid: Tid)
    requires !Has(recs, r.tid)
    ensures tid == r.tid ==> IndexOf(recs + [r], tid) == Some(|recs|)
    ensures tid != r.tid ==> IndexOf(recs + [r], tid) == IndexOf(recs, tid)
  {
    var s := recs + [r];
    var o := IndexOf(s, tid);
    if tid == r.tid {
      assert s[|recs|].tid == tid;
    } else {
      match IndexOf(recs, tid)
      case None =>
        assert forall j :: 0 <= j < |recs| ==> s[j] == recs[j];
      case Some(j) =>
        assert s[j] == recs[j];
        assert forall m :: 0 <= m < |recs| ==> s[m] == recs[m];
    }
  }

  /**
   * Removing the record at position `i` of a list with unique tids: its tid
   * is no longer found, and every other tid names the same record as before.
   */
  lemma RemoveLookup(recs: seq<Ptcb>, i: nat, tid: Tid)
    requires UniqueTids(recs) && i < |recs|
    ensures UniqueTids(Remove(recs, i))
    ensures tid == recs[i].tid ==> !Has(Remove(recs, i), tid)
    ensures tid != recs[i].tid ==> (Has(Remove(recs, i), tid) <==> Has(recs, tid))
    ensures tid != recs[i].tid && Has(recs, tid) ==> Lookup(Remove(recs, i), tid) == Lookup(recs, tid)
  {
    var s := Remove(recs, i);
    assert forall j :: 0 <= j < |s| ==> s[j] == recs[if j < i then j else j + 1];
    if Has(s, tid) {
      var j := IndexOf(s, tid).value;
      var k := if j < i then j else j + 1;
      IndexOfUnique(recs, k);
    }
    if Has(recs, tid) && tid != recs[i].tid {
      var k := IndexOf(recs, tid).value;
      var j := if k < i then k else k - 1;
      assert s[j] == recs[k];
    }
  }

  // ----- counting running records -----

  lemma {:induction false} RunningConcat(a: seq<Ptcb>, b: seq<Ptcb>)
    ensures Running(a + b) == Running(a) + Running(b)
    decreases |b|
  {
    if |b| > 0 {
      assert (a + b)[..|a + b| - 1] == a + b[..|b| - 1];
      RunningConcat(a, b[..|b| - 1]);
    } else {
      assert a + b == a;
    }
  }

  lemma RunningSingle(r: Ptcb)
    ensures Running([r]) == if r.exited then 0 else 1
  {
  }

  /** Splitting the list around position `i`. */
  lemma RunningAt(recs: seq<Ptcb>, i: nat)
    requires i < |recs|
    ensures Running(recs) == Running(recs[..i]) + Running([recs[i]]) + Running(recs[i + 1..])
  {
    var front, back := recs[..i], recs[i + 1..];
    assert recs == (front + [recs[i]]) + back;
    RunningConcat(front + [recs[i]], back);
    RunningConcat(front, [recs[i]]);
  }

  /** Replacing one record changes the count only by that record's own contribution. */
  lemma RunningUpdate(recs: seq<Ptcb>, i: nat, r: Ptcb)
    requires i < |recs|
    ensures Running(recs[i := r]) == Running(recs) - Running([recs[i]]) + Running([r])
  {
    var s := recs[i := r];
    RunningAt(recs, i);
    RunningAt(s, i);
    assert s[..i] == recs[..i] && s[i + 1..] == recs[i + 1..];
  }

  /** Removing a record takes its own contribution out of the count. */
  lemma RunningRemove(recs: seq<Ptcb>, i: nat)
    requires i < |recs|
    ensures Running(Remove(recs, i)) == Running(recs) - Running([recs[i]])
  {
    RunningAt(recs, i);
    RunningConcat(recs[..i], recs[i + 1..]);
  }

  lemma RunningAppend(recs: seq<Ptcb>, r: Ptcb)
    ensures Running(recs + [r]) == Running(recs) + Running([r])
  {
    RunningConcat(recs, [r]);
  }

  // ----- counting registered joiners -----

  lemma {:induction false} WaitersConcat(a: seq<Ptcb>, b: seq<Ptcb>, t: Tid)
    ensures Waiters(a + b, t) == Waiters(a, t) + Waiters(b, t)
    decreases |b|
  {
    if |b| > 0 {
      assert (a + b)[..|a + b| - 1] == a + b[..|b| - 1];
      WaitersConcat(a, b[..|b| - 1], t);
    } else {
      assert a + b == a;
    }
  }

  lemma WaitersSingle(r: Ptcb, t: Tid)
    ensures Waiters([r], t) == Own(r, t)
  {
    assert [r][..0] == [];
  }

  /** Splitting the list around position `i`. */
  lemma WaitersAt(recs: seq<Ptcb>, i: nat, t: Tid)
    requires i < |recs|
    ensures Waiters(recs, t) == Waiters(recs[..i], t) + Own(recs[i], t) + Waiters(recs[i + 1..], t)
  {
    var front, back := recs[..i], recs[i + 1..];
    assert recs == (front + [recs[i]]) + back;
    WaitersConcat(front + [recs[i]], back, t);
    WaitersConcat(front, [recs[i]], t);
    WaitersSingle(recs[i], t);
  }

  /** Replacing one record changes the joiners counted only by that record's own. */
  lemma WaitersUpdate(recs: seq<Ptcb>, i: nat, r: Ptcb, t: Tid)
    requires i < |recs|
    ensures Waiters(recs[i := r], t) == Waiters(recs, t) - Own(recs[i], t) + Own(r, t)
  {
    var s := recs[i := r];
    WaitersAt(recs, i, t);
    WaitersAt(s, i, t);
    assert s[..i] == recs[..i] && s[i + 1..] == recs[i + 1..];
  }

  /** Removing a record takes its own joiners out of the count. */
  lemma WaitersRemove(recs: seq<Ptcb>, i: nat, t: Tid)
    requires i < |recs|
    ensures Waiters(Remove(recs, i), t) == Waiters(recs, t) - Own(recs[i], t)
  {
    WaitersAt(recs, i, t);
    WaitersConcat(recs[..i], recs[i + 1..], t);
  }

  lemma WaitersAppend(recs: seq<Ptcb>, r: Ptcb, t: Tid)
    ensures Waiters(recs + [r], t) == Waiters(recs, t) + Own(r, t)
  {
    WaitersConcat(recs, [r], t);
    WaitersSingle(r, t);
  }

  /**
   * With unique tids, the joiners counted on a tid are those of the record
   * that carries it, and none when no record does.
   */
  lemma {:induction false} WaitersCount(recs: seq<Ptcb>, t: Tid)
    requires UniqueTids(recs)
    ensures Has(recs, t) ==> Waiters(recs, t) == Lookup(recs, t).waiters
    ensures !Has(recs, t) ==> Waiters(recs, t) == 0
    decreases |recs|
  {
    if |recs| > 0 {
      var front, last := recs[..|recs| - 1], recs[|recs| - 1];
      assert recs == front + [last];
      WaitersCount(front, t);
      WaitersCount(front, last.tid);
      IndexOfAppend(front, last, t);
    }
  }
}
