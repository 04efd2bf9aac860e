/** The monitor that lets one sidecar update run at a time and prefers compactions to reindexing,
    with its condition variable, in every interleaving of its threads. */
module SidecarQueue {
  import opened Events

  datatype Kind = Compaction | Reindex

  /** A waiting thread sleeps on the condition variable or is on its way to look again. */
  datatype Thread = Outside | Waiting(kind: Kind, asleep: bool) | Holding(kind: Kind)

  /** The fields behind the mutex, and where each thread is. */
  datatype State = State(active: bool, pendingCompactions: nat, threads: seq<Thread>)

  datatype Step = Acquire(t: nat, kind: Kind) | LookAgain(t: nat) | Drop(t: nat) | SpuriousWakeup(t: nat)

  predicate MustWait(active: bool, pendingCompactions: nat, kind: Kind) {
    active || (kind == Reindex && pendingCompactions > 0)
  }

  /** The test of the wait loop and what follows when it fails, in one critical section. */
  function Look(s: State, t: nat, kind: Kind): State
    requires t < |s.threads| && (kind == Compaction ==> s.pendingCompactions > 0)
  {
    if MustWait(s.active, s.pendingCompactions, kind) then s.(threads := s.threads[t := Waiting(kind, true)])
    else State(true, if kind == Compaction then s.pendingCompactions - 1 else s.pendingCompactions, s.threads[t := Holding(kind)])
  }

  function Woken(thread: Thread): Thread {
    if thread.Waiting? then Waiting(thread.kind, false) else thread
  }

  function WakeAll(threads: seq<Thread>): seq<Thread> {
    seq(|threads|, i requires 0 <= i < |threads| => Woken(threads[i]))
  }

  function Next(s: State, step: Step): Option<State> {
    if step.t >= |s.threads| then None
    else
      match (step, s.threads[step.t])
      case (Acquire(t, kind), Outside) =>
        Some(Look(if kind == Compaction then s.(pendingCompactions := s.pendingCompactions + 1) else s, t, kind))
      case (LookAgain(t), Waiting(kind, asleep)) =>
        if asleep || (kind == Compaction && s.pendingCompactions == 0) then None else Some(Look(s, t, kind))
      case (SpuriousWakeup(t), Waiting(kind, _)) => Some(s.(threads := s.threads[t := Waiting(kind, false)]))
      case (Drop(t), Holding(_)) => Some(s.(active := false, threads := WakeAll(s.threads[t := Outside])))
      case _ => None
  }

  function After(s: State, steps: seq<Step>): Option<State> {
    if steps == [] then Some(s)
    else
      var before := After(s, steps[..|steps| - 1]);
      if before.None? then None else Next(before.value, steps[|steps| - 1])
  }

  function Start(threads: nat): State {
    State(false, 0, seq(threads, _ => Outside))
  }

  // ----- the critical sections -----

  /** The fields behind the mutex. Each method is what a thread does between taking the mutex and
      leaving it, by return or by waiting; `threads` records where the threads then are. */
  class SidecarUpdateQueue {
    var active: bool
    var pendingCompactions: nat
    ghost var threads: seq<Thread>

    ghost function View(): State
      reads this
    {
      State(active, pendingCompactions, threads)
    }

    constructor (ghost count: nat)
      ensures View() == Start(count)
    {
      active, pendingCompactions, threads := false, 0, Start(count).threads;
    }

    /** The first look of a thread that wants the guard. */
    method Acquire(ghost t: nat, kind: Kind) returns (acquired: bool)
      requires t < |threads| && threads[t] == Outside
      modifies this
      ensures Next(old(View()), Step.Acquire(t, kind)) == Some(View())
      ensures threads[t] == if acquired then Holding(kind) else Waiting(kind, true)
    {
      if kind == Compaction {
        pendingCompactions := pendingCompactions + 1;
      }
      acquired := TakeUnlessBusy(t, kind);
    }

    /** The look of a thread that was woken. */
    method LookAgain(ghost t: nat, kind: Kind) returns (acquired: bool)
      requires t < |threads| && threads[t] == Waiting(kind, false) && (kind == Compaction ==> pendingCompactions > 0)
      modifies this
      ensures Next(old(View()), Step.LookAgain(t)) == Some(View())
      ensures threads[t] == if acquired then Holding(kind) else Waiting(kind, true)
    {
      acquired := TakeUnlessBusy(t, kind);
    }

    method TakeUnlessBusy(ghost t: nat, kind: Kind) returns (acquired: bool)
      requires t < |threads| && (kind == Compaction ==> pendingCompactions > 0)
      modifies this
      ensures View() == Look(old(View()), t, kind)
      ensures acquired == !old(MustWait(active, pendingCompactions, kind))
    {
      if active || (kind == Reindex && pendingCompactions > 0) {
        threads := threads[t := Waiting(kind, true)];
        return false;
      }
      if kind == Compaction {
        pendingCompactions := pendingCompactions - 1;
      }
      active := true;
      threads := threads[t := Holding(kind)];
      acquired := true;
    }

    /** Giving the guard back wakes every sleeping thread. */
    method Drop(ghost t: nat)
      requires t < |threads| && threads[t].Holding?
      modifies this
      ensures Next(old(View()), Step.Drop(t)) == Some(View())
    {
      active := false;
      threads := WakeAll(threads[t := Outside]);
    }
  }

  // ----- the invariant -----

  predicate IsWaiting(thread: Thread, kind: Kind) {
    thread.Waiting? && thread.kind == kind
  }

  function WaitingCompactions(threads: seq<Thread>): nat {
    if threads == [] then 0
    else WaitingCompactions(threads[..|threads| - 1]) + (if IsWaiting(threads[|threads| - 1], Compaction) then 1 else 0)
  }

  lemma {:induction false} WaitingCompactionsUpdate(threads: seq<Thread>, t: nat, thread: Thread)
    requires t < |threads|
    ensures WaitingCompactions(threads[t := thread]) + (if IsWaiting(threads[t], Compaction) then 1 else 0)
      == WaitingCompactions(threads) + (if IsWaiting(thread, Compaction) then 1 else 0)
  {
    var n := |threads| - 1;
    if t < n {
      WaitingCompactionsUpdate(threads[..n], t, thread);
      assert threads[t := thread][..n] == threads[..n][t := thread];
    } else {
      assert threads[t := thread][..n] == threads[..n];
    }
  }

  lemma {:induction false} WaitingCompactionsAwake(threads: seq<Thread>)
    ensures WaitingCompactions(WakeAll(threads)) == WaitingCompactions(threads)
  {
    if threads != [] {
      var n := |threads| - 1;
      WaitingCompactionsAwake(threads[..n]);
      assert WakeAll(threads)[..n] == WakeAll(threads[..n]);
    }
  }

  lemma {:induction false} NoWaitingCompactions(threads: seq<Thread>)
    requires forall t :: 0 <= t < |threads| ==> !IsWaiting(threads[t], Compaction)
    ensures WaitingCompactions(threads) == 0
  {
    if threads != [] {
      NoWaitingCompactions(threads[..|threads| - 1]);
    }
  }

  lemma {:induction false} SomeWaitingCompaction(threads: seq<Thread>) returns (t: nat)
    requires WaitingCompactions(threads) > 0
    ensures t < |threads| && IsWaiting(threads[t], Compaction)
  {
    t := |threads| - 1;
    if !IsWaiting(threads[t], Compaction) {
      t := SomeWaitingCompaction(threads[..t]);
    }
  }

  ghost predicate OneGuard(s: State) {
    && (s.active <==> exists t :: 0 <= t < |s.threads| && s.threads[t].Holding?)
    && forall t, u :: 0 <= t < |s.threads| && 0 <= u < |s.threads| && s.threads[t].Holding? && s.threads[u].Holding? ==> t == u
  }

  /** No thread sleeps that could go on. */
  ghost predicate NoLostWakeup(s: State) {
    forall t :: 0 <= t < |s.threads| && s.threads[t].Waiting? && s.threads[t].asleep ==>
      MustWait(s.active, s.pendingCompactions, s.threads[t].kind)
  }

  ghost predicate Inv(s: State) {
    OneGuard(s) && s.pendingCompactions == WaitingCompactions(s.threads) && NoLostWakeup(s)
  }

  lemma LookKeeps(s: State, t: nat, kind: Kind, before: State)
    requires Inv(before) && t < |before.threads| && (before.threads[t] == Outside || IsWaiting(before.threads[t], kind))
    requires s == before.(pendingCompactions := before.pendingCompactions + if kind == Compaction && before.threads[t] == Outside then 1 else 0)
    requires kind == Compaction ==> s.pendingCompactions > 0
    ensures Inv(Look(s, t, kind))
  {
    hide WaitingCompactions;
    var after := Look(s, t, kind);
    WaitingCompactionsUpdate(before.threads, t, after.threads[t]);
    assert forall u :: 0 <= u < |s.threads| && u != t ==> after.threads[u] == s.threads[u];
  }

  lemma DropKeeps(s: State, t: nat)
    requires Inv(s) && t < |s.threads| && s.threads[t].Holding?
    ensures Inv(s.(active := false, threads := WakeAll(s.threads[t := Outside])))
  {
    hide WaitingCompactions;
    WaitingCompactionsUpdate(s.threads, t, Outside);
    WaitingCompactionsAwake(s.threads[t := Outside]);
  }

  lemma NextKeeps(s: State, step: Step)
    requires Inv(s) && Next(s, step).Some?
    ensures Inv(Next(s, step).value)
  {
    var t := step.t;
    match step
    case Acquire(_, kind) =>
      hide WaitingCompactions, OneGuard, NoLostWakeup, Look;
      LookKeeps(if kind == Compaction then s.(pendingCompactions := s.pendingCompactions + 1) else s, t, kind, s);
    case LookAgain(_) =>
      hide WaitingCompactions, OneGuard, NoLostWakeup, Look;
      LookKeeps(s, t, s.threads[t].kind, s);
    case SpuriousWakeup(_) =>
      hide WaitingCompactions;
      var after := Next(s, step).value;
      WaitingCompactionsUpdate(s.threads, t, after.threads[t]);
      assert forall u :: 0 <= u < |s.threads| && u != t ==> after.threads[u] == s.threads[u];
    case Drop(_) =>
      hide WaitingCompactions, OneGuard, NoLostWakeup;
      DropKeeps(s, t);
  }

  lemma {:induction false} EveryRunKeepsInvariant(threads: nat, steps: seq<Step>)
    requires After(Start(threads), steps).Some?
    ensures Inv(After(Start(threads), steps).value)
  {
    if steps == [] {
      NoWaitingCompactions(Start(threads).threads);
    } else {
      var init := steps[..|steps| - 1];
      EveryRunKeepsInvariant(threads, init);
      hide Inv, Next;
      NextKeeps(After(Start(threads), init).value, steps[|steps| - 1]);
    }
  }

  // ----- what it means -----

  /** In every reachable state at most one guard is live, the flag says so, and the counter is the
      number of waiting compactions. */
  lemma AtMostOneGuard(threads: nat, steps: seq<Step>)
    requires After(Start(threads), steps).Some?
    ensures OneGuard(After(Start(threads), steps).value)
    ensures After(Start(threads), steps).value.pendingCompactions == WaitingCompactions(After(Start(threads), steps).value.threads)
  {
    EveryRunKeepsInvariant(threads, steps);
  }

  /** A reindex gets the guard only while no compaction waits and no guard is live. */
  lemma ReindexYields(threads: nat, steps: seq<Step>, step: Step)
    requires After(Start(threads), steps).Some? && Next(After(Start(threads), steps).value, step).Some?
    requires var s := After(Start(threads), steps).value;
      Next(s, step).value.threads[step.t] == Holding(Reindex)
    ensures var s := After(Start(threads), steps).value;
      !s.active && forall t :: 0 <= t < |s.threads| ==> !IsWaiting(s.threads[t], Compaction) && !s.threads[t].Holding?
  {
    EveryRunKeepsInvariant(threads, steps);
    hide After;
    var s := After(Start(threads), steps).value;
    if t: nat :| t < |s.threads| && IsWaiting(s.threads[t], Compaction) {
      WaitingCompactionsUpdate(s.threads, t, Outside);
    }
  }

  /** Whenever no guard is live and threads wait, one of them is awake and gets the guard as soon
      as it looks again; a compaction, if one waits. */
  lemma SomeWaiterCanGoOn(threads: nat, steps: seq<Step>, waiter: nat) returns (t: nat)
    requires After(Start(threads), steps).Some?
    requires var s := After(Start(threads), steps).value;
      !s.active && waiter < |s.threads| && s.threads[waiter].Waiting?
    ensures var s := After(Start(threads), steps).value;
      && t < |s.threads| && s.threads[t].Waiting? && Next(s, LookAgain(t)).Some?
      && Next(s, LookAgain(t)).value.threads[t] == Holding(s.threads[t].kind)
      && (s.pendingCompactions > 0 ==> s.threads[t].kind == Compaction)
  {
    EveryRunKeepsInvariant(threads, steps);
    hide After;
    var s := After(Start(threads), steps).value;
    t := waiter;
    if s.pendingCompactions > 0 {
      t := SomeWaitingCompaction(s.threads);
    } else if s.threads[t].kind == Compaction {
      WaitingCompactionsUpdate(s.threads, t, Outside);
    }
  }
}
