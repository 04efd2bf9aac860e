/** What becomes of the pending flag an append sets: exactly when it is bound to be looked at.
    Whether the compaction then takes place is the subject of CompactionFollows. */
module CompactionRequests {
  import opened Events
  import opened Ownership

  /** On the way to look at the pending flag, come what may. */
  predicate AheadOfSwap(pc: Pc) {
    || pc == CompactOwner || pc == CompactLocked || pc == Compacting || pc == CompactFinished || pc == CompactReleased
    || pc == Running || pc == Swapping || pc == Releasing || pc == Reswapping
  }

  /** Owns compaction and will look again only if it rotates the hot file. */
  predicate Prepares(pc: Pc) {
    pc == Preparing || pc == PreparingLocked
  }

  /** Has looked, and will prepare a compaction if the flag is free. */
  predicate Recaptures(pc: Pc) {
    pc == CompactRecapture || pc == Recapturing
  }

  predicate HasAhead(s: State) {
    exists t :: 0 <= t < |s.threads| && AheadOfSwap(s.threads[t])
  }

  predicate HasPreparing(s: State) {
    exists t :: 0 <= t < |s.threads| && Prepares(s.threads[t])
  }

  predicate HasRecapturing(s: State) {
    exists t :: 0 <= t < |s.threads| && Recaptures(s.threads[t])
  }

  /** Some thread will look at the flag: one ahead of a swap or, if rotations do not fail, one that
      prepares a compaction or finds the flag free to do so. */
  predicate WillLook(s: State, failures: bool) {
    HasAhead(s) || (!failures && (HasPreparing(s) || (!s.running && HasRecapturing(s))))
  }

  /** Everything begun has ended. */
  predicate Quiet(s: State) {
    forall t :: 0 <= t < |s.threads| ==> s.threads[t] == Idle || s.threads[t] == Gone
  }

  /** Nothing new begins, and rotations fail only where `failures` allows it. */
  predicate Finishing(schedule: seq<(nat, Move)>, failures: bool) {
    forall i :: 0 <= i < |schedule| ==> schedule[i].1.Continue? && (failures || schedule[i].1.ok)
  }

  /** All threads end, and the flag is still set. */
  predicate LeavesRequest(maxBytes: nat, s: State, finish: seq<(nat, Move)>, failures: bool) {
    Finishing(finish, failures) && After(maxBytes, s, finish).Some? &&
    var end := After(maxBytes, s, finish).value;
    Quiet(end) && end.pending
  }

  // ----- appends that defer are over the limit -----

  /** An append that has found the hot file over the limit. */
  predicate FoundOverLimit(pc: Pc) {
    pc == AppendLocked || pc == AppendOwner || pc == AppendDeferred
  }

  ghost predicate DeferredIsOverLimit(maxBytes: nat, s: State) {
    forall t :: 0 <= t < |s.threads| && FoundOverLimit(s.threads[t]) ==> s.hotBytes > maxBytes
  }

  /** Only the holder of the lock changes the hot file. */
  predicate LockedHotBytes(maxBytes: nat, s: State, t: nat, after: State)
    requires t < |s.threads|
  {
    && (after.hotBytes != s.hotBytes ==> HoldsLock(s.threads[t]) || (s.threads[t] == Idle && s.lock == None))
    && t < |after.threads|
    && (FoundOverLimit(after.threads[t]) ==> after.hotBytes > maxBytes || (FoundOverLimit(s.threads[t]) && after.hotBytes == s.hotBytes))
  }

  lemma AppendLocksHotBytes(maxBytes: nat, s: State, t: nat, move: Move)
    requires t < |s.threads| && AppendStep(maxBytes, s, t, move).Some?
    ensures LockedHotBytes(maxBytes, s, t, AppendStep(maxBytes, s, t, move).value)
  {
  }

  lemma CompactLocksHotBytes(maxBytes: nat, s: State, t: nat, move: Move)
    requires t < |s.threads| && CompactStep(s, t, move).Some?
    ensures LockedHotBytes(maxBytes, s, t, CompactStep(s, t, move).value)
  {
  }

  lemma QueueLocksHotBytes(maxBytes: nat, s: State, t: nat, move: Move)
    requires t < |s.threads| && QueueStep(maxBytes, s, t, move).Some?
    ensures LockedHotBytes(maxBytes, s, t, QueueStep(maxBytes, s, t, move).value)
  {
  }

  lemma HotBytesMove(maxBytes: nat, s: State, t: nat, move: Move)
    requires t < |s.threads| && StepOf(maxBytes, s, t, move).Some?
    ensures LockedHotBytes(maxBytes, s, t, StepOf(maxBytes, s, t, move).value)
  {
    hide AppendStep, CompactStep, QueueStep, LockedHotBytes;
    if AppendStep(maxBytes, s, t, move).Some? {
      AppendLocksHotBytes(maxBytes, s, t, move);
    } else if CompactStep(s, t, move).Some? {
      CompactLocksHotBytes(maxBytes, s, t, move);
    } else {
      QueueLocksHotBytes(maxBytes, s, t, move);
    }
  }

  lemma StepKeepsOverLimit(maxBytes: nat, s: State, t: nat, move: Move)
    requires LockIsHeld(s) && DeferredIsOverLimit(maxBytes, s) && t < |s.threads| && StepOf(maxBytes, s, t, move).Some?
    ensures DeferredIsOverLimit(maxBytes, StepOf(maxBytes, s, t, move).value)
  {
    var pcAfter, spawned := StepMoves(maxBytes, s, t, move);
    HotBytesMove(maxBytes, s, t, move);
    hide StepOf, FlagMoves, LockMoves;
    var after := StepOf(maxBytes, s, t, move).value;
    forall u | 0 <= u < |after.threads| && FoundOverLimit(after.threads[u])
      ensures after.hotBytes > maxBytes
    {
      if u < |s.threads| && u != t {
        assert after.threads[u] == s.threads[u];
        assert HoldsLock(s.threads[u]);
      }
    }
  }

  lemma {:induction false} EveryScheduleKeepsOverLimit(maxBytes: nat, threads: nat, schedule: seq<(nat, Move)>)
    requires After(maxBytes, Start(threads), schedule).Some?
    ensures DeferredIsOverLimit(maxBytes, After(maxBytes, Start(threads), schedule).value)
  {
    if schedule != [] {
      var init, last := schedule[..|schedule| - 1], schedule[|schedule| - 1];
      EveryScheduleKeepsOverLimit(maxBytes, threads, init);
      EveryScheduleKeepsInvariant(maxBytes, threads, init);
      hide StepOf, OneOwner, LockIsHeld, DeferredIsOverLimit;
      StepKeepsOverLimit(maxBytes, After(maxBytes, Start(threads), init).value, last.0, last.1);
    }
  }

  // ----- a request that somebody will look at -----

  /** May still set the flag. */
  predicate Stores(pc: Pc) {
    pc == AppendLocked || pc == AppendDeferred
  }

  ghost predicate Promised(maxBytes: nat, s: State, failures: bool) {
    || HasAhead(s)
    || (!failures && s.hotBytes > maxBytes && (HasPreparing(s) || (!s.running && HasRecapturing(s))))
  }

  ghost predicate Kept(maxBytes: nat, s: State, failures: bool) {
    && Inv(s)
    && (forall t :: 0 <= t < |s.threads| ==> !Stores(s.threads[t]))
    && (s.pending ==> Promised(maxBytes, s, failures))
  }

  lemma PendingMoves(maxBytes: nat, s: State, t: nat, ok: bool)
    requires t < |s.threads| && !Stores(s.threads[t]) && StepOf(maxBytes, s, t, Continue(ok)).Some?
    ensures var after := StepOf(maxBytes, s, t, Continue(ok)).value;
      && t < |after.threads| && !Stores(after.threads[t]) && (after.pending ==> s.pending)
      && (AheadOfSwap(s.threads[t]) && after.pending ==> AheadOfSwap(after.threads[t]))
  {
  }

  lemma PreparingMoves(maxBytes: nat, s: State, t: nat)
    requires t < |s.threads| && Prepares(s.threads[t]) && s.hotBytes > maxBytes && StepOf(maxBytes, s, t, Continue(true)).Some?
    ensures var after := StepOf(maxBytes, s, t, Continue(true)).value;
      t < |after.threads| && (AheadOfSwap(after.threads[t]) || (Prepares(after.threads[t]) && after.hotBytes == s.hotBytes))
  {
  }

  lemma RecaptureMoves(maxBytes: nat, s: State, t: nat, ok: bool)
    requires t < |s.threads| && Recaptures(s.threads[t]) && !s.running && StepOf(maxBytes, s, t, Continue(ok)).Some?
    ensures var after := StepOf(maxBytes, s, t, Continue(ok)).value;
      after.hotBytes == s.hotBytes && HasPreparing(after)
  {
    var after := StepOf(maxBytes, s, t, Continue(ok)).value;
    assert Prepares(after.threads[if s.threads[t] == Recapturing then t else |s.threads|]);
  }

  /** A thread that neither owns compaction nor recaptures it leaves the flag and the file alone. */
  lemma BystanderMoves(maxBytes: nat, s: State, t: nat, ok: bool)
    requires t < |s.threads| && !Owns(s.threads[t]) && !Stores(s.threads[t]) && StepOf(maxBytes, s, t, Continue(ok)).Some?
    ensures var after := StepOf(maxBytes, s, t, Continue(ok)).value;
      && after.hotBytes == s.hotBytes
      && (!Recaptures(s.threads[t]) ==> after.running == s.running)
  {
  }

  lemma StepKeepsPromise(maxBytes: nat, s: State, t: nat, ok: bool, failures: bool)
    requires Kept(maxBytes, s, failures) && t < |s.threads| && (failures || ok) && StepOf(maxBytes, s, t, Continue(ok)).Some?
    ensures Kept(maxBytes, StepOf(maxBytes, s, t, Continue(ok)).value, failures)
  {
    var after := StepOf(maxBytes, s, t, Continue(ok)).value;
    StepKeepsOwner(maxBytes, s, t, Continue(ok));
    StepKeepsLock(maxBytes, s, t, Continue(ok));
    PendingMoves(maxBytes, s, t, ok);
    var pcAfter, spawned := StepMoves(maxBytes, s, t, Continue(ok));
    hide StepOf, FlagMoves, LockMoves;
    assert forall u :: 0 <= u < |s.threads| && u != t ==> after.threads[u] == s.threads[u];
    assert forall u :: 0 <= u < |after.threads| ==> !Stores(after.threads[u]);
    if after.pending {
      if HasAhead(s) {
        var u :| 0 <= u < |s.threads| && AheadOfSwap(s.threads[u]);
        assert AheadOfSwap(after.threads[u]);
      } else {
        StepKeepsPreparing(maxBytes, s, after, t);
      }
    }
  }

  lemma StepKeepsPreparing(maxBytes: nat, s: State, after: State, t: nat)
    requires Inv(s) && t < |s.threads| && StepOf(maxBytes, s, t, Continue(true)) == Some(after) && !Stores(s.threads[t])
    requires s.hotBytes > maxBytes && (HasPreparing(s) || (!s.running && HasRecapturing(s)))
    ensures Promised(maxBytes, after, false)
  {
    var pcAfter, spawned := StepMoves(maxBytes, s, t, Continue(true));
    hide FlagMoves, LockMoves;
    assert forall u :: 0 <= u < |s.threads| && u != t ==> after.threads[u] == s.threads[u];
    if HasPreparing(s) {
      var u :| 0 <= u < |s.threads| && Prepares(s.threads[u]);
      if u == t {
        PreparingMoves(maxBytes, s, t);
      } else {
        assert IsOwner(s, u) && !IsOwner(s, t);
        BystanderMoves(maxBytes, s, t, true);
        assert Prepares(after.threads[u]);
      }
      hide StepOf;
    } else {
      assert !IsOwner(s, t);
      var u :| 0 <= u < |s.threads| && Recaptures(s.threads[u]);
      if Recaptures(s.threads[t]) {
        RecaptureMoves(maxBytes, s, t, true);
      } else {
        BystanderMoves(maxBytes, s, t, true);
        assert Recaptures(after.threads[u]);
      }
      hide StepOf;
    }
  }

  lemma {:induction false} FinishKeepsPromise(maxBytes: nat, s: State, finish: seq<(nat, Move)>, failures: bool)
    requires Kept(maxBytes, s, failures) && Finishing(finish, failures) && After(maxBytes, s, finish).Some?
    ensures Kept(maxBytes, After(maxBytes, s, finish).value, failures)
  {
    if finish != [] {
      var init, last := finish[..|finish| - 1], finish[|finish| - 1];
      FinishKeepsPromise(maxBytes, s, init, failures);
      hide Kept, StepOf;
      StepKeepsPromise(maxBytes, After(maxBytes, s, init).value, last.0, last.1.ok, failures);
    }
  }

  // ----- everything begun ends -----

  function Rank(pc: Pc): nat {
    match pc
    case Idle => 0
    case Gone => 0
    case AppendUnlocked => 1
    case AppendOwner => 6
    case AppendDeferred => 9
    case AppendLocked => 10
    case CompactReleased => 1
    case CompactFinished => 2
    case Compacting => 3
    case CompactLocked => 4
    case CompactOwner => 5
    case CompactRecapture => 7
    case Recapturing => 7
    case Preparing => 6
    case PreparingLocked => 5
    case PreparingFailed => 1
    case Running => 4
    case Swapping => 3
    case Releasing => 2
    case Reswapping => 1
  }

  function Ranks(threads: seq<Pc>): nat {
    if threads == [] then 0 else Ranks(threads[..|threads| - 1]) + Rank(threads[|threads| - 1])
  }

  function Measure(s: State): nat {
    Ranks(s.threads) + if s.pending then 7 else 0
  }

  lemma {:induction false} RanksUpdate(threads: seq<Pc>, t: nat, pc: Pc)
    requires t < |threads|
    ensures Ranks(threads[t := pc]) + Rank(threads[t]) == Ranks(threads) + Rank(pc)
  {
    var n := |threads| - 1;
    if t < n {
      RanksUpdate(threads[..n], t, pc);
      assert threads[t := pc][..n] == threads[..n][t := pc];
    } else {
      assert threads[t := pc][..n] == threads[..n];
    }
  }

  lemma RanksSpawn(threads: seq<Pc>, pc: Pc)
    ensures Ranks(threads + [pc]) == Ranks(threads) + Rank(pc)
  {
    assert (threads + [pc])[..|threads|] == threads;
  }

  /** The moving thread, with the one it may spawn and the flag it may set, gets nearer the end. */
  predicate GetsNearer(s: State, t: nat, after: State)
    requires t < |s.threads|
  {
    && |s.threads| <= |after.threads| <= |s.threads| + 1
    && Rank(after.threads[t]) + (if |after.threads| > |s.threads| then Rank(after.threads[|s.threads|]) else 0) + (if after.pending then 7 else 0)
       < Rank(s.threads[t]) + (if s.pending then 7 else 0)
  }

  lemma AppendGetsNearer(maxBytes: nat, s: State, t: nat, ok: bool)
    requires t < |s.threads| && AppendStep(maxBytes, s, t, Continue(ok)).Some?
    ensures GetsNearer(s, t, AppendStep(maxBytes, s, t, Continue(ok)).value)
  {
  }

  lemma CompactGetsNearer(s: State, t: nat, ok: bool)
    requires t < |s.threads| && CompactStep(s, t, Continue(ok)).Some?
    ensures GetsNearer(s, t, CompactStep(s, t, Continue(ok)).value)
  {
  }

  lemma QueueGetsNearer(maxBytes: nat, s: State, t: nat, ok: bool)
    requires t < |s.threads| && QueueStep(maxBytes, s, t, Continue(ok)).Some?
    ensures GetsNearer(s, t, QueueStep(maxBytes, s, t, Continue(ok)).value)
  {
  }

  lemma RankMoves(maxBytes: nat, s: State, t: nat, ok: bool)
    requires t < |s.threads| && StepOf(maxBytes, s, t, Continue(ok)).Some?
    ensures GetsNearer(s, t, StepOf(maxBytes, s, t, Continue(ok)).value)
  {
    hide AppendStep, CompactStep, QueueStep, GetsNearer;
    if AppendStep(maxBytes, s, t, Continue(ok)).Some? {
      AppendGetsNearer(maxBytes, s, t, ok);
    } else if CompactStep(s, t, Continue(ok)).Some? {
      CompactGetsNearer(s, t, ok);
    } else {
      QueueGetsNearer(maxBytes, s, t, ok);
    }
  }

  /** Every step of a thread that goes on brings the end nearer. */
  lemma StepsRunOut(maxBytes: nat, s: State, t: nat, ok: bool)
    requires t < |s.threads| && StepOf(maxBytes, s, t, Continue(ok)).Some?
    ensures Measure(StepOf(maxBytes, s, t, Continue(ok)).value) < Measure(s)
  {
    RankMoves(maxBytes, s, t, ok);
    var pcAfter, spawned := StepMoves(maxBytes, s, t, Continue(ok));
    hide StepOf, FlagMoves, LockMoves, Rank;
    var after := StepOf(maxBytes, s, t, Continue(ok)).value;
    RanksUpdate(s.threads, t, pcAfter);
    if spawned != [] {
      RanksSpawn(s.threads[t := pcAfter], spawned[0]);
      assert after.threads == s.threads[t := pcAfter] + [spawned[0]];
    } else {
      assert after.threads == s.threads[t := pcAfter];
    }
  }

  /** A thread can go on unless it waits for the lock or has ended. */
  lemma CanGoOn(maxBytes: nat, s: State, t: nat, ok: bool)
    requires t < |s.threads| && s.threads[t] != Idle && s.threads[t] != Gone
    requires s.lock == None || HoldsLock(s.threads[t])
    ensures StepOf(maxBytes, s, t, Continue(ok)).Some?
  {
  }

  /** There is no deadlock. */
  lemma SomeThreadCanGoOn(maxBytes: nat, s: State) returns (t: nat)
    requires LockIsHeld(s) && !Quiet(s)
    ensures t < |s.threads| && s.threads[t] != Idle && s.threads[t] != Gone && (s.lock == None || HoldsLock(s.threads[t]))
    ensures forall ok :: StepOf(maxBytes, s, t, Continue(ok)).Some?
  {
    hide StepOf;
    if s.lock.Some? {
      t := s.lock.value;
    } else {
      t :| 0 <= t < |s.threads| && s.threads[t] != Idle && s.threads[t] != Gone;
    }
    forall ok {
      CanGoOn(maxBytes, s, t, ok);
    }
  }

  /** From every state all threads can end, without a failing rotation. */
  lemma {:induction false} EverythingCanEnd(maxBytes: nat, s: State) returns (finish: seq<(nat, Move)>)
    requires Inv(s)
    ensures Finishing(finish, false) && After(maxBytes, s, finish).Some? && Quiet(After(maxBytes, s, finish).value)
    decreases Measure(s)
  {
    hide StepOf, Measure, OneOwner, LockIsHeld;
    if Quiet(s) {
      finish := [];
    } else {
      var t := SomeThreadCanGoOn(maxBytes, s);
      StepsRunOut(maxBytes, s, t, true);
      StepKeepsOwner(maxBytes, s, t, Continue(true));
      StepKeepsLock(maxBytes, s, t, Continue(true));
      var after := StepOf(maxBytes, s, t, Continue(true)).value;
      var rest := EverythingCanEnd(maxBytes, after);
      finish := [(t, Continue(true))] + rest;
      FirstMove(maxBytes, s, t, Continue(true), rest);
    }
  }

  lemma FirstMove(maxBytes: nat, s: State, t: nat, move: Move, rest: seq<(nat, Move)>)
    requires t < |s.threads| && StepOf(maxBytes, s, t, move).Some?
    ensures After(maxBytes, s, [(t, move)] + rest) == After(maxBytes, StepOf(maxBytes, s, t, move).value, rest)
  {
    hide StepOf;
    var one: seq<(nat, Move)> := [(t, move)];
    assert one[..|one| - 1] == [];
    assert After(maxBytes, s, one) == StepOf(maxBytes, s, t, move);
    AfterConcat(maxBytes, s, one, rest);
  }

  // ----- a request that nobody will look at -----

  predicate Indifferent(pc: Pc, failures: bool) {
    || pc == Idle || pc == Gone || pc == AppendUnlocked || pc == PreparingFailed || Recaptures(pc)
    || (failures && Prepares(pc))
  }

  ghost predicate Hopeless(s: State, failures: bool) {
    && Inv(s) && s.pending
    && (forall t :: 0 <= t < |s.threads| ==> Indifferent(s.threads[t], failures))
    && (failures || s.running || !HasRecapturing(s))
  }

  /** The move that keeps the flag set: the lock goes back first, a rotation fails if it may, and
      threads that would recapture the flag look while it is taken. */
  lemma LosingMove(maxBytes: nat, s: State, failures: bool) returns (t: nat, ok: bool)
    requires Hopeless(s, failures) && !Quiet(s)
    ensures t < |s.threads| && (failures || ok) && StepOf(maxBytes, s, t, Continue(ok)).Some?
    ensures Hopeless(StepOf(maxBytes, s, t, Continue(ok)).value, failures)
  {
    hide StepOf, OneOwner, LockIsHeld;
    t := SomeThreadCanGoOn(maxBytes, s);
    if !failures && s.lock == None && HasRecapturing(s) {
      t :| 0 <= t < |s.threads| && Recaptures(s.threads[t]);
      CanGoOn(maxBytes, s, t, true);
    }
    ok := s.threads[t] != PreparingLocked;
    assert Indifferent(s.threads[t], failures);
    LosingMoveKeeps(maxBytes, s, t, ok, failures);
  }

  lemma LosingMoveKeeps(maxBytes: nat, s: State, t: nat, ok: bool, failures: bool)
    requires Hopeless(s, failures) && t < |s.threads| && s.threads[t] != Idle && s.threads[t] != Gone
    requires ok == (s.threads[t] != PreparingLocked) && StepOf(maxBytes, s, t, Continue(ok)).Some?
    requires !failures && HasRecapturing(s) ==> Recaptures(s.threads[t]) || s.threads[t] == AppendUnlocked
    ensures Hopeless(StepOf(maxBytes, s, t, Continue(ok)).value, failures)
  {
    hide StepOf, OneOwner, LockIsHeld, FlagMoves, LockMoves, Owns, HoldsLock;
    var after := StepOf(maxBytes, s, t, Continue(ok)).value;
    StepKeepsOwner(maxBytes, s, t, Continue(ok));
    StepKeepsLock(maxBytes, s, t, Continue(ok));
    IndifferentMoves(maxBytes, s, t, failures);
    var pcAfter, spawned := StepMoves(maxBytes, s, t, Continue(ok));
    forall u | 0 <= u < |after.threads|
      ensures Indifferent(after.threads[u], failures)
      ensures u != t && u < |s.threads| ==> after.threads[u] == s.threads[u]
    {
      if u >= |s.threads| {
        assert after.threads[u] == spawned[u - |s.threads|] == spawned[0];
      }
    }
  }

  lemma IndifferentMoves(maxBytes: nat, s: State, t: nat, failures: bool)
    requires t < |s.threads| && Indifferent(s.threads[t], failures) && s.threads[t] != Idle && s.threads[t] != Gone
    requires failures || s.running || !Recaptures(s.threads[t])
    requires StepOf(maxBytes, s, t, Continue(s.threads[t] != PreparingLocked)).Some?
    ensures var after := StepOf(maxBytes, s, t, Continue(s.threads[t] != PreparingLocked)).value;
      && t < |after.threads| && Indifferent(after.threads[t], failures) && !Recaptures(after.threads[t]) && after.pending == s.pending
      && (|after.threads| > |s.threads| ==> failures && Prepares(after.threads[|s.threads|]))
      && (s.running && s.threads[t] != PreparingFailed ==> after.running)
  {
  }

  lemma LeavesNow(maxBytes: nat, s: State, failures: bool)
    requires Hopeless(s, failures) && Quiet(s)
    ensures LeavesRequest(maxBytes, s, [], failures)
  {
  }

  lemma LeavesLater(maxBytes: nat, s: State, t: nat, ok: bool, rest: seq<(nat, Move)>, failures: bool)
    requires t < |s.threads| && (failures || ok) && StepOf(maxBytes, s, t, Continue(ok)).Some?
    requires LeavesRequest(maxBytes, StepOf(maxBytes, s, t, Continue(ok)).value, rest, failures)
    ensures LeavesRequest(maxBytes, s, [(t, Continue(ok))] + rest, failures)
  {
    hide StepOf, Quiet;
    FirstMove(maxBytes, s, t, Continue(ok), rest);
    hide After;
  }

  lemma {:induction false} LosingRun(maxBytes: nat, s: State, failures: bool) returns (finish: seq<(nat, Move)>)
    requires Hopeless(s, failures)
    ensures LeavesRequest(maxBytes, s, finish, failures)
    decreases Measure(s)
  {
    hide *;
    if Quiet(s) {
      finish := [];
      LeavesNow(maxBytes, s, failures);
    } else {
      var t, ok := LosingMove(maxBytes, s, failures);
      StepsRunOut(maxBytes, s, t, ok);
      var rest := LosingRun(maxBytes, StepOf(maxBytes, s, t, Continue(ok)).value, failures);
      finish := [(t, Continue(ok))] + rest;
      LeavesLater(maxBytes, s, t, ok, rest, failures);
    }
  }

  // ----- the condition -----

  /** In every reachable state in which an append is about to set the pending flag: once set, the
      flag is looked at before everything has ended, whatever the schedule, if and only if some
      thread will look. With `failures` the schedule may let rotations fail. */
  lemma RequestIsSeenIff(maxBytes: nat, threads: nat, schedule: seq<(nat, Move)>, t: nat, failures: bool)
    requires After(maxBytes, Start(threads), schedule).Some?
    requires var s := After(maxBytes, Start(threads), schedule).value; t < |s.threads| && s.threads[t] == AppendDeferred
    ensures var s := After(maxBytes, Start(threads), schedule).value;
      var stored := To(s.(pending := true), t, AppendUnlocked);
      && StepOf(maxBytes, s, t, Continue(true)) == Some(stored)
      && (WillLook(s, failures) <==> !exists finish :: LeavesRequest(maxBytes, stored, finish, failures))
  {
    EveryScheduleKeepsInvariant(maxBytes, threads, schedule);
    EveryScheduleKeepsOverLimit(maxBytes, threads, schedule);
    hide After;
    var s := After(maxBytes, Start(threads), schedule).value;
    var stored := To(s.(pending := true), t, AppendUnlocked);
    assert StepOf(maxBytes, s, t, Continue(true)) == Some(stored);
    StepKeepsOwner(maxBytes, s, t, Continue(true));
    StepKeepsLock(maxBytes, s, t, Continue(true));
    hide StepOf;
    assert Inv(stored);
    assert s.hotBytes > maxBytes && FoundOverLimit(s.threads[t]);
    StoredState(s, stored, t, failures);
    if WillLook(s, failures) {
      forall finish | LeavesRequest(maxBytes, stored, finish, failures)
        ensures false
      {
        FinishKeepsPromise(maxBytes, stored, finish, failures);
        QuietKeepsNoPromise(maxBytes, After(maxBytes, stored, finish).value, failures);
      }
    } else {
      var finish := LosingRun(maxBytes, stored, failures);
    }
  }

  lemma QuietKeepsNoPromise(maxBytes: nat, s: State, failures: bool)
    requires Quiet(s) && Kept(maxBytes, s, failures)
    ensures !s.pending
  {
  }

  lemma StoredState(s: State, stored: State, t: nat, failures: bool)
    requires Inv(s) && Inv(stored) && t < |s.threads| && s.threads[t] == AppendDeferred
    requires stored == To(s.(pending := true), t, AppendUnlocked)
    ensures WillLook(stored, failures) <==> WillLook(s, failures)
    ensures forall u :: 0 <= u < |stored.threads| ==> !Stores(stored.threads[u])
    ensures !WillLook(s, failures) ==> Hopeless(stored, failures)
  {
    hide OneOwner;
    assert forall u :: 0 <= u < |s.threads| && u != t ==> stored.threads[u] == s.threads[u] && !HoldsLock(s.threads[u]);
    forall u | 0 <= u < |s.threads| && u != t
      ensures AheadOfSwap(s.threads[u]) ==> AheadOfSwap(stored.threads[u])
      ensures Prepares(s.threads[u]) ==> Prepares(stored.threads[u])
      ensures Recaptures(s.threads[u]) ==> Recaptures(stored.threads[u])
    {
    }
    assert HasAhead(s) == HasAhead(stored) && HasPreparing(s) == HasPreparing(stored) && HasRecapturing(s) == HasRecapturing(stored);
    forall u | 0 <= u < |stored.threads| && !WillLook(s, failures)
      ensures Indifferent(stored.threads[u], failures)
    {
      if u != t {
        assert !AheadOfSwap(s.threads[u]) && (failures || !Prepares(s.threads[u]));
      }
    }
  }
}
