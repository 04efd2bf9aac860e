/** Whether the compaction that an append asks for through the pending flag takes place: exactly
    when every schedule leaves the hot file within its limit. */
module CompactionFollows {
  import opened Events
  import opened Ownership
  import opened CompactionRequests

  /** Owns compaction and will rotate the hot file if it is over the limit. */
  predicate Rotating(pc: Pc) {
    pc == CompactOwner || pc == CompactLocked || Prepares(pc)
  }

  /** Has given compaction up and is about to swap the pending flag. */
  predicate Swaps(pc: Pc) {
    pc == CompactReleased || pc == Reswapping
  }

  /** Owns compaction and has a look at the pending flag still before it. */
  predicate Looking(pc: Pc) {
    pc == Running || pc == Swapping || pc == Compacting || pc == CompactFinished || pc == Releasing
  }

  predicate HasRotating(s: State) {
    exists t :: 0 <= t < |s.threads| && Rotating(s.threads[t])
  }

  predicate HasSwapping(s: State) {
    exists t :: 0 <= t < |s.threads| && Swaps(s.threads[t])
  }

  predicate HasLooking(s: State) {
    exists t :: 0 <= t < |s.threads| && Looking(s.threads[t])
  }

  /** The compaction an append is about to ask for will take place: the owner is on its way to a
      rotation; or nobody owns compaction and some thread will look at the flag or has seen it set;
      or the owner will look, and nobody can clear the flag before it does. */
  predicate WillCompact(s: State) {
    || HasRotating(s)
    || (!s.running && (HasSwapping(s) || HasRecapturing(s)))
    || (HasLooking(s) && !HasSwapping(s))
  }

  /** All threads end, and the hot file is over the limit. */
  predicate StaysOverLimit(maxBytes: nat, s: State, finish: seq<(nat, Move)>, failures: bool) {
    Finishing(finish, failures) && After(maxBytes, s, finish).Some? &&
    var end := After(maxBytes, s, finish).value;
    Quiet(end) && end.hotBytes > maxBytes
  }

  // ----- a compaction that will take place -----

  predicate Bound(s: State) {
    || HasRotating(s)
    || (!s.running && (HasRecapturing(s) || (s.pending && HasSwapping(s))))
    || (s.pending && HasLooking(s) && !HasSwapping(s))
  }

  ghost predicate Due(maxBytes: nat, s: State) {
    && Inv(s)
    && (forall t :: 0 <= t < |s.threads| ==> !FoundOverLimit(s.threads[t]))
    && (s.hotBytes > maxBytes ==> Bound(s))
  }

  lemma NoMoreAppends(maxBytes: nat, s: State, t: nat, ok: bool)
    requires t < |s.threads| && !FoundOverLimit(s.threads[t]) && StepOf(maxBytes, s, t, Continue(ok)).Some?
    ensures var after := StepOf(maxBytes, s, t, Continue(ok)).value;
      t < |after.threads| && !FoundOverLimit(after.threads[t]) && (after.hotBytes == s.hotBytes || after.hotBytes == 0)
  {
  }

  lemma RotatingMoves(maxBytes: nat, s: State, t: nat)
    requires t < |s.threads| && Rotating(s.threads[t]) && s.hotBytes > maxBytes && StepOf(maxBytes, s, t, Continue(true)).Some?
    ensures var after := StepOf(maxBytes, s, t, Continue(true)).value;
      t < |after.threads| && (after.hotBytes == 0 || Rotating(after.threads[t]))
  {
  }

  lemma LookingMoves(maxBytes: nat, s: State, t: nat, ok: bool)
    requires t < |s.threads| && Looking(s.threads[t]) && s.pending && StepOf(maxBytes, s, t, Continue(ok)).Some?
    ensures var after := StepOf(maxBytes, s, t, Continue(ok)).value;
      && t < |after.threads|
      && (|| Rotating(after.threads[t])
          || (Looking(after.threads[t]) && after.pending)
          || (Swaps(after.threads[t]) && after.pending && !after.running))
      && (Looking(after.threads[t]) ==> forall u :: 0 <= u < |after.threads| && u != t ==> u < |s.threads| && after.threads[u] == s.threads[u])
  {
  }

  /** A thread that owns nothing and swaps nothing leaves both flags alone, or recaptures. */
  lemma OthersMove(maxBytes: nat, s: State, t: nat, ok: bool)
    requires t < |s.threads| && !Owns(s.threads[t]) && !FoundOverLimit(s.threads[t]) && StepOf(maxBytes, s, t, Continue(ok)).Some?
    ensures var after := StepOf(maxBytes, s, t, Continue(ok)).value;
      && t < |after.threads|
      && (!Swaps(s.threads[t]) ==> after.pending == s.pending)
      && (!Recaptures(s.threads[t]) ==> after.running == s.running)
      && (Recaptures(s.threads[t]) && !s.running ==> HasRotating(after))
      && (Recaptures(s.threads[t]) && s.running ==> after.running)
      && (Swaps(s.threads[t]) && s.pending ==> Recaptures(after.threads[t]))
      && !Swaps(after.threads[t]) && (|after.threads| > |s.threads| ==> !s.running)
  {
    var after := StepOf(maxBytes, s, t, Continue(ok)).value;
    if Recaptures(s.threads[t]) && !s.running {
      assert Rotating(after.threads[if s.threads[t] == Recapturing then t else |s.threads|]);
    }
  }

  /** The frame of a step. */
  predicate OnlyMoves(s: State, t: nat, after: State) {
    |s.threads| <= |after.threads| && forall u :: 0 <= u < |s.threads| && u != t ==> after.threads[u] == s.threads[u]
  }

  lemma OwnerStaysBound(maxBytes: nat, s: State, after: State, t: nat)
    requires Inv(s) && t < |s.threads| && Owns(s.threads[t]) && !FoundOverLimit(s.threads[t]) && StepOf(maxBytes, s, t, Continue(true)) == Some(after)
    requires s.hotBytes > maxBytes && after.hotBytes > maxBytes && Bound(s)
    ensures Bound(after)
  {
    hide StepOf, Recaptures;
    assert IsOwner(s, t) && s.running;
    if HasRotating(s) {
      var u :| 0 <= u < |s.threads| && Rotating(s.threads[u]);
      assert IsOwner(s, u);
      RotatingMoves(maxBytes, s, t);
    } else {
      var u :| 0 <= u < |s.threads| && Looking(s.threads[u]);
      assert IsOwner(s, u);
      LookingMoves(maxBytes, s, t, true);
    }
  }

  lemma OtherStaysBound(maxBytes: nat, s: State, after: State, t: nat)
    requires Inv(s) && t < |s.threads| && !Owns(s.threads[t]) && !FoundOverLimit(s.threads[t]) && StepOf(maxBytes, s, t, Continue(true)) == Some(after)
    requires OnlyMoves(s, t, after) && Bound(s)
    ensures Bound(after)
  {
    OthersMove(maxBytes, s, t, true);
    LookingOwns(s);
    hide StepOf, Inv;
    if HasRotating(s) {
      var u :| 0 <= u < |s.threads| && Rotating(s.threads[u]);
      assert u != t && Rotating(after.threads[u]);
    } else if !s.running {
      OtherStaysBoundWithoutOwner(s, after, t);
    } else {
      var u :| 0 <= u < |s.threads| && Looking(s.threads[u]);
      assert u != t && Looking(after.threads[u]);
      assert !Swaps(s.threads[t]);
      forall k | 0 <= k < |after.threads|
        ensures !Swaps(after.threads[k])
      {
        assert k != t ==> after.threads[k] == s.threads[k];
      }
    }
  }

  lemma LookingOwns(s: State)
    requires Inv(s)
    ensures HasLooking(s) ==> s.running
  {
    if u :| 0 <= u < |s.threads| && Looking(s.threads[u]) {
      assert IsOwner(s, u);
    }
  }

  lemma OtherStaysBoundWithoutOwner(s: State, after: State, t: nat)
    requires t < |s.threads| && t < |after.threads| && OnlyMoves(s, t, after) && !s.running
    requires HasRecapturing(s) || (s.pending && HasSwapping(s))
    requires !Swaps(s.threads[t]) ==> after.pending == s.pending
    requires !Recaptures(s.threads[t]) ==> !after.running
    requires Recaptures(s.threads[t]) ==> HasRotating(after)
    requires Swaps(s.threads[t]) && s.pending ==> Recaptures(after.threads[t])
    ensures Bound(after)
  {
    if Recaptures(s.threads[t]) || (Swaps(s.threads[t]) && s.pending) {
    } else if HasRecapturing(s) {
      var u :| 0 <= u < |s.threads| && Recaptures(s.threads[u]);
      assert Recaptures(after.threads[u]);
    } else {
      var u :| 0 <= u < |s.threads| && Swaps(s.threads[u]);
      assert Swaps(after.threads[u]);
    }
  }

  lemma BoundStays(maxBytes: nat, s: State, t: nat)
    requires Inv(s) && t < |s.threads| && !FoundOverLimit(s.threads[t]) && StepOf(maxBytes, s, t, Continue(true)).Some?
    requires s.hotBytes > maxBytes && Bound(s) && StepOf(maxBytes, s, t, Continue(true)).value.hotBytes > maxBytes
    ensures Bound(StepOf(maxBytes, s, t, Continue(true)).value)
  {
    var pcAfter, spawned := StepMoves(maxBytes, s, t, Continue(true));
    hide StepOf, Bound, Inv, FlagMoves, LockMoves, Owns, FoundOverLimit;
    var after := StepOf(maxBytes, s, t, Continue(true)).value;
    if Owns(s.threads[t]) {
      OwnerStaysBound(maxBytes, s, after, t);
    } else {
      OtherStaysBound(maxBytes, s, after, t);
    }
  }

  lemma StepKeepsDue(maxBytes: nat, s: State, t: nat)
    requires Due(maxBytes, s) && t < |s.threads| && StepOf(maxBytes, s, t, Continue(true)).Some?
    ensures Due(maxBytes, StepOf(maxBytes, s, t, Continue(true)).value)
  {
    var after := StepOf(maxBytes, s, t, Continue(true)).value;
    StepKeepsOwner(maxBytes, s, t, Continue(true));
    StepKeepsLock(maxBytes, s, t, Continue(true));
    NoMoreAppends(maxBytes, s, t, true);
    var pcAfter, spawned := StepMoves(maxBytes, s, t, Continue(true));
    hide StepOf, Bound, OneOwner, LockIsHeld, FlagMoves, LockMoves;
    if after.hotBytes > maxBytes {
      BoundStays(maxBytes, s, t);
    }
    forall u | 0 <= u < |after.threads|
      ensures !FoundOverLimit(after.threads[u])
    {
      assert u < |s.threads| && u != t ==> after.threads[u] == s.threads[u];
    }
  }

  lemma {:induction false} FinishKeepsDue(maxBytes: nat, s: State, finish: seq<(nat, Move)>)
    requires Due(maxBytes, s) && Finishing(finish, false) && After(maxBytes, s, finish).Some?
    ensures Due(maxBytes, After(maxBytes, s, finish).value)
  {
    if finish != [] {
      var init, last := finish[..|finish| - 1], finish[|finish| - 1];
      FinishKeepsDue(maxBytes, s, init);
      hide Due, StepOf;
      StepKeepsDue(maxBytes, After(maxBytes, s, init).value, last.0);
    }
  }

  lemma QuietIsWithinLimit(maxBytes: nat, s: State)
    requires Quiet(s) && Due(maxBytes, s)
    ensures s.hotBytes <= maxBytes
  {
  }

  // ----- a compaction that may not take place -----

  ghost predicate Doomed(maxBytes: nat, s: State) {
    && Inv(s) && s.hotBytes > maxBytes && !Bound(s)
    && forall t :: 0 <= t < |s.threads| ==> !FoundOverLimit(s.threads[t])
  }

  /** What a move of a doomed state does: threads that recapture find the flag taken, threads that
      swap clear the request, and an owner finds it clear. */
  predicate Drops(s: State, t: nat, after: State, pc: Pc)
    requires t < |s.threads|
  {
    && after.threads == s.threads[t := pc] && after.hotBytes == s.hotBytes
    && !FoundOverLimit(pc) && !Rotating(pc) && (Recaptures(pc) ==> Swaps(s.threads[t]) && s.pending)
    && (Swaps(s.threads[t]) ==> !after.pending && after.running == s.running && !Swaps(pc) && !Looking(pc))
    && (!Swaps(s.threads[t]) ==> after.pending == s.pending)
    && (Recaptures(s.threads[t]) ==> after.running == s.running && !Swaps(pc) && !Looking(pc))
    && (Swaps(pc) || Looking(pc) ==> Looking(s.threads[t]))
  }

  lemma CompactDrops(s: State, t: nat)
    requires t < |s.threads| && (Recaptures(s.threads[t]) ==> s.running)
    requires var pc := s.threads[t]; pc == Compacting || pc == CompactFinished || pc == CompactReleased || pc == CompactRecapture
    ensures var after := CompactStep(s, t, Continue(true)); after.Some? && t < |after.value.threads| && Drops(s, t, after.value, after.value.threads[t])
  {
  }

  lemma LoopDrops(maxBytes: nat, s: State, t: nat)
    requires t < |s.threads| && (Looking(s.threads[t]) ==> !s.pending)
    requires var pc := s.threads[t]; pc == PreparingFailed || pc == Running || pc == Swapping || pc == Releasing
    ensures var after := QueueStep(maxBytes, s, t, Continue(true));
      after.Some? && t < |after.value.threads| && Drops(s, t, after.value, after.value.threads[t])
  {
  }

  lemma ReleasedDrops(maxBytes: nat, s: State, t: nat)
    requires t < |s.threads| && (Recaptures(s.threads[t]) ==> s.running)
    requires s.threads[t] == Reswapping || s.threads[t] == Recapturing
    ensures var after := QueueStep(maxBytes, s, t, Continue(true));
      after.Some? && t < |after.value.threads| && Drops(s, t, after.value, after.value.threads[t])
  {
  }

  lemma AppendDrops(maxBytes: nat, s: State, t: nat)
    requires t < |s.threads| && s.threads[t] == AppendUnlocked
    ensures var after := AppendStep(maxBytes, s, t, Continue(true));
      after.Some? && t < |after.value.threads| && Drops(s, t, after.value, after.value.threads[t])
  {
  }

  lemma DoomedStep(maxBytes: nat, s: State, t: nat) returns (after: State, pc: Pc)
    requires t < |s.threads| && s.threads[t] != Idle && s.threads[t] != Gone && !FoundOverLimit(s.threads[t]) && !Rotating(s.threads[t])
    requires (Recaptures(s.threads[t]) ==> s.running) && (Looking(s.threads[t]) ==> !s.pending)
    ensures StepOf(maxBytes, s, t, Continue(true)) == Some(after) && Drops(s, t, after, pc)
  {
    hide Drops;
    if s.threads[t] == AppendUnlocked {
      AppendDrops(maxBytes, s, t);
    } else if s.threads[t] == Compacting || s.threads[t] == CompactFinished || s.threads[t] == CompactReleased || s.threads[t] == CompactRecapture {
      CompactDrops(s, t);
    } else if s.threads[t] == Reswapping || s.threads[t] == Recapturing {
      ReleasedDrops(maxBytes, s, t);
    } else {
      LoopDrops(maxBytes, s, t);
    }
    after := StepOf(maxBytes, s, t, Continue(true)).value;
    pc := after.threads[t];
  }

  /** The move that keeps the state doomed: first those that recapture, then those that swap. */
  lemma DoomedMove(maxBytes: nat, s: State) returns (t: nat)
    requires Doomed(maxBytes, s) && !Quiet(s)
    ensures t < |s.threads| && s.threads[t] != Idle && s.threads[t] != Gone && !Rotating(s.threads[t])
    ensures (Recaptures(s.threads[t]) ==> s.running) && (Looking(s.threads[t]) ==> !s.pending)
    ensures HasRecapturing(s) ==> Recaptures(s.threads[t])
    ensures HasSwapping(s) ==> Recaptures(s.threads[t]) || Swaps(s.threads[t])
  {
    hide Inv, FoundOverLimit, Recaptures, Swaps, Looking, Rotating;
    if HasRecapturing(s) {
      t :| 0 <= t < |s.threads| && Recaptures(s.threads[t]);
    } else if HasSwapping(s) {
      t :| 0 <= t < |s.threads| && Swaps(s.threads[t]);
    } else {
      t :| 0 <= t < |s.threads| && s.threads[t] != Idle && s.threads[t] != Gone;
    }
    PcsAreApart(s.threads[t]);
  }

  lemma PcsAreApart(pc: Pc)
    ensures Recaptures(pc) ==> !Swaps(pc) && !Looking(pc) && pc != Idle && pc != Gone
    ensures Swaps(pc) ==> !Looking(pc) && pc != Idle && pc != Gone
  {
  }

  lemma DoomedMoveKeeps(maxBytes: nat, s: State, t: nat)
    requires Doomed(maxBytes, s) && t < |s.threads| && s.threads[t] != Idle && s.threads[t] != Gone && !Rotating(s.threads[t])
    requires (Recaptures(s.threads[t]) ==> s.running) && (Looking(s.threads[t]) ==> !s.pending)
    requires HasRecapturing(s) ==> Recaptures(s.threads[t])
    requires HasSwapping(s) ==> Recaptures(s.threads[t]) || Swaps(s.threads[t])
    ensures StepOf(maxBytes, s, t, Continue(true)).Some? && Doomed(maxBytes, StepOf(maxBytes, s, t, Continue(true)).value)
  {
    var after, pc := DoomedStep(maxBytes, s, t);
    StepKeepsOwner(maxBytes, s, t, Continue(true));
    StepKeepsLock(maxBytes, s, t, Continue(true));
    hide StepOf, OneOwner, LockIsHeld, FoundOverLimit, Recaptures, Swaps, Looking, Rotating;
    PcsAreApart(s.threads[t]);
    PcsAreApart(pc);
    forall u | 0 <= u < |after.threads|
      ensures after.threads[u] == if u == t then pc else s.threads[u]
    {
    }
    StillNotBound(s, after, t, pc);
  }

  lemma StillNotBound(s: State, after: State, t: nat, pc: Pc)
    requires !Bound(s) && t < |s.threads| && after.threads == s.threads[t := pc]
    requires !Rotating(pc) && (Recaptures(pc) ==> Swaps(s.threads[t]) && s.pending)
    requires HasRecapturing(s) ==> Recaptures(s.threads[t])
    requires HasSwapping(s) ==> Recaptures(s.threads[t]) || Swaps(s.threads[t])
    requires Looking(s.threads[t]) ==> !s.pending
    requires Swaps(s.threads[t]) ==> !after.pending && after.running == s.running
    requires !Swaps(s.threads[t]) ==> after.pending == s.pending
    requires Recaptures(s.threads[t]) ==> s.running && after.running
    requires Swaps(pc) || Looking(pc) ==> Looking(s.threads[t])
    requires Recaptures(s.threads[t]) ==> !Swaps(s.threads[t]) && !Looking(s.threads[t])
    requires Swaps(s.threads[t]) ==> !Looking(s.threads[t])
    ensures !Bound(after)
  {
    hide Recaptures, Swaps, Looking, Rotating;
    assert forall u :: 0 <= u < |after.threads| ==> after.threads[u] == if u == t then pc else s.threads[u];
  }

  lemma StaysLater(maxBytes: nat, s: State, t: nat, ok: bool, rest: seq<(nat, Move)>, failures: bool)
    requires t < |s.threads| && (failures || ok) && StepOf(maxBytes, s, t, Continue(ok)).Some?
    requires StaysOverLimit(maxBytes, StepOf(maxBytes, s, t, Continue(ok)).value, rest, failures)
    ensures StaysOverLimit(maxBytes, s, [(t, Continue(ok))] + rest, failures)
  {
    hide StepOf, Quiet;
    FirstMove(maxBytes, s, t, Continue(ok), rest);
    hide After;
  }

  lemma {:induction false} DoomedRun(maxBytes: nat, s: State) returns (finish: seq<(nat, Move)>)
    requires Doomed(maxBytes, s)
    ensures StaysOverLimit(maxBytes, s, finish, false)
    decreases Measure(s)
  {
    hide StepOf, Measure, Quiet, Bound, Inv;
    if Quiet(s) {
      finish := [];
    } else {
      hide StaysOverLimit, Doomed;
      var t := DoomedMove(maxBytes, s);
      DoomedMoveKeeps(maxBytes, s, t);
      StepsRunOut(maxBytes, s, t, true);
      var rest := DoomedRun(maxBytes, StepOf(maxBytes, s, t, Continue(true)).value);
      finish := [(t, Continue(true))] + rest;
      StaysLater(maxBytes, s, t, true, rest, false);
    }
  }

  lemma FailingStep(maxBytes: nat, s: State, t: nat)
    requires t < |s.threads| && StepOf(maxBytes, s, t, Continue(false)).Some?
    ensures StepOf(maxBytes, s, t, Continue(false)).value.hotBytes == s.hotBytes
  {
  }

  /** When rotations may fail, nothing that is over the limit is sure to be compacted. */
  lemma {:induction false} FailingRun(maxBytes: nat, s: State) returns (finish: seq<(nat, Move)>)
    requires Inv(s) && s.hotBytes > maxBytes
    ensures StaysOverLimit(maxBytes, s, finish, true)
    decreases Measure(s)
  {
    hide StepOf, Measure, Quiet, OneOwner, LockIsHeld;
    if Quiet(s) {
      finish := [];
    } else {
      hide StaysOverLimit;
      var t := SomeThreadCanGoOn(maxBytes, s);
      StepsRunOut(maxBytes, s, t, false);
      StepKeepsOwner(maxBytes, s, t, Continue(false));
      StepKeepsLock(maxBytes, s, t, Continue(false));
      FailingStep(maxBytes, s, t);
      var rest := FailingRun(maxBytes, StepOf(maxBytes, s, t, Continue(false)).value);
      finish := [(t, Continue(false))] + rest;
      StaysLater(maxBytes, s, t, false, rest, true);
    }
  }

  // ----- the condition -----

  lemma StoredIsBound(s: State, stored: State, t: nat)
    requires Inv(s) && t < |s.threads| && s.threads[t] == AppendDeferred
    requires stored == To(s.(pending := true), t, AppendUnlocked)
    ensures Bound(stored) <==> WillCompact(s)
    ensures forall u :: 0 <= u < |stored.threads| ==> !FoundOverLimit(stored.threads[u])
  {
    assert forall u :: 0 <= u < |s.threads| && u != t ==> stored.threads[u] == s.threads[u] && !HoldsLock(s.threads[u]);
    hide OneOwner, HoldsLock;
    forall u | 0 <= u < |s.threads|
      ensures Rotating(s.threads[u]) == Rotating(stored.threads[u]) && Swaps(s.threads[u]) == Swaps(stored.threads[u])
      ensures Looking(s.threads[u]) == Looking(stored.threads[u]) && Recaptures(s.threads[u]) == Recaptures(stored.threads[u])
    {
    }
    hide Rotating, Swaps, Looking, Recaptures;
    assert HasRotating(s) == HasRotating(stored) && HasSwapping(s) == HasSwapping(stored);
    assert HasLooking(s) == HasLooking(stored) && HasRecapturing(s) == HasRecapturing(stored);
  }

  /** In every reachable state in which an append has found the flag taken and is about to ask for a
      compaction: every schedule brings the hot file within its limit before everything has ended
      if and only if rotations do not fail and the compaction will take place. */
  lemma CompactionFollowsIff(maxBytes: nat, threads: nat, schedule: seq<(nat, Move)>, t: nat, failures: bool)
    requires After(maxBytes, Start(threads), schedule).Some?
    requires var s := After(maxBytes, Start(threads), schedule).value; t < |s.threads| && s.threads[t] == AppendDeferred
    ensures var s := After(maxBytes, Start(threads), schedule).value;
      var stored := To(s.(pending := true), t, AppendUnlocked);
      && StepOf(maxBytes, s, t, Continue(true)) == Some(stored) && stored.hotBytes > maxBytes
      && (!failures && WillCompact(s) <==> !exists finish :: StaysOverLimit(maxBytes, stored, finish, failures))
  {
    EveryScheduleKeepsInvariant(maxBytes, threads, schedule);
    EveryScheduleKeepsOverLimit(maxBytes, threads, schedule);
    hide After, WillCompact, Bound, FoundOverLimit;
    var s := After(maxBytes, Start(threads), schedule).value;
    var stored := To(s.(pending := true), t, AppendUnlocked);
    assert StepOf(maxBytes, s, t, Continue(true)) == Some(stored);
    StepKeepsOwner(maxBytes, s, t, Continue(true));
    StepKeepsLock(maxBytes, s, t, Continue(true));
    hide StepOf, OneOwner, LockIsHeld;
    assert s.hotBytes > maxBytes && FoundOverLimit(s.threads[t]);
    StoredIsBound(s, stored, t);
    if failures {
      var finish := FailingRun(maxBytes, stored);
    } else if WillCompact(s) {
      forall finish | StaysOverLimit(maxBytes, stored, finish, false)
        ensures false
      {
        FinishKeepsDue(maxBytes, stored, finish);
        QuietIsWithinLimit(maxBytes, After(maxBytes, stored, finish).value);
      }
    } else {
      var finish := DoomedRun(maxBytes, stored);
    }
  }

  // ----- three schedules that lose a compaction, with a limit of ten bytes -----

  predicate Reaches(schedule: seq<(nat, Move)>, threads: nat, expected: State) {
    After(10, Start(threads), schedule) == Some(expected)
  }

  predicate Same(s: State, expected: State) {
    s.(threads := []) == expected.(threads := []) && s.threads == expected.threads
  }

  lemma Then(schedule: seq<(nat, Move)>, threads: nat, s: State, t: nat, move: Move, expected: State) returns (longer: seq<(nat, Move)>)
    requires Reaches(schedule, threads, s) && t < |s.threads|
    requires StepOf(10, s, t, move).Some? && Same(StepOf(10, s, t, move).value, expected)
    ensures Reaches(longer, threads, expected)
  {
    hide StepOf;
    OneMore(10, Start(threads), schedule, t, move);
    longer := ThenDo(schedule, t, move);
  }

  lemma ThenTwice(schedule: seq<(nat, Move)>, threads: nat, s: State, t: nat, first: Move, second: Move, expected: State)
    returns (longer: seq<(nat, Move)>)
    requires Reaches(schedule, threads, s) && t < |s.threads|
    requires StepOf(10, s, t, first).Some? && t < |StepOf(10, s, t, first).value.threads|
    requires var once := StepOf(10, s, t, first).value; StepOf(10, once, t, second).Some? && Same(StepOf(10, once, t, second).value, expected)
    ensures Reaches(longer, threads, expected)
  {
    hide StepOf;
    var once := StepOf(10, s, t, first).value;
    longer := Then(schedule, threads, s, t, first, once);
    longer := Then(longer, threads, once, t, second, expected);
  }

  const Go := Continue(true)

  /** Whatever becomes of the request, some schedule without failing rotations ends over the limit. */
  ghost predicate CompactionIsLost(stored: State) {
    exists finish :: StaysOverLimit(10, stored, finish, false)
  }

  /** The compaction thread looks, gives the flag up and looks again while an append that found the
      flag taken has yet to set its request, which then stays. */
  lemma LostBehindTheLastLook() returns (schedule: seq<(nat, Move)>)
    ensures Reaches(schedule, 1, State(false, false, 11, Some(0), [AppendDeferred, Gone]))
    ensures CompactionIsLost(State(false, true, 11, Some(0), [AppendUnlocked, Gone]))
    ensures exists finish :: LeavesRequest(10, State(false, true, 11, Some(0), [AppendUnlocked, Gone]), finish, false)
  {
    hide Reaches, StepOf, LeavesRequest;
    schedule := AppendDefersToQueue();
    schedule := QueueLooksAndEnds(schedule);
    LostFrom(schedule, 1, State(false, false, 11, Some(0), [AppendDeferred, Gone]), State(false, true, 11, Some(0), [AppendUnlocked, Gone]));
  }

  lemma QueueLooksAndEnds(before: seq<(nat, Move)>) returns (schedule: seq<(nat, Move)>)
    requires Reaches(before, 1, State(true, false, 11, Some(0), [AppendDeferred, Running]))
    ensures Reaches(schedule, 1, State(false, false, 11, Some(0), [AppendDeferred, Gone]))
  {
    hide Reaches;
    var s3, s4 := State(true, false, 11, Some(0), [AppendDeferred, Running]), State(true, false, 11, Some(0), [AppendDeferred, Releasing]);
    schedule := ThenTwice(before, 1, s3, 1, Go, Go, s4);
    schedule := ThenTwice(schedule, 1, s4, 1, Go, Go, State(false, false, 11, Some(0), [AppendDeferred, Gone]));
  }

  lemma AppendDefersToQueue() returns (schedule: seq<(nat, Move)>)
    ensures Reaches(schedule, 1, State(true, false, 11, Some(0), [AppendDeferred, Running]))
  {
    var s0 := State(false, false, 0, None, [Idle]);
    assert Start(1) == s0 && Reaches([], 1, s0);
    hide Reaches;
    var s1, s2 := State(true, false, 11, Some(0), [AppendOwner]), State(true, false, 0, None, [Idle, Running]);
    schedule := ThenTwice([], 1, s0, 0, StartAppend(11), Go, s1);
    schedule := ThenTwice(schedule, 1, s1, 0, Go, Go, s2);
    schedule := ThenTwice(schedule, 1, s2, 0, StartAppend(11), Go, State(true, false, 11, Some(0), [AppendDeferred, Running]));
  }

  /** A manual compaction answers an earlier request by preparing a compaction, finds the hot file
      empty and gives up without another look; an append in between set its request for nothing. */
  lemma LostBehindAnEmptyFile() returns (schedule: seq<(nat, Move)>)
    ensures Reaches(schedule, 2, State(true, false, 11, Some(0), [AppendDeferred, Idle, PreparingFailed]))
    ensures CompactionIsLost(State(true, true, 11, Some(0), [AppendUnlocked, Idle, PreparingFailed]))
    ensures exists finish :: LeavesRequest(10, State(true, true, 11, Some(0), [AppendUnlocked, Idle, PreparingFailed]), finish, false)
  {
    hide Reaches, StepOf, LeavesRequest;
    schedule := ManualCompactionIsAsked();
    schedule := ManualCompactionLooks(schedule);
    schedule := PreparationGivesUp(schedule);
    schedule := AppendDefersToPreparation(schedule);
    LostFrom(schedule, 2, State(true, false, 11, Some(0), [AppendDeferred, Idle, PreparingFailed]), State(true, true, 11, Some(0), [AppendUnlocked, Idle, PreparingFailed]));
  }

  lemma AppendDefersToPreparation(before: seq<(nat, Move)>) returns (schedule: seq<(nat, Move)>)
    requires Reaches(before, 2, State(true, false, 0, None, [Idle, Idle, PreparingFailed]))
    ensures Reaches(schedule, 2, State(true, false, 11, Some(0), [AppendDeferred, Idle, PreparingFailed]))
  {
    hide Reaches;
    var s7, s8 := State(true, false, 0, None, [Idle, Idle, PreparingFailed]), State(true, false, 11, Some(0), [AppendDeferred, Idle, PreparingFailed]);
    schedule := ThenTwice(before, 2, s7, 0, StartAppend(11), Go, s8);
  }

  lemma PreparationGivesUp(before: seq<(nat, Move)>) returns (schedule: seq<(nat, Move)>)
    requires Reaches(before, 2, State(false, true, 0, None, [Idle, CompactReleased]))
    ensures Reaches(schedule, 2, State(true, false, 0, None, [Idle, Idle, PreparingFailed]))
  {
    hide Reaches;
    var s5, s6 := State(false, true, 0, None, [Idle, CompactReleased]), State(true, false, 0, None, [Idle, Idle, Preparing]);
    schedule := ThenTwice(before, 2, s5, 1, Go, Go, s6);
    schedule := ThenTwice(schedule, 2, s6, 2, Go, Go, State(true, false, 0, None, [Idle, Idle, PreparingFailed]));
  }

  lemma ManualCompactionLooks(before: seq<(nat, Move)>) returns (schedule: seq<(nat, Move)>)
    requires Reaches(before, 2, State(true, true, 11, None, [Idle, CompactOwner]))
    ensures Reaches(schedule, 2, State(false, true, 0, None, [Idle, CompactReleased]))
  {
    hide Reaches;
    var s3, s4 := State(true, true, 11, None, [Idle, CompactOwner]), State(true, true, 0, None, [Idle, Compacting]);
    schedule := ThenTwice(before, 2, s3, 1, Go, Go, s4);
    schedule := ThenTwice(schedule, 2, s4, 1, Go, Go, State(false, true, 0, None, [Idle, CompactReleased]));
  }

  lemma ManualCompactionIsAsked() returns (schedule: seq<(nat, Move)>)
    ensures Reaches(schedule, 2, State(true, true, 11, None, [Idle, CompactOwner]))
  {
    var s0, s1 := State(false, false, 0, None, [Idle, Idle]), State(true, false, 0, None, [Idle, CompactOwner]);
    assert Start(2).threads == [Idle, Idle];
    assert Start(2) == s0 && Reaches([], 2, s0);
    hide Reaches;
    schedule := Then([], 2, s0, 1, StartCompact, s1);
    var s2, s3 := State(true, false, 11, Some(0), [AppendDeferred, CompactOwner]), State(true, true, 11, None, [Idle, CompactOwner]);
    schedule := ThenTwice(schedule, 2, s1, 0, StartAppend(11), Go, s2);
    schedule := ThenTwice(schedule, 2, s2, 0, Go, Go, s3);
  }

  /** What stays unseen is not compacted. */
  lemma LostWillNotCompact(s: State)
    ensures WillCompact(s) ==> WillLook(s, false)
  {
  }

  /** A manual compaction that has given the flag up clears the request of an append that found the
      flag taken again, finds it taken too and leaves; the owner then sees no request. The request
      was looked at, and the compaction is lost all the same. */
  lemma LostToALateSwap() returns (schedule: seq<(nat, Move)>)
    ensures Reaches(schedule, 2, State(true, false, 11, Some(0), [AppendDeferred, CompactReleased, Running]))
    ensures WillLook(State(true, false, 11, Some(0), [AppendDeferred, CompactReleased, Running]), false)
    ensures CompactionIsLost(State(true, true, 11, Some(0), [AppendUnlocked, CompactReleased, Running]))
  {
    hide Reaches, StepOf, StaysOverLimit;
    var s := State(true, false, 11, Some(0), [AppendDeferred, CompactReleased, Running]);
    schedule := ManualCompactionReleases();
    schedule := AppendDefersAgain(schedule);
    assert s.threads[2] == Running && s.threads[1] == CompactReleased;
    CompactionLostFrom(schedule, 2, s, State(true, true, 11, Some(0), [AppendUnlocked, CompactReleased, Running]));
  }

  lemma ManualCompactionReleases() returns (schedule: seq<(nat, Move)>)
    ensures Reaches(schedule, 2, State(false, false, 0, None, [Idle, CompactReleased]))
  {
    var s0, s1 := State(false, false, 0, None, [Idle, Idle]), State(true, false, 0, None, [Idle, CompactOwner]);
    assert Start(2).threads == [Idle, Idle];
    assert Start(2) == s0 && Reaches([], 2, s0);
    hide Reaches;
    schedule := Then([], 2, s0, 1, StartCompact, s1);
    var s2 := State(true, false, 0, None, [Idle, CompactFinished]);
    schedule := ThenTwice(schedule, 2, s1, 1, Go, Go, s2);
    schedule := Then(schedule, 2, s2, 1, Go, State(false, false, 0, None, [Idle, CompactReleased]));
  }

  lemma AppendDefersAgain(before: seq<(nat, Move)>) returns (schedule: seq<(nat, Move)>)
    requires Reaches(before, 2, State(false, false, 0, None, [Idle, CompactReleased]))
    ensures Reaches(schedule, 2, State(true, false, 11, Some(0), [AppendDeferred, CompactReleased, Running]))
  {
    hide Reaches;
    var s3, s4 := State(false, false, 0, None, [Idle, CompactReleased]), State(true, false, 11, Some(0), [AppendOwner, CompactReleased]);
    schedule := ThenTwice(before, 2, s3, 0, StartAppend(11), Go, s4);
    var s5 := State(true, false, 0, None, [Idle, CompactReleased, Running]);
    schedule := ThenTwice(schedule, 2, s4, 0, Go, Go, s5);
    schedule := ThenTwice(schedule, 2, s5, 0, StartAppend(11), Go, State(true, false, 11, Some(0), [AppendDeferred, CompactReleased, Running]));
  }

  lemma CompactionLostFrom(schedule: seq<(nat, Move)>, threads: nat, s: State, stored: State)
    requires Reaches(schedule, threads, s) && 0 < |s.threads| && s.threads[0] == AppendDeferred && !WillCompact(s)
    requires stored.threads == s.threads[0 := AppendUnlocked] && stored.(threads := []) == s.(pending := true, threads := [])
    ensures CompactionIsLost(stored)
  {
    hide StaysOverLimit, StepOf, WillCompact;
    CompactionFollowsIff(10, threads, schedule, 0, false);
    assert stored == To(s.(pending := true), 0, AppendUnlocked);
  }

  lemma LostFrom(schedule: seq<(nat, Move)>, threads: nat, s: State, stored: State)
    requires Reaches(schedule, threads, s) && 0 < |s.threads| && s.threads[0] == AppendDeferred && !WillLook(s, false)
    requires stored.threads == s.threads[0 := AppendUnlocked] && stored.(threads := []) == s.(pending := true, threads := [])
    ensures exists finish :: LeavesRequest(10, stored, finish, false)
    ensures CompactionIsLost(stored)
  {
    hide LeavesRequest, StepOf, WillLook, CompactionIsLost;
    LostWillNotCompact(s);
    CompactionLostFrom(schedule, threads, s, stored);
    RequestIsSeenIff(10, threads, schedule, 0, false);
    assert stored == To(s.(pending := true), 0, AppendUnlocked);
  }
}
