/** Who owns compaction: the running and pending flags and the state lock, shared by appending
    threads, manual compactions and compaction threads, in every interleaving of their steps. */
module Ownership {
  import opened Events

  /** Where a thread is. Appending threads start and end `Idle`, as do manual compactions;
      compaction threads are spawned at `Running` or `Preparing` and end `Gone`. */
  datatype Pc =
    | Idle
    | AppendLocked
    | AppendOwner
    | AppendDeferred
    | AppendUnlocked
    | CompactOwner
    | CompactLocked
    | Compacting
    | CompactFinished
    | CompactReleased
    | CompactRecapture
    | Preparing
    | PreparingLocked
    | PreparingFailed
    | Running
    | Swapping
    | Releasing
    | Reswapping
    | Recapturing
    | Gone

  datatype State = State(running: bool, pending: bool, hotBytes: nat, lock: Option<nat>, threads: seq<Pc>)

  /** An idle thread appends some bytes or compacts by hand; any other thread goes on, and `ok`
      says whether a rotation on the way succeeds. */
  datatype Move = StartAppend(bytes: nat) | StartCompact | Continue(ok: bool)

  // ----- one step of one thread -----

  function To(s: State, t: nat, pc: Pc): State
    requires t < |s.threads|
  {
    s.(threads := s.threads[t := pc])
  }

  function Spawn(s: State, pc: Pc): State {
    s.(threads := s.threads + [pc])
  }

  function Unlock(s: State): State {
    s.(lock := None)
  }

  /** Takes the running flag if it is free. */
  function Capture(s: State, t: nat, taken: Pc, refused: Pc): State
    requires t < |s.threads|
  {
    if s.running then To(s, t, refused) else To(s.(running := true), t, taken)
  }

  function SwapPending(s: State, t: nat, wasSet: Pc, wasClear: Pc): State
    requires t < |s.threads|
  {
    To(s.(pending := false), t, if s.pending then wasSet else wasClear)
  }

  function AppendStep(maxBytes: nat, s: State, t: nat, move: Move): Option<State>
    requires t < |s.threads|
  {
    match (s.threads[t], move)
    case (Idle, StartAppend(bytes)) =>
      if s.lock.Some? then None
      else
        var hotBytes := s.hotBytes + bytes;
        Some(To(s.(lock := Some(t), hotBytes := hotBytes), t, if hotBytes > maxBytes then AppendLocked else AppendUnlocked))
    case (AppendLocked, Continue(_)) => Some(Capture(s, t, AppendOwner, AppendDeferred))
    case (AppendDeferred, Continue(_)) => Some(To(s.(pending := true), t, AppendUnlocked))
    case (AppendOwner, Continue(ok)) =>
      if ok then Some(Spawn(To(s.(hotBytes := 0), t, AppendUnlocked), Running))
      else Some(To(s.(running := false), t, AppendUnlocked))
    case (AppendUnlocked, Continue(_)) => Some(Unlock(To(s, t, Idle)))
    case _ => None
  }

  function CompactStep(s: State, t: nat, move: Move): Option<State>
    requires t < |s.threads|
  {
    match (s.threads[t], move)
    case (Idle, StartCompact) => Some(Capture(s, t, CompactOwner, Idle))
    case (CompactOwner, Continue(_)) => if s.lock.Some? then None else Some(To(s.(lock := Some(t)), t, CompactLocked))
    case (CompactLocked, Continue(ok)) =>
      if s.hotBytes == 0 || !ok then Some(Unlock(To(s, t, CompactFinished)))
      else Some(Unlock(To(s.(hotBytes := 0), t, Compacting)))
    case (Compacting, Continue(_)) => Some(To(s, t, CompactFinished))
    case (CompactFinished, Continue(_)) => Some(To(s.(running := false), t, CompactReleased))
    case (CompactReleased, Continue(_)) => Some(SwapPending(s, t, CompactRecapture, Idle))
    case (CompactRecapture, Continue(_)) =>
      if s.running then Some(To(s, t, Idle)) else Some(Spawn(To(s.(running := true), t, Idle), Preparing))
    case _ => None
  }

  function QueueStep(maxBytes: nat, s: State, t: nat, move: Move): Option<State>
    requires t < |s.threads|
  {
    match (s.threads[t], move)
    case (Preparing, Continue(_)) => if s.lock.Some? then None else Some(To(s.(lock := Some(t)), t, PreparingLocked))
    case (PreparingLocked, Continue(ok)) =>
      if s.hotBytes <= maxBytes || !ok then Some(Unlock(To(s, t, PreparingFailed)))
      else Some(Unlock(To(s.(hotBytes := 0), t, Running)))
    case (PreparingFailed, Continue(_)) => Some(To(s.(running := false), t, Gone))
    case (Running, Continue(_)) => Some(To(s, t, Swapping))
    case (Swapping, Continue(_)) => Some(SwapPending(s, t, Preparing, Releasing))
    case (Releasing, Continue(_)) => Some(To(s.(running := false), t, Reswapping))
    case (Reswapping, Continue(_)) => Some(SwapPending(s, t, Recapturing, Gone))
    case (Recapturing, Continue(_)) => Some(Capture(s, t, Preparing, Gone))
    case _ => None
  }

  function StepOf(maxBytes: nat, s: State, t: nat, move: Move): Option<State>
    requires t < |s.threads|
  {
    var appended := AppendStep(maxBytes, s, t, move);
    if appended.Some? then appended
    else
      var compacted := CompactStep(s, t, move);
      if compacted.Some? then compacted else QueueStep(maxBytes, s, t, move)
  }

  /** A schedule names the thread to move next. */
  function After(maxBytes: nat, s: State, schedule: seq<(nat, Move)>): Option<State> {
    if schedule == [] then Some(s)
    else
      var before, last := After(maxBytes, s, schedule[..|schedule| - 1]), schedule[|schedule| - 1];
      if before.None? || last.0 >= |before.value.threads| then None else StepOf(maxBytes, before.value, last.0, last.1)
  }

  function Start(threads: nat): State {
    State(false, false, 0, None, seq(threads, _ => Idle))
  }

  // ----- the invariant -----

  predicate Owns(pc: Pc) {
    || pc == AppendOwner
    || pc == CompactOwner || pc == CompactLocked || pc == Compacting || pc == CompactFinished
    || pc == Preparing || pc == PreparingLocked || pc == PreparingFailed
    || pc == Running || pc == Swapping || pc == Releasing
  }

  predicate HoldsLock(pc: Pc) {
    pc == AppendLocked || pc == AppendOwner || pc == AppendDeferred || pc == AppendUnlocked || pc == CompactLocked || pc == PreparingLocked
  }

  predicate Compacts(pc: Pc) {
    pc == Running || pc == Compacting
  }

  ghost predicate IsOwner(s: State, t: nat) {
    t < |s.threads| && Owns(s.threads[t])
  }

  ghost predicate OneOwner(s: State) {
    && (s.running <==> exists t :: IsOwner(s, t))
    && (forall t, u :: IsOwner(s, t) && IsOwner(s, u) ==> t == u)
  }

  ghost predicate LockIsHeld(s: State) {
    && (s.lock.Some? ==> s.lock.value < |s.threads|)
    && forall t :: 0 <= t < |s.threads| ==> (HoldsLock(s.threads[t]) <==> s.lock == Some(t))
  }

  ghost predicate Inv(s: State) {
    OneOwner(s) && LockIsHeld(s)
  }

  /** What a step does to the flag: nothing, taking it, giving it up, or passing it on. */
  predicate FlagMoves(running: bool, pc: Pc, after: bool, pcAfter: Pc, spawned: seq<Pc>) {
    || (after == running && Owns(pcAfter) == Owns(pc) && spawned == [])
    || (!running && after && !Owns(pc) && Owns(pcAfter) && spawned == [])
    || (!running && after && !Owns(pc) && !Owns(pcAfter) && spawned != [])
    || (!after && Owns(pc) && !Owns(pcAfter) && spawned == [])
    || (after == running && Owns(pc) && !Owns(pcAfter) && spawned != [])
  }

  predicate LockMoves(lock: Option<nat>, t: nat, pc: Pc, after: Option<nat>, pcAfter: Pc) {
    || (after == lock && HoldsLock(pcAfter) == HoldsLock(pc))
    || (lock == None && after == Some(t) && !HoldsLock(pc) && HoldsLock(pcAfter))
    || (after == None && HoldsLock(pc) && !HoldsLock(pcAfter))
  }

  /** One thread moves on, may spawn a compaction thread, and moves the flag and the lock. */
  ghost predicate Moves(s: State, t: nat, after: State)
    requires t < |s.threads|
  {
    exists pcAfter, spawned :: MovesTo(s, t, after, pcAfter, spawned)
  }

  predicate MovesTo(s: State, t: nat, after: State, pcAfter: Pc, spawned: seq<Pc>)
    requires t < |s.threads|
  {
    && after.threads == s.threads[t := pcAfter] + spawned
    && (spawned == [] || spawned == [Running] || spawned == [Preparing])
    && FlagMoves(s.running, s.threads[t], after.running, pcAfter, spawned)
    && LockMoves(s.lock, t, s.threads[t], after.lock, pcAfter)
  }

  lemma AppendMoves(maxBytes: nat, s: State, t: nat, move: Move)
    requires t < |s.threads| && AppendStep(maxBytes, s, t, move).Some?
    ensures Moves(s, t, AppendStep(maxBytes, s, t, move).value)
  {
    var after := AppendStep(maxBytes, s, t, move).value;
    assert MovesTo(s, t, after, after.threads[t], after.threads[|s.threads|..]);
  }

  lemma CompactMoves(s: State, t: nat, move: Move)
    requires t < |s.threads| && CompactStep(s, t, move).Some?
    ensures Moves(s, t, CompactStep(s, t, move).value)
  {
    var after := CompactStep(s, t, move).value;
    assert MovesTo(s, t, after, after.threads[t], after.threads[|s.threads|..]);
  }

  lemma QueueMoves(maxBytes: nat, s: State, t: nat, move: Move)
    requires t < |s.threads| && QueueStep(maxBytes, s, t, move).Some?
    ensures Moves(s, t, QueueStep(maxBytes, s, t, move).value)
  {
    var after := QueueStep(maxBytes, s, t, move).value;
    assert MovesTo(s, t, after, after.threads[t], after.threads[|s.threads|..]);
  }

  lemma StepMoves(maxBytes: nat, s: State, t: nat, move: Move) returns (pcAfter: Pc, spawned: seq<Pc>)
    requires t < |s.threads| && StepOf(maxBytes, s, t, move).Some?
    ensures MovesTo(s, t, StepOf(maxBytes, s, t, move).value, pcAfter, spawned)
  {
    hide AppendStep, CompactStep, QueueStep, MovesTo;
    var after := StepOf(maxBytes, s, t, move).value;
    if AppendStep(maxBytes, s, t, move).Some? {
      AppendMoves(maxBytes, s, t, move);
    } else if CompactStep(s, t, move).Some? {
      CompactMoves(s, t, move);
    } else {
      QueueMoves(maxBytes, s, t, move);
    }
    pcAfter, spawned :| MovesTo(s, t, after, pcAfter, spawned);
  }

  lemma StepKeepsOwner(maxBytes: nat, s: State, t: nat, move: Move)
    requires OneOwner(s) && t < |s.threads| && StepOf(maxBytes, s, t, move).Some?
    ensures OneOwner(StepOf(maxBytes, s, t, move).value)
  {
    var pcAfter, spawned := StepMoves(maxBytes, s, t, move);
    hide StepOf, Owns;
    var after := StepOf(maxBytes, s, t, move).value;
    forall u: nat | u != t && u < |s.threads|
      ensures IsOwner(after, u) <==> IsOwner(s, u)
    {
    }
    assert spawned != [] ==> IsOwner(after, |s.threads|) by {
      assert Owns(Running) && Owns(Preparing);
    }
    assert IsOwner(s, t) <==> Owns(s.threads[t]);
    assert IsOwner(after, t) <==> Owns(pcAfter);
  }

  lemma StepKeepsLock(maxBytes: nat, s: State, t: nat, move: Move)
    requires LockIsHeld(s) && t < |s.threads| && StepOf(maxBytes, s, t, move).Some?
    ensures LockIsHeld(StepOf(maxBytes, s, t, move).value)
  {
    var pcAfter, spawned := StepMoves(maxBytes, s, t, move);
    assert forall pc :: pc in spawned ==> !HoldsLock(pc);
    hide StepOf, HoldsLock;
    var after := StepOf(maxBytes, s, t, move).value;
    forall u | 0 <= u < |after.threads|
      ensures HoldsLock(after.threads[u]) <==> after.lock == Some(u)
    {
      if u >= |s.threads| {
        assert after.threads[u] in spawned;
      } else if u != t {
        assert after.threads[u] == s.threads[u];
      }
    }
  }

  lemma {:induction false} EveryScheduleKeepsInvariant(maxBytes: nat, threads: nat, schedule: seq<(nat, Move)>)
    requires After(maxBytes, Start(threads), schedule).Some?
    ensures Inv(After(maxBytes, Start(threads), schedule).value)
  {
    if schedule != [] {
      var init, last := schedule[..|schedule| - 1], schedule[|schedule| - 1];
      EveryScheduleKeepsInvariant(maxBytes, threads, init);
      hide StepOf, OneOwner, LockIsHeld;
      var s := After(maxBytes, Start(threads), init).value;
      StepKeepsOwner(maxBytes, s, last.0, last.1);
      StepKeepsLock(maxBytes, s, last.0, last.1);
    }
  }

  // ----- what it means -----

  /** The flag is set exactly while one thread owns compaction; so two compactions never overlap,
      and the hot file is never rotated while one runs. */
  lemma CompactionsNeverOverlap(maxBytes: nat, threads: nat, schedule: seq<(nat, Move)>, t: nat, u: nat)
    requires After(maxBytes, Start(threads), schedule).Some?
    requires var s := After(maxBytes, Start(threads), schedule).value;
      t < |s.threads| && u < |s.threads| && t != u && Compacts(s.threads[t])
    ensures var s := After(maxBytes, Start(threads), schedule).value;
      s.running && !Owns(s.threads[u]) && !Compacts(s.threads[u])
  {
    EveryScheduleKeepsInvariant(maxBytes, threads, schedule);
    hide After;
    var s := After(maxBytes, Start(threads), schedule).value;
    assert IsOwner(s, t);
    assert Compacts(s.threads[u]) ==> IsOwner(s, u);
    assert Owns(s.threads[u]) ==> IsOwner(s, u);
  }

  ghost predicate Rotates(maxBytes: nat, s: State, t: nat, move: Move) {
    && t < |s.threads| && move == Continue(true)
    && (s.threads[t] == AppendOwner
        || (s.threads[t] == CompactLocked && s.hotBytes > 0)
        || (s.threads[t] == PreparingLocked && s.hotBytes > maxBytes))
  }

  /** The bytes of the hot file are handed over only by the owner, holding the lock, while no
      thread compacts; the step ends with exactly one thread compacting. */
  lemma RotationsHaveOneOwner(maxBytes: nat, threads: nat, schedule: seq<(nat, Move)>, t: nat, move: Move)
    requires After(maxBytes, Start(threads), schedule).Some?
    requires Rotates(maxBytes, After(maxBytes, Start(threads), schedule).value, t, move)
    ensures var s := After(maxBytes, Start(threads), schedule).value;
      && s.running && s.lock == Some(t) && (forall u :: 0 <= u < |s.threads| ==> !Compacts(s.threads[u]))
      && StepOf(maxBytes, s, t, move).Some?
      && var after := StepOf(maxBytes, s, t, move).value;
         after.hotBytes == 0 && exists u :: 0 <= u < |after.threads| && Compacts(after.threads[u])
  {
    EveryScheduleKeepsInvariant(maxBytes, threads, schedule);
    hide After;
    var s := After(maxBytes, Start(threads), schedule).value;
    assert IsOwner(s, t);
    forall u | 0 <= u < |s.threads|
      ensures !Compacts(s.threads[u])
    {
      assert Compacts(s.threads[u]) ==> IsOwner(s, u);
    }
    var after := StepOf(maxBytes, s, t, move).value;
    assert Compacts(after.threads[if s.threads[t] == AppendOwner then |s.threads| else t]);
  }

  /** Shrinking the hot file is a rotation. */
  lemma OnlyRotationsEmptyTheHotFile(maxBytes: nat, s: State, t: nat, move: Move)
    requires t < |s.threads| && StepOf(maxBytes, s, t, move).Some?
    ensures StepOf(maxBytes, s, t, move).value.hotBytes < s.hotBytes ==> Rotates(maxBytes, s, t, move)
  {
  }

  /** Only a thread's own moves change where it is. */
  lemma {:induction false} OthersLeaveThread(maxBytes: nat, s: State, others: seq<(nat, Move)>, t: nat)
    requires t < |s.threads| && After(maxBytes, s, others).Some? && forall i :: 0 <= i < |others| ==> others[i].0 != t
    ensures var after := After(maxBytes, s, others).value; t < |after.threads| && after.threads[t] == s.threads[t]
  {
    if others != [] {
      var init, last := others[..|others| - 1], others[|others| - 1];
      OthersLeaveThread(maxBytes, s, init, t);
      hide StepOf;
      var pcAfter, spawned := StepMoves(maxBytes, After(maxBytes, s, init).value, last.0, last.1);
    }
  }

  lemma {:induction false} AfterConcat(maxBytes: nat, s: State, first: seq<(nat, Move)>, second: seq<(nat, Move)>)
    requires After(maxBytes, s, first).Some?
    ensures After(maxBytes, s, first + second) == After(maxBytes, After(maxBytes, s, first).value, second)
  {
    if second == [] {
      assert first + second == first;
    } else {
      var init := second[..|second| - 1];
      AfterConcat(maxBytes, s, first, init);
      assert (first + second)[..|first + second| - 1] == first + init;
    }
  }

  /** An append that leaves the file over the limit and finds the flag free starts a compaction,
      whatever the other threads do between its steps, unless its rotation fails; with the flag
      taken, another thread owns compaction already. */
  lemma AppendOverLimitStartsCompaction(maxBytes: nat, threads: nat, schedule: seq<(nat, Move)>, t: nat, others: seq<(nat, Move)>)
    requires After(maxBytes, Start(threads), schedule).Some?
    requires var s := After(maxBytes, Start(threads), schedule).value;
      t < |s.threads| && s.threads[t] == AppendLocked
    requires forall i :: 0 <= i < |others| ==> others[i].0 != t
    ensures var s := After(maxBytes, Start(threads), schedule).value;
      if s.running then exists u :: u != t && IsOwner(s, u)
      else
        var between := After(maxBytes, Start(threads), schedule + [(t, Continue(true))] + others);
        var rotated := After(maxBytes, Start(threads), schedule + [(t, Continue(true))] + others + [(t, Continue(true))]);
        between.Some? ==>
          && (forall u :: 0 <= u < |between.value.threads| ==> !Compacts(between.value.threads[u]))
          && rotated.Some? && rotated.value.hotBytes == 0 && rotated.value.running && Running in rotated.value.threads
  {
    EveryScheduleKeepsInvariant(maxBytes, threads, schedule);
    var s := After(maxBytes, Start(threads), schedule).value;
    if s.running {
      var u :| IsOwner(s, u);
      assert u != t;
    } else {
      var once := schedule + [(t, Continue(true))];
      var captured := To(s.(running := true), t, AppendOwner);
      assert once[..|once| - 1] == schedule;
      assert After(maxBytes, Start(threads), once) == Some(captured);
      AfterConcat(maxBytes, Start(threads), once, others);
      if After(maxBytes, Start(threads), once + others).Some? {
        OwnerRotates(maxBytes, threads, once, others, t);
      }
    }
  }

  lemma OwnerRotates(maxBytes: nat, threads: nat, once: seq<(nat, Move)>, others: seq<(nat, Move)>, t: nat)
    requires After(maxBytes, Start(threads), once).Some? && After(maxBytes, Start(threads), once + others).Some?
    requires var s := After(maxBytes, Start(threads), once).value; t < |s.threads| && s.threads[t] == AppendOwner
    requires forall i :: 0 <= i < |others| ==> others[i].0 != t
    ensures var between := After(maxBytes, Start(threads), once + others).value;
      forall u :: 0 <= u < |between.threads| ==> !Compacts(between.threads[u])
    ensures var rotated := After(maxBytes, Start(threads), once + others + [(t, Continue(true))]);
      rotated.Some? && rotated.value.hotBytes == 0 && rotated.value.running && Running in rotated.value.threads
  {
    AfterConcat(maxBytes, Start(threads), once, others);
    OthersLeaveThread(maxBytes, After(maxBytes, Start(threads), once).value, others, t);
    RotationsHaveOneOwner(maxBytes, threads, once + others, t, Continue(true));
    var whole := once + others + [(t, Continue(true))];
    assert whole[..|whole| - 1] == once + others;
    hide IsOwner;
    var between := After(maxBytes, Start(threads), once + others).value;
    assert After(maxBytes, Start(threads), whole) == StepOf(maxBytes, between, t, Continue(true));
    assert After(maxBytes, Start(threads), whole).value.threads[|between.threads|] == Running;
  }

  function ThenDo(schedule: seq<(nat, Move)>, t: nat, move: Move): seq<(nat, Move)> {
    schedule + [(t, move)]
  }

  lemma OneMore(maxBytes: nat, s: State, schedule: seq<(nat, Move)>, t: nat, move: Move)
    requires After(maxBytes, s, schedule).Some? && t < |After(maxBytes, s, schedule).value.threads|
    ensures After(maxBytes, s, ThenDo(schedule, t, move)) == StepOf(maxBytes, After(maxBytes, s, schedule).value, t, move)
  {
    assert ThenDo(schedule, t, move)[..|schedule|] == schedule;
  }
}
