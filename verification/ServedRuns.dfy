/** Storage and subscriptions of one process in one run: an insertion is an append, and a worker
    that begins a query begins the snapshots of its batch. Followed is one query and the
    subscriptions it serves; any other query is part of the handover. */
module ServedRuns {
  import opened Events
  import opened Answer
  import opened BatchedSpec
  import opened StorageRuns
  import opened SnapshotBatch
  import P = CompactionProtocol
  import H = Handover

  datatype State = State(storage: P.State, handover: H.State, served: set<nat>)

  datatype Step =
    | Insert(p: Packet, notify: bool)
    | Begin(ids: seq<nat>)
    | End(id: nat, ok: bool)
    | Storage(move: P.Step)
    | Handover(turn: H.Step)

  /** What the worker knows when it ends the snapshot of a subscription: its query has run on what
      reader `r` read, and it has sent the listing of the answer. */
  ghost predicate HasRun(s: State, id: nat, source: Source, r: nat, received: seq<Packet>)
    requires id < |s.handover.filters|
  {
    && IsSourceOf(source, s.storage, r)
    && (forall f :: f in s.handover.filters[id] ==> HasReadFor(s.storage, r, f))
    && Lists(received, Target(source, s.handover.filters[id]))
  }

  ghost predicate MayEnd(s: State, id: nat) {
    var h := s.handover;
    && id in s.served && id < |h.filters| && id < |h.snapshots| && id < |h.delivered| && h.snapshots[id].Sending?
    && exists source, r, received :: HasRun(s, id, source, r, received) && h.snapshots[id].sent == Elements(received)
  }

  function StartAll(h: H.State, ids: seq<nat>): Option<H.State> {
    if ids == [] then Some(h)
    else
      var before := StartAll(h, ids[..|ids| - 1]);
      if before.None? then None else H.Next(before.value, H.StartSnapshot(ids[|ids| - 1]))
  }

  /** The end marker of a served subscription waits for `MayEnd` only; nothing is asked about what
      the answer holds. */
  ghost function Next(s: State, step: Step): Option<State> {
    match step
    case Insert(p, notify) =>
      var storage, handover := P.Next(s.storage, P.Append(p)), H.Next(s.handover, H.InsertEvent(p, notify));
      if storage.None? || handover.None? then None else Some(s.(storage := storage.value, handover := handover.value))
    case Begin(ids) =>
      var storage, handover := P.Next(s.storage, P.QueryBegin), StartAll(s.handover, ids);
      if storage.None? || handover.None? then None else Some(State(storage.value, handover.value, Elements(ids)))
    case End(id, ok) =>
      if MayEnd(s, id) then Some(s.(handover := H.EndedState(s.handover, id, ok))) else None
    case Storage(step) =>
      var storage := P.Next(s.storage, step);
      if step.Append? || step.QueryBegin? || step.Crash? || storage.None? then None else Some(s.(storage := storage.value))
    case Handover(step) =>
      var handover := H.Next(s.handover, step);
      if step.InsertEvent? || (step.EndSnapshot? && step.id in s.served) || handover.None? then None
      else Some(s.(handover := handover.value))
  }

  /** A process starts on whatever an earlier run of the storage left. */
  function Start(storage: P.State): State {
    State(storage, H.Start.(appended := storage.appended), {})
  }

  ghost function After(s: State, steps: seq<Step>): Option<State> {
    if steps == [] then Some(s)
    else
      var before := After(s, steps[..|steps| - 1]);
      if before.None? then None else Next(before.value, steps[|steps| - 1])
  }

  // ----- the two halves stay joined -----

  function BaseOf(query: P.Query): set<Packet> {
    if query.Idle? then {} else query.base
  }

  /** The snapshot was begun with the query. */
  predicate Shares(snapshot: H.Snapshot, query: P.Query) {
    !query.Idle? && !snapshot.Requested? && (snapshot.Stopped? || snapshot.base == query.base)
  }

  predicate SameLengths(h: H.State) {
    |h.filters| == |h.snapshots| == |h.delivered|
  }

  ghost predicate Joined(s: State) {
    && s.handover.appended == s.storage.appended
    && SameLengths(s.handover)
    && forall id :: id in s.served ==> id < |s.handover.snapshots| && Shares(s.handover.snapshots[id], s.storage.query)
  }

  lemma StorageKeepsQuery(s: P.State, step: P.Step)
    requires P.Next(s, step).Some? && !step.QueryBegin? && !step.Crash?
    ensures var t := P.Next(s, step).value;
      && t.query.Idle? == s.query.Idle? && BaseOf(t.query) == BaseOf(s.query)
      && (t.appended == if step.Append? then s.appended + {step.p} else s.appended)
  {
    hide P.MergedDay, P.NewJob, P.ReadDay, Retain;
  }

  /** A snapshot goes on, ends or stops with the base it has; one requested may begin. */
  predicate GoesOn(before: H.Snapshot, after: H.Snapshot) {
    after.Stopped? || after == before || before.Requested? || (before.Sending? && !after.Requested? && after.base == before.base)
  }

  ghost predicate HandoverGoesOn(h: H.State, g: H.State) {
    && SameLengths(g) && |h.snapshots| <= |g.snapshots|
    && forall id :: 0 <= id < |h.snapshots| ==> GoesOn(h.snapshots[id], g.snapshots[id])
  }

  lemma HandoverKeepsSnapshots(h: H.State, step: H.Step)
    requires SameLengths(h) && H.Next(h, step).Some?
    ensures HandoverGoesOn(h, H.Next(h, step).value)
    ensures H.Next(h, step).value.appended == if step.InsertEvent? then h.appended + {step.p} else h.appended
  {
    hide H.WantsAll, H.MatchingIds, H.Without;
  }

  lemma JoinedStays(s: State, t: State)
    requires Joined(s) && t.served == s.served && t.handover.appended == t.storage.appended
    requires t.storage.query.Idle? == s.storage.query.Idle? && BaseOf(t.storage.query) == BaseOf(s.storage.query)
    requires HandoverGoesOn(s.handover, t.handover)
    ensures Joined(t)
  {
  }

  lemma {:induction false} StartAllBegins(h: H.State, ids: seq<nat>)
    requires SameLengths(h) && StartAll(h, ids).Some?
    ensures var g := StartAll(h, ids).value;
      && SameLengths(g) && g.appended == h.appended
      && forall id :: id in ids ==> id < |g.snapshots| && g.snapshots[id] == H.Sending(h.appended, {})
  {
    if ids != [] {
      var init, last := ids[..|ids| - 1], ids[|ids| - 1];
      assert ids == init + [last];
      StartAllBegins(h, init);
    }
  }

  lemma NextKeepsJoined(s: State, step: Step)
    requires Joined(s) && Next(s, step).Some?
    ensures Joined(Next(s, step).value)
  {
    hide P.Next, H.Next, MayEnd;
    var t := Next(s, step).value;
    match step
    case Insert(p, notify) =>
      StorageKeepsQuery(s.storage, P.Append(p));
      HandoverKeepsSnapshots(s.handover, H.InsertEvent(p, notify));
      JoinedStays(s, t);
    case Begin(ids) =>
      QueryBegins(s.storage);
      StartAllBegins(s.handover, ids);
    case End(id, ok) =>
      EndKeepsSnapshots(s, id, ok);
      JoinedStays(s, t);
    case Storage(step) =>
      StorageKeepsQuery(s.storage, step);
      NothingMoves(s.handover);
      JoinedStays(s, t);
    case Handover(step) =>
      HandoverKeepsSnapshots(s.handover, step);
      JoinedStays(s, t);
  }

  lemma NothingMoves(h: H.State)
    requires SameLengths(h)
    ensures HandoverGoesOn(h, h)
  {
  }

  lemma EndKeepsSnapshots(s: State, id: nat, ok: bool)
    requires SameLengths(s.handover) && MayEnd(s, id)
    ensures HandoverGoesOn(s.handover, H.EndedState(s.handover, id, ok))
    ensures H.EndedState(s.handover, id, ok).appended == s.handover.appended
  {
    hide HasRun, H.Without;
  }

  lemma QueryBegins(s: P.State)
    requires P.Next(s, P.QueryBegin).Some?
    ensures var t := P.Next(s, P.QueryBegin).value; t.query.HotRead? && t.query.base == s.appended == t.appended
  {
  }

  // ----- every run is a run of the storage and a run of the handover -----

  /** What worker and handover have in common is enough for the guards of the handover: all packets
      can be sent, and then the end marker. */
  lemma GuardsHold(s: State, storageSteps: seq<P.Step>, id: nat, source: Source, r: nat, received: seq<Packet>, ok: bool)
    requires Joined(s) && P.After(P.Start, storageSteps) == Some(s.storage)
    requires id in s.served && s.handover.snapshots[id].Sending? && HasRun(s, id, source, r, received)
    ensures forall k :: 0 <= k < |received| && s.handover.snapshots[id].sent == Elements(received[..k]) ==>
              H.Next(s.handover, H.SendSnapshot(id, received[k], ok)).Some?
    ensures s.handover.snapshots[id].sent == Elements(received) ==>
              H.Next(s.handover, H.EndSnapshot(id, ok)) == Some(H.EndedState(s.handover, id, ok))
  {
    hide P.After, Target, Lists, IsSourceOf, HasReadFor, H.WantsAll, H.EndedState;
    var h := s.handover;
    assert Base(storageSteps) == s.storage.query.base by {
      SourceIsRead(source, s.storage, r);
    }
    assert h.snapshots[id] == H.Sending(Base(storageSteps), h.snapshots[id].sent);
    BatchTakesItsSteps(h, id, source, received, storageSteps, r, ok);
  }

  lemma SourceIsRead(source: Source, s: P.State, r: nat)
    requires IsSourceOf(source, s, r)
    ensures s.query.Reading?
  {
  }

  lemma HandoverConcat(h: H.State, first: seq<H.Step>, step: H.Step)
    requires H.After(h, first).Some?
    ensures H.After(h, first + [step]) == H.Next(H.After(h, first).value, step)
  {
    assert (first + [step])[..|first|] == first;
  }

  lemma StorageConcat(s: P.State, first: seq<P.Step>, step: P.Step)
    requires P.After(s, first).Some?
    ensures P.After(s, first + [step]) == P.Next(P.After(s, first).value, step)
  {
    assert (first + [step])[..|first|] == first;
  }

  lemma {:induction false} StartAllSteps(before: seq<H.Step>, h: H.State, ids: seq<nat>) returns (steps: seq<H.Step>)
    requires H.After(H.Start, before) == Some(h) && StartAll(h, ids).Some?
    ensures H.After(H.Start, steps) == StartAll(h, ids)
  {
    if ids == [] {
      steps := before;
    } else {
      steps := StartAllSteps(before, h, ids[..|ids| - 1]);
      HandoverConcat(H.Start, steps, H.StartSnapshot(ids[|ids| - 1]));
      steps := steps + [H.StartSnapshot(ids[|ids| - 1])];
    }
  }

  /** What was stored before the process started, as insertions that nobody heard of. */
  lemma {:induction false} StoredBefore(stored: set<Packet>) returns (steps: seq<H.Step>)
    ensures H.After(H.Start, steps) == Some(H.Start.(appended := stored))
  {
    if stored == {} {
      steps := [];
    } else {
      var p :| p in stored;
      steps := StoredBefore(stored - {p});
      HandoverConcat(H.Start, steps, H.InsertEvent(p, false));
      steps := steps + [H.InsertEvent(p, false)];
      assert stored - {p} + {p} == stored;
    }
  }

  lemma EndProjects(s: State, storageSteps: seq<P.Step>, id: nat, ok: bool)
    requires Joined(s) && P.After(P.Start, storageSteps) == Some(s.storage) && MayEnd(s, id)
    ensures H.Next(s.handover, H.EndSnapshot(id, ok)) == Some(H.EndedState(s.handover, id, ok))
  {
    hide HasRun, P.After, H.EndedState;
    var source, r, received :| HasRun(s, id, source, r, received) && s.handover.snapshots[id].sent == Elements(received);
    GuardsHold(s, storageSteps, id, source, r, received, ok);
  }

  lemma NextProjects(s: State, step: Step, storageSteps: seq<P.Step>, handoverSteps: seq<H.Step>)
    returns (storageSteps': seq<P.Step>, handoverSteps': seq<H.Step>)
    requires Joined(s) && Next(s, step).Some?
    requires P.After(P.Start, storageSteps) == Some(s.storage) && H.After(H.Start, handoverSteps) == Some(s.handover)
    ensures P.After(P.Start, storageSteps') == Some(Next(s, step).value.storage)
    ensures H.After(H.Start, handoverSteps') == Some(Next(s, step).value.handover)
  {
    storageSteps', handoverSteps' := storageSteps, handoverSteps;
    hide P.After, H.After, P.Next, H.Next, MayEnd, Joined;
    match step
    case Insert(p, notify) =>
      StorageConcat(P.Start, storageSteps, P.Append(p));
      HandoverConcat(H.Start, handoverSteps, H.InsertEvent(p, notify));
      storageSteps', handoverSteps' := storageSteps + [P.Append(p)], handoverSteps + [H.InsertEvent(p, notify)];
    case Begin(ids) =>
      StorageConcat(P.Start, storageSteps, P.QueryBegin);
      storageSteps' := storageSteps + [P.QueryBegin];
      handoverSteps' := StartAllSteps(handoverSteps, s.handover, ids);
    case End(id, ok) =>
      EndProjects(s, storageSteps, id, ok);
      HandoverConcat(H.Start, handoverSteps, H.EndSnapshot(id, ok));
      handoverSteps' := handoverSteps + [H.EndSnapshot(id, ok)];
    case Storage(step) =>
      StorageConcat(P.Start, storageSteps, step);
      storageSteps' := storageSteps + [step];
    case Handover(step) =>
      HandoverConcat(H.Start, handoverSteps, step);
      handoverSteps' := handoverSteps + [step];
  }

  /** Every joint run is a run of the storage and, though the end markers are sent on the worker's
      word, a run of the handover; and the base of each served snapshot is the base of the query. */
  lemma {:induction false} RunsProject(before: seq<P.Step>, steps: seq<Step>) returns (storageSteps: seq<P.Step>, handoverSteps: seq<H.Step>)
    requires P.After(P.Start, before).Some? && After(Start(P.After(P.Start, before).value), steps).Some?
    ensures var s := After(Start(P.After(P.Start, before).value), steps).value;
      Joined(s) && P.After(P.Start, storageSteps) == Some(s.storage) && H.After(H.Start, handoverSteps) == Some(s.handover)
  {
    var start := Start(P.After(P.Start, before).value);
    if steps == [] {
      storageSteps := before;
      handoverSteps := StoredBefore(start.storage.appended);
    } else {
      storageSteps, handoverSteps := RunsProject(before, steps[..|steps| - 1]);
      hide Joined, Next, P.After, H.After;
      var s, step := After(start, steps[..|steps| - 1]).value, steps[|steps| - 1];
      NextKeepsJoined(s, step);
      storageSteps, handoverSteps := NextProjects(s, step, storageSteps, handoverSteps);
    }
  }

  // ----- what it means -----

  /** In every joint run a worker whose query has run can go on to the end marker: as long as it has
      sent a beginning of the listing it can send the next packet, and then it can end. */
  lemma WorkerCanFinish(before: seq<P.Step>, steps: seq<Step>, id: nat, source: Source, r: nat, received: seq<Packet>, ok: bool)
    requires P.After(P.Start, before).Some? && After(Start(P.After(P.Start, before).value), steps).Some?
    requires var s := After(Start(P.After(P.Start, before).value), steps).value;
      && id in s.served && id < |s.handover.filters| == |s.handover.snapshots| && s.handover.snapshots[id].Sending?
      && HasRun(s, id, source, r, received)
    ensures var s := After(Start(P.After(P.Start, before).value), steps).value;
      && (forall k :: 0 <= k < |received| && s.handover.snapshots[id].sent == Elements(received[..k]) ==>
            Next(s, Handover(H.SendSnapshot(id, received[k], ok))).Some?)
      && (s.handover.snapshots[id].sent == Elements(received) ==> Next(s, End(id, ok)).Some?)
  {
    var storageSteps, handoverSteps := RunsProject(before, steps);
    hide P.After, H.After, After, HasRun, H.Next;
    var s := After(Start(P.After(P.Start, before).value), steps).value;
    GuardsHold(s, storageSteps, id, source, r, received, ok);
  }

  /** In every joint run: while a subscription stays registered, every event that an unlimited filter
      of it wants and that was inserted with notification, or was stored when its query began, has
      reached the subscriber once its insertion and its snapshot are through. */
  lemma NoEventIsMissed(before: seq<P.Step>, steps: seq<Step>, id: nat, p: Packet)
    requires P.After(P.Start, before).Some? && After(Start(P.After(P.Start, before).value), steps).Some?
    requires var s := After(Start(P.After(P.Start, before).value), steps).value;
      && id in s.served && id < |s.handover.filters| == |s.handover.snapshots|
      && H.Registered(s.handover, id) && H.WantsAll(s.handover.filters[id], p)
      && s.handover.snapshots[id].Ended? && p in s.storage.appended
      && (H.Announced(s.handover, id, p) || p in BaseOf(s.storage.query))
    ensures var s := After(Start(P.After(P.Start, before).value), steps).value;
      id < |s.handover.delivered| && H.HasArrived(s.handover.delivered[id], p)
  {
    var storageSteps, handoverSteps := RunsProject(before, steps);
    hide P.After, H.After, After, H.WantsAll, H.Announced, H.Registered;
    H.NoEventIsMissed(handoverSteps, id, p);
  }
}
