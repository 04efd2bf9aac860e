/** When each step of the protocols is possible, and what registers and unregisters a subscription:
    the other side of the invariants, which hold of runs with fewer steps as well. */
module Guards {
  import opened Events
  import opened Days
  import O = Ownership
  import Q = SidecarQueue
  import P = CompactionProtocol
  import H = Handover
  import S = ServedRuns

  // ----- compaction flags -----

  /** An idle thread can append whenever the lock is free and compact by hand at any time; a thread that
      is on its way can go on, with or without success, unless it waits for the lock. */
  lemma MoveIsPossibleIff(maxBytes: nat, s: O.State, t: nat, move: O.Move)
    requires t < |s.threads|
    ensures O.StepOf(maxBytes, s, t, move).Some? <==>
            match move
            case StartAppend(_) => s.threads[t] == O.Idle && s.lock == None
            case StartCompact => s.threads[t] == O.Idle
            case Continue(_) => s.threads[t] != O.Idle && s.threads[t] != O.Gone && (s.threads[t] == O.CompactOwner || s.threads[t] == O.Preparing ==> s.lock == None)
  {
  }

  // ----- the priority lock -----

  /** A thread outside may ask, one that is awake may look, one that sleeps may wake up for no reason,
      and a holder may give the guard back. */
  lemma QueueStepIsPossibleIff(s: Q.State, step: Q.Step)
    requires step.t < |s.threads|
    ensures Q.Next(s, step).Some? <==>
            match step
            case Acquire(t, _) => s.threads[t] == Q.Outside
            case LookAgain(t) => s.threads[t].Waiting? && !s.threads[t].asleep && (s.threads[t].kind == Q.Compaction ==> s.pendingCompactions > 0)
            case Drop(t) => s.threads[t].Holding?
            case SpuriousWakeup(t) => s.threads[t].Waiting?
  {
  }

  // ----- storage -----

  /** A worker can take a waiting day while fewer days are in work than there are workers, and go on
      with a day it has, or fail. */
  lemma WorkerStepIsPossibleIff(s: P.State, day: U64)
    requires s.job.Some?
    ensures P.Next(s, P.Take(day)).Some? <==>
            var job := s.job.value; day in job.days && job.days[day] == P.Waiting && |P.Active(job)| < job.workers && job.file in s.files
    ensures P.Next(s, P.Replace(day)).Some? <==> day in s.job.value.days && s.job.value.days[day].Merging?
    ensures P.Next(s, P.Summarise(day)).Some? <==> day in s.job.value.days && s.job.value.days[day].Replaced?
    ensures P.Next(s, P.FailDay(day)).Some? <==>
            day in s.job.value.days && (s.job.value.days[day].Merging? || s.job.value.days[day].Replaced?)
  {
  }

  /** The owner of a compaction in an open process gives up when no worker is busy, takes the path off
      the list when all days are summarised, and then removes the file or fails to. */
  lemma OwnerStepIsPossibleIff(s: P.State)
    requires s.mode == P.Opened && s.job.Some?
    ensures P.Next(s, P.FailJob).Some? <==> !s.job.value.unlisted && forall day :: day in s.job.value.days ==> !P.IsActive(s.job.value.days[day])
    ensures P.Next(s, P.Unlist).Some? <==> !s.job.value.unlisted && forall day :: day in s.job.value.days ==> s.job.value.days[day] == P.Summarised
    ensures P.Next(s, P.RemoveFile).Some? <==> s.job.value.unlisted
    ensures P.Next(s, P.KeepFile).Some? <==> s.job.value.unlisted
    ensures P.Next(s, P.KeepFile).Some? ==> P.Next(s, P.KeepFile).value == s.(job := None)
  {
    assert P.Active(s.job.value) == {} <==> forall day :: day in s.job.value.days ==> day !in P.Active(s.job.value);
  }

  /** An append is possible in an open process whenever no query takes its snapshot, compaction or not;
      a rotation then, unless a compaction is under way. A crash is possible at any time. */
  lemma ProcessStepIsPossibleIff(s: P.State, p: Packet, file: nat, workers: nat)
    ensures P.Next(s, P.Append(p)).Some? <==>
            s.mode == P.Opened && !s.query.HotRead? && !s.query.Gathering? && forall q :: q in s.appended && q.id == p.id ==> q == p
    ensures P.Next(s, P.Rotate(file, workers)).Some? <==>
            s.mode == P.Opened && !s.query.HotRead? && !s.query.Gathering? && s.job == None && file !in s.files && workers > 0
    ensures P.Next(s, P.Crash) == Some(s.(listed := [], job := None, mode := P.Down, query := P.Idle))
    ensures P.Next(s, P.Restart).Some? <==> s.mode == P.Down
    ensures P.Next(s, P.Recover(file, workers)).Some? <==> s.mode == P.Recovering && s.job == None && file in s.files && workers > 0
    ensures P.Next(s, P.Serve).Some? <==> s.mode == P.Recovering && s.job == None && s.files == map[]
  {
  }

  /** A compaction of a file has as many workers as configured, but no more than days. */
  lemma WorkersOf(s: P.State, step: P.Step)
    requires (step.Rotate? || step.Recover?) && P.Next(s, step).Some?
    ensures var t, days := P.Next(s, step).value, |DaysIn(if step.Rotate? then s.hot else s.files[step.file])|;
            t.job.Some? && t.job.value.workers == if step.workers < days then step.workers else days
  {
  }

  // ----- subscriptions -----

  /** Anybody may subscribe, unsubscribe and insert at any time; sends may succeed or fail. */
  lemma HandoverStepIsPossibleIff(s: H.State, step: H.Step)
    requires |s.filters| == |s.snapshots| == |s.delivered|
    ensures H.Next(s, step).Some? <==>
            match step
            case Subscribe(_) => true
            case Unsubscribe(_) => true
            case InsertEvent(_, _) => true
            case DropRequest(id) => id < |s.snapshots| && s.snapshots[id].Requested?
            case Collect(t) => t < |s.inserts| && s.inserts[t].Appended?
            case SendLive(t, _) => t < |s.inserts| && s.inserts[t].Notifying? && s.inserts[t].targets != [] && s.inserts[t].targets[0] < |s.delivered|
            case StartSnapshot(id) => id < |s.snapshots| && s.snapshots[id].Requested?
            case SendSnapshot(id, p, _) => id < |s.snapshots| && s.snapshots[id].Sending? && p in s.appended && p !in s.snapshots[id].sent
            case EndSnapshot(id, _) =>
              id < |s.snapshots| && s.snapshots[id].Sending? && forall p :: p in s.snapshots[id].base && H.WantsAll(s.filters[id], p) ==> p in s.snapshots[id].sent
            case FailSnapshot(id) => id < |s.snapshots| && s.snapshots[id].Sending?
  {
    hide H.WantsAll;
  }

  /** What takes a subscription off the list. */
  predicate Unregisters(s: H.State, step: H.Step, id: nat) {
    match step
    case DropRequest(other) => other == id
    case Unsubscribe(other) => other == id
    case SendLive(t, ok) => !ok && t < |s.inserts| && s.inserts[t].Notifying? && s.inserts[t].targets != [] && s.inserts[t].targets[0] == id
    case SendSnapshot(other, _, ok) => !ok && other == id
    case EndSnapshot(other, ok) => !ok && other == id
    case FailSnapshot(other) => other == id
    case _ => false
  }

  /** A subscription is on the list from the moment it subscribes until it leaves or a send to it
      fails, and nothing else takes it off. */
  lemma RegisteredIff(s: H.State, step: H.Step, id: nat)
    requires H.Inv(s) && H.Next(s, step).Some?
    ensures var t := H.Next(s, step).value;
            && |s.filters| <= |t.filters|
            && (id < |t.filters| ==>
                  (H.Registered(t, id) <==>
                     if id < |s.filters| then H.Registered(s, id) && !Unregisters(s, step, id) else step.Subscribe? && t.filters[id] == step.filters))
  {
    hide H.WantsAll, H.MatchingIds, H.Without, H.NoGap, H.StreamsInOrder;
    var t := H.Next(s, step).value;
    if step.DropRequest? || step.Unsubscribe? || step.SendSnapshot? || step.EndSnapshot? || step.FailSnapshot? {
      H.WithoutMembers(s.entries, step.id);
    } else if step.SendLive? {
      H.WithoutMembers(s.entries, s.inserts[step.t].targets[0]);
    }
  }

  // ----- both together -----

  predicate Once(ids: seq<nat>) {
    forall i, j :: 0 <= i < j < |ids| ==> ids[i] != ids[j]
  }

  lemma NoneTwice()
    ensures Once([])
  {
  }

  lemma OnceMore(init: seq<nat>, last: nat)
    ensures Once(init + [last]) <==> Once(init) && last !in init
  {
    var ids := init + [last];
    assert forall i :: 0 <= i < |init| ==> ids[i] == init[i];
    assert forall i :: 0 <= i < |init| && init[i] == last ==> ids[i] == ids[|init|];
  }

  /** The snapshots of a batch can begin together exactly if all of them were requested, each once; no
      other snapshot is touched. */
  lemma {:induction false} BatchBeginsIff(h: H.State, ids: seq<nat>)
    requires S.SameLengths(h)
    ensures S.StartAll(h, ids).Some? <==> Once(ids) && forall id :: id in ids ==> id < |h.snapshots| && h.snapshots[id].Requested?
    ensures S.StartAll(h, ids).Some? ==>
            var g := S.StartAll(h, ids).value;
            |g.snapshots| == |h.snapshots| &&
            forall id :: 0 <= id < |h.snapshots| ==> if id in ids then !g.snapshots[id].Requested? else g.snapshots[id] == h.snapshots[id]
  {
    hide Once, H.WantsAll;
    if ids == [] {
      NoneTwice();
    } else {
      var init, last := ids[..|ids| - 1], ids[|ids| - 1];
      assert ids == init + [last];
      BatchBeginsIff(h, init);
      OnceMore(init, last);
      assert forall id :: id in ids <==> id in init || id == last;
    }
  }

  /** An insertion waits for a query that takes its snapshot and for nothing else; a batch can begin
      then too, once its subscriptions wait for their snapshots. */
  lemma ServedStepIsPossibleIff(s: S.State, p: Packet, notify: bool, ids: seq<nat>)
    requires s.storage.mode == P.Opened && S.SameLengths(s.handover)
    ensures S.Next(s, S.Insert(p, notify)).Some? <==>
            !s.storage.query.HotRead? && !s.storage.query.Gathering? && forall q :: q in s.storage.appended && q.id == p.id ==> q == p
    ensures S.Next(s, S.Begin(ids)).Some? <==>
            && !s.storage.query.HotRead? && !s.storage.query.Gathering?
            && Once(ids) && forall id :: id in ids ==> id < |s.handover.snapshots| && s.handover.snapshots[id].Requested?
  {
    BatchBeginsIff(s.handover, ids);
    ProcessStepIsPossibleIff(s.storage, p, 0, 1);
    HandoverStepIsPossibleIff(s.handover, H.InsertEvent(p, notify));
  }
}
