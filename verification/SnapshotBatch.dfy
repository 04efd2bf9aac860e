/** A worker's batch of subscription snapshots, from the query engine through the channels to the
    handover: a snapshot that is ended holds what its unlimited filters want. */
module SnapshotBatch {
  import opened Events
  import opened Answer
  import opened BatchedSpec
  import opened BatchedQuery
  import opened StorageRuns
  import P = CompactionProtocol
  import H = Handover

  datatype Request = Request(id: nat, filters: seq<Filter>)

  /** What a worker sees of the channels of its requests, which others may close at any time:
      whether each is open before the query runs, whether it is closed when the query asks, and
      whether it takes the last delivery and, in the end, the end marker. `encodes` says whether
      the packet of the last delivery can be turned into an event. */
  datatype Channels = Channels(
    openAtStart: nat -> bool,
    closed: (seq<Delivery>, U64, nat) -> bool,
    takes: (seq<Delivery>, nat) -> bool,
    takesEnd: (seq<Delivery>, nat) -> bool,
    encodes: seq<Delivery> -> bool
  )

  /** A closed channel takes nothing any more. */
  ghost predicate ClosedIsFinal(c: Channels) {
    forall before: seq<Delivery>, log: seq<Delivery>, day: U64, q: nat :: before <= log && c.closed(before, day, q) ==> !c.takesEnd(log, q)
  }

  /** The channel of request `q` refused some delivery. */
  predicate Refused(c: Channels, log: seq<Delivery>, q: nat) {
    exists n :: 0 < n <= |log| && q in log[n - 1].queries && !c.takes(log[..n], q)
  }

  predicate StillActive(c: Channels, log: seq<Delivery>, q: nat) {
    c.openAtStart(q) && !Refused(c, log, q)
  }

  function Refusing(c: Channels, log: seq<Delivery>): nat -> bool {
    (q: nat) => !c.takes(log, q)
  }

  /** The callbacks a worker hands to the query. */
  function ClientOf(c: Channels): Client {
    Client((log: seq<Delivery>, day: U64, q: nat) => StillActive(c, log, q) && !c.closed(log, day, q),
           (log: seq<Delivery>) => if log == [] || !c.encodes(log) then Failed else Dropped(Retain(Refusing(c, log), log[|log| - 1].queries)))
  }

  /** The channel was closed when the client was asked after `n` deliveries. */
  ghost predicate ClosedAt(c: Channels, rounds: Rounds, log: seq<Delivery>, n: nat, q: nat)
    requires n <= |log|
  {
    exists day :: (n, day) in rounds && c.closed(log[..n], day, q)
  }

  /** The channel refused delivery `n`. */
  predicate RefusedAt(c: Channels, log: seq<Delivery>, n: nat, q: nat)
    requires n <= |log|
  {
    0 < n && q in log[n - 1].queries && c.encodes(log[..n]) && !c.takes(log[..n], q)
  }

  /** Either drops the request from the query. */
  lemma ChannelDrops(c: Channels, rounds: Rounds, log: seq<Delivery>, n: nat, q: nat)
    requires n <= |log|
    ensures ClosedAt(c, rounds, log, n, q) || RefusedAt(c, log, n, q) ==> DroppedAt(ClientOf(c), rounds, log, n, q)
  {
    if day :| (n, day) in rounds && c.closed(log[..n], day, q) {
      assert !ClientOf(c).isActive(log[..n], day, q);
    }
    if RefusedAt(c, log, n, q) {
      RetainMembers(Refusing(c, log[..n]), log[n - 1].queries);
    }
  }

  /** Who is given up, in terms of the channels. */
  lemma GivenUpIff(c: Channels, ok: bool, log: seq<Delivery>, q: nat)
    ensures GivenUp(c, ok, log, q) <==>
            || !ok
            || (exists n :: 0 < n <= |log| && q in log[n - 1].queries && !c.takes(log[..n], q))
            || (c.openAtStart(q) && !c.takesEnd(log, q))
    ensures StillActive(c, log, q) <==>
            c.openAtStart(q) && forall n :: 0 < n <= |log| && q in log[n - 1].queries ==> c.takes(log[..n], q)
  {
  }

  lemma TakenIfEncoded(c: Channels, log: seq<Delivery>)
    requires log != []
    ensures ClientOf(c).emit(log).Dropped? <==> c.encodes(log)
  {
  }

  /** A request that is active in the end, and whose channel takes the end marker, was never
      dropped from the query. */
  lemma EndedWasNotDropped(c: Channels, rounds: Rounds, log: seq<Delivery>, n: nat, q: nat)
    requires ClosedIsFinal(c) && StillActive(c, log, q) && c.takesEnd(log, q)
    requires n <= |log|
    ensures !DroppedAt(ClientOf(c), rounds, log, n, q)
  {
    if n > 0 {
      NamedHasRefused(c, log, n, q);
    }
    FoundInactiveOnlyIf(c, rounds, log, n, q);
  }

  lemma NamedHasRefused(c: Channels, log: seq<Delivery>, n: nat, q: nat)
    requires 0 < n <= |log|
    ensures DroppedAfter(ClientOf(c), log, n, q) ==> Refused(c, log, q)
  {
    RetainMembers(Refusing(c, log[..n]), log[n - 1].queries);
  }

  lemma FoundInactiveOnlyIf(c: Channels, rounds: Rounds, log: seq<Delivery>, n: nat, q: nat)
    requires ClosedIsFinal(c) && n <= |log|
    ensures FoundInactive(ClientOf(c), rounds, log, n, q) ==> !StillActive(c, log, q) || !c.takesEnd(log, q)
  {
    assert log[..n] <= log;
    RefusalStays(c, log, n, q);
    hide Refused;
    if day :| (n, day) in rounds && !ClientOf(c).isActive(log[..n], day, q) {
      assert !StillActive(c, log[..n], q) || c.closed(log[..n], day, q);
    }
  }

  lemma RefusalStays(c: Channels, log: seq<Delivery>, n: nat, q: nat)
    requires n <= |log|
    ensures Refused(c, log[..n], q) ==> Refused(c, log, q)
  {
    var before := log[..n];
    if k :| 0 < k <= |before| && q in before[k - 1].queries && !c.takes(before[..k], q) {
      assert before[..k] == log[..k];
    }
  }

  // ----- the batch -----

  /** The request is taken off the list: everything failed, or its channel refused something. */
  predicate GivenUp(c: Channels, ok: bool, log: seq<Delivery>, q: nat) {
    !ok || Refused(c, log, q) || (StillActive(c, log, q) && !c.takesEnd(log, q))
  }

  ghost predicate GivenUpId(requests: seq<Request>, c: Channels, ok: bool, log: seq<Delivery>, k: nat, id: nat)
    requires k <= |requests|
  {
    exists q :: 0 <= q < k && requests[q].id == id && GivenUp(c, ok, log, q)
  }

  /** Whatever run of the storage the source was read in, the deliveries include everything
      appended before the query began that a filter without limit and search terms wants. */
  ghost predicate Complete(source: Source, filters: seq<Filter>, received: seq<Packet>) {
    forall steps: seq<P.Step>, r: nat, p: Packet :: ReadFor(source, filters, steps, r) && p in Base(steps) && H.WantsAll(filters, p) ==>
      p in received
  }

  /** The source is what reader `r` of a query read in a run of the storage. That reader may have
      read more partitions than the query opened: those of days that nobody asked for. */
  ghost predicate ReadFor(source: Source, filters: seq<Filter>, steps: seq<P.Step>, r: nat) {
    && P.After(P.Start, steps).Some?
    && IsSourceOf(source, P.After(P.Start, steps).value, r)
    && forall f :: f in filters ==> HasReadFor(P.After(P.Start, steps).value, r, f)
  }

  ghost function Base(steps: seq<P.Step>): set<Packet> {
    var s := P.After(P.Start, steps);
    if s.Some? && s.value.query.Reading? then s.value.query.base else {}
  }

  /** The listing of the answer is complete: storage, query and handover fit together. */
  lemma AnswerIsComplete(source: Source, filters: seq<Filter>, received: seq<Packet>)
    requires Lists(received, Target(source, filters))
    ensures Complete(source, filters, received)
  {
    hide P.After, Target, MatchesWithoutSearch, IsSourceOf;
    forall steps: seq<P.Step>, r: nat, p: Packet | ReadFor(source, filters, steps, r) && p in Base(steps) && H.WantsAll(filters, p)
      ensures p in received
    {
      var f :| f in filters && H.Unlimited(f) && MatchesWithoutSearch(f, p);
      NoEventMissed(steps, r, source, f);
      assert p in P.After(P.Start, steps).value.query.base;
      assert p in source.All();
      H.UnlimitedFilterKeepsAll(source, filters, p);
      assert p in Elements(received);
    }
  }

  /** Runs the snapshot queries of a batch and ends each snapshot. The end marker goes to exactly
      the requests whose channels took everything so far, and each of those has the whole answer
      of its query; a request whose channel refused something, or every request when the query
      fails, is unregistered. */
  method ProcessBatch(source: Source, requests: seq<Request>, channels: Channels, subscriptions: H.SubscriptionManager)
    returns (ok: bool, log: seq<Delivery>, ended: seq<bool>, ghost rounds: Rounds)
    requires source.Valid() && subscriptions.Valid() && ClosedIsFinal(channels)
    modifies subscriptions
    ensures |ended| == |requests|
    ensures forall q :: 0 <= q < |requests| ==> ListsPrefix(Received(log, q), Target(source, requests[q].filters))
    ensures forall q :: 0 <= q < |requests| ==> (ended[q] <==> ok && StillActive(channels, log, q) && channels.takesEnd(log, q))
    ensures ok <==> forall n: nat :: 0 < n <= |log| ==> channels.encodes(log[..n])
    ensures !ok ==> forall n: nat :: 0 < n < |log| ==> channels.encodes(log[..n])
    ensures forall q :: 0 <= q < |requests| && ended[q] ==>
              && Lists(Received(log, q), Target(source, requests[q].filters))
              && Complete(source, requests[q].filters, Received(log, q))
    ensures OneRoundPerDay(rounds, log) && (ok ==> DaysAsked(rounds) == DaysOf(source))
    ensures forall n: nat, q: nat :: n <= |log| && q < |requests| && ClosedAt(channels, rounds, log, n, q) ==>
              Received(log, q) == Received(log[..n], q)
    ensures forall n: nat, q: nat :: 0 < n <= |log| && q < |requests| && q in log[n - 1].queries && channels.encodes(log[..n]) && !channels.takes(log[..n], q) ==>
              Received(log, q) == Received(log[..n], q)
    ensures subscriptions.Valid()
    ensures forall e :: e in subscriptions.entries <==>
              e in old(subscriptions.entries) && !GivenUpId(requests, channels, ok, log, |requests|, e.id)
  {
    hide Received, Target, Lists, ListsPrefix, Refused, Complete, GivenUp, ClientOf, DroppedAt, ClosedAt, OneRoundPerDay, DaysAsked, NoDuplicates, H.Without;
    var queries := seq(|requests|, q requires 0 <= q < |requests| => requests[q].filters);
    var active;
    ghost var storeAsked;
    ok, log, active, rounds, storeAsked := QueryStreamingBatch(source, queries, ClientOf(channels));
    forall n: nat, q: nat | n <= |log| && q < |requests|
      ensures ClosedAt(channels, rounds, log, n, q) || RefusedAt(channels, log, n, q) ==> DroppedAt(ClientOf(channels), rounds, log, n, q)
    {
      ChannelDrops(channels, rounds, log, n, q);
    }
    forall n: nat | 0 < n <= |log|
      ensures ClientOf(channels).emit(log[..n]).Dropped? <==> channels.encodes(log[..n])
    {
      TakenIfEncoded(channels, log[..n]);
    }
    ended := [];
    for q := 0 to |requests|
      invariant |ended| == q && subscriptions.Valid()
      invariant forall i :: 0 <= i < q ==> (ended[i] <==> ok && StillActive(channels, log, i) && channels.takesEnd(log, i))
      invariant forall e :: e in subscriptions.entries <==>
                  e in old(subscriptions.entries) && !GivenUpId(requests, channels, ok, log, q, e.id)
    {
      if GivenUp(channels, ok, log, q) {
        H.WithoutMembers(subscriptions.entries, requests[q].id);
        subscriptions.Unregister(requests[q].id);
      }
      ended := ended + [ok && StillActive(channels, log, q) && channels.takesEnd(log, q)];
    }
    forall q | 0 <= q < |requests| && ended[q]
      ensures Lists(Received(log, q), Target(source, requests[q].filters))
      ensures Complete(source, requests[q].filters, Received(log, q))
    {
      forall n: nat | n <= |log|
        ensures !DroppedAt(ClientOf(channels), rounds, log, n, q)
      {
        EndedWasNotDropped(channels, rounds, log, n, q);
      }
      assert active[q] && queries[q] == requests[q].filters;
      AnswerIsComplete(source, requests[q].filters, Received(log, q));
    }
    forall q | 0 <= q < |requests|
      ensures ListsPrefix(Received(log, q), Target(source, requests[q].filters))
    {
      assert queries[q] == requests[q].filters;
    }
  }

  // ----- the steps of the handover -----

  /** In every interleaving of the handover a batch can take its steps: each packet it has to send
      may be sent next, and once all are sent the guard of the end marker holds. */
  lemma BatchTakesItsSteps(h: H.State, id: nat, source: Source, received: seq<Packet>, steps: seq<P.Step>, r: nat, ok: bool)
    requires id < |h.filters| == |h.snapshots| == |h.delivered|
    requires ReadFor(source, h.filters[id], steps, r) && P.After(P.Start, steps).value.appended <= h.appended
    requires Lists(received, Target(source, h.filters[id]))
    ensures forall k :: 0 <= k < |received| && h.snapshots[id] == H.Sending(Base(steps), Elements(received[..k])) ==>
              H.Next(h, H.SendSnapshot(id, received[k], ok)).Some?
    ensures h.snapshots[id] == H.Sending(Base(steps), Elements(received)) ==> H.Next(h, H.EndSnapshot(id, ok)).Some?
  {
    hide P.After, MatchesWithoutSearch, IsSourceOf, H.WantsAll, Cut, Target, HasReadFor;
    AnswerIsComplete(source, h.filters[id], received);
    forall k | 0 <= k < |received|
      ensures received[k] in h.appended && received[k] !in Elements(received[..k])
    {
      assert received[k] in Elements(received);
      AnswersAreAppended(source, h.filters[id], steps, r, received[k]);
    }
    hide ReadFor, Complete;
    assert forall p :: p in Base(steps) && H.WantsAll(h.filters[id], p) ==> p in Elements(received) by {
      CompleteFor(source, h.filters[id], received, steps, r);
    }
  }

  lemma AnswersAreAppended(source: Source, filters: seq<Filter>, steps: seq<P.Step>, r: nat, p: Packet)
    requires ReadFor(source, filters, steps, r) && p in Target(source, filters)
    ensures p in P.After(P.Start, steps).value.appended
  {
    hide P.After, IsSourceOf, Cut;
    var f :| f in filters && p in Cut(Wanted(source, f), f.limit);
    NoEventMissed(steps, r, source, f);
  }

  lemma CompleteFor(source: Source, filters: seq<Filter>, received: seq<Packet>, steps: seq<P.Step>, r: nat)
    requires Complete(source, filters, received) && ReadFor(source, filters, steps, r)
    ensures forall p :: p in Base(steps) && H.WantsAll(filters, p) ==> p in Elements(received)
  {
    hide ReadFor, Base, H.WantsAll;
  }
}
