/** Subscriptions: registration, the live path, the snapshot, and the handover between the two, in
    every interleaving of subscribers, inserting threads and snapshot workers. */
module Handover {
  import opened Events
  import opened Answer
  import opened BatchedSpec

  datatype Entry = Entry(id: nat, filters: seq<Filter>)

  predicate MatchesEntry(filters: seq<Filter>, p: Packet) {
    filters == [] || exists f :: f in filters && MatchesFilter(f, p)
  }

  function MatchingIds(entries: seq<Entry>, p: Packet): seq<nat> {
    if entries == [] then []
    else
      var last := entries[|entries| - 1];
      MatchingIds(entries[..|entries| - 1], p) + (if MatchesEntry(last.filters, p) then [last.id] else [])
  }

  function Without(entries: seq<Entry>, id: nat): seq<Entry> {
    Retain(OtherIds(id), entries)
  }

  function OtherIds(id: nat): Entry -> bool {
    (e: Entry) => e.id != id
  }

  lemma {:induction false} MatchingIdsMembers(entries: seq<Entry>, p: Packet)
    ensures forall id :: id in MatchingIds(entries, p) <==> exists e :: e in entries && e.id == id && MatchesEntry(e.filters, p)
  {
    if entries != [] {
      hide MatchesEntry;
      var n := |entries| - 1;
      MatchingIdsMembers(entries[..n], p);
      assert entries == entries[..n] + [entries[n]];
      forall id
        ensures id in MatchingIds(entries, p) <==> exists e :: e in entries && e.id == id && MatchesEntry(e.filters, p)
      {
        if e :| e in entries && e.id == id && MatchesEntry(e.filters, p) {
          assert e in entries[..n] || e == entries[n];
        }
        if id in MatchingIds(entries[..n], p) {
          var e :| e in entries[..n] && e.id == id && MatchesEntry(e.filters, p);
          assert e in entries;
        }
      }
    }
  }

  lemma WithoutMembers(entries: seq<Entry>, id: nat)
    ensures forall e :: e in Without(entries, id) <==> e in entries && e.id != id
  {
    RetainMembers(OtherIds(id), entries);
  }

  class SubscriptionManager {
    var nextId: nat
    var entries: seq<Entry>
    ghost var used: set<nat>

    /** Ids are handed out once: `used` holds every id ever handed out. */
    ghost predicate Valid()
      reads this
    {
      && (forall id :: id in used ==> id < nextId)
      && (forall e :: e in entries ==> e.id in used)
      && DistinctIds(entries)
    }

    constructor ()
      ensures Valid() && entries == [] && used == {}
    {
      nextId, entries, used := 1, [], {};
    }

    method Register(filters: seq<Filter>) returns (id: nat)
      requires Valid()
      modifies this
      ensures Valid() && entries == old(entries) + [Entry(id, filters)]
      ensures id !in old(used) && used == old(used) + {id}
    {
      id := nextId;
      nextId := nextId + 1;
      used := used + {id};
      entries := entries + [Entry(id, filters)];
    }

    method Unregister(id: nat)
      requires Valid()
      modifies this`entries
      ensures Valid() && entries == Without(old(entries), id)
    {
      var kept: seq<Entry> := [];
      WithoutKeepsIds(entries, id);
      for i := 0 to |entries|
        invariant kept == Without(entries[..i], id)
      {
        assert entries[..i + 1][..i] == entries[..i];
        if entries[i].id != id {
          kept := kept + [entries[i]];
        }
      }
      assert entries[..|entries|] == entries;
      WithoutMembers(entries, id);
      entries := kept;
    }

    method CollectMatchingSenders(p: Packet) returns (ids: seq<nat>)
      ensures ids == MatchingIds(entries, p)
    {
      hide MatchesEntry;
      ids := [];
      for i := 0 to |entries|
        invariant ids == MatchingIds(entries[..i], p)
      {
        assert entries[..i + 1][..i] == entries[..i];
        if MatchesEntry(entries[i].filters, p) {
          ids := ids + [entries[i].id];
        }
      }
      assert entries[..|entries|] == entries;
    }
  }

  ghost predicate DistinctIds(entries: seq<Entry>) {
    forall i, j :: 0 <= i < j < |entries| ==> entries[i].id != entries[j].id
  }

  lemma {:induction false} WithoutKeepsIds(entries: seq<Entry>, id: nat)
    requires DistinctIds(entries)
    ensures DistinctIds(Without(entries, id))
  {
    if entries != [] {
      var n := |entries| - 1;
      WithoutKeepsIds(entries[..n], id);
      WithoutMembers(entries[..n], id);
      var init := Without(entries[..n], id);
      forall i | 0 <= i < |init|
        ensures init[i].id != entries[n].id
      {
        assert init[i] in init;
        assert init[i] in entries[..n];
      }
    }
  }

  // ----- the interleaving -----

  /** What a subscriber's channel carries; `snapshot` tells which path an event came by. */
  datatype Item = Event(packet: Packet, snapshot: bool) | Eose

  /** `base` is what had been appended when the snapshot query began, `sent` what it delivered. */
  datatype Snapshot = Requested | Sending(base: set<Packet>, sent: set<Packet>) | Ended(base: set<Packet>) | Stopped

  /** An insertion with notification, after its append. */
  datatype Insert = Appended(p: Packet) | Notifying(p: Packet, targets: seq<nat>)

  datatype State = State(
    appended: set<Packet>,
    notified: set<Packet>,
    entries: seq<Entry>,
    filters: seq<seq<Filter>>,
    snapshots: seq<Snapshot>,
    delivered: seq<seq<Item>>,
    inserts: seq<Insert>
  )

  /** Subscriptions are numbered in the order they register; `ok` says whether a send succeeds. */
  datatype Step =
    | Subscribe(filters: seq<Filter>)
    | DropRequest(id: nat)
    | Unsubscribe(id: nat)
    | InsertEvent(p: Packet, notify: bool)
    | Collect(t: nat)
    | SendLive(t: nat, ok: bool)
    | StartSnapshot(id: nat)
    | SendSnapshot(id: nat, p: Packet, ok: bool)
    | EndSnapshot(id: nat, ok: bool)
    | FailSnapshot(id: nat)

  function SetSnapshot(s: State, id: nat, snapshot: Snapshot): State
    requires id < |s.snapshots|
  {
    s.(snapshots := s.snapshots[id := snapshot])
  }

  function Deliver(s: State, id: nat, item: Item): State
    requires id < |s.delivered|
  {
    s.(delivered := s.delivered[id := s.delivered[id] + [item]])
  }

  function Unregister(s: State, id: nat): State {
    s.(entries := Without(s.entries, id))
  }

  /** A filter that asks for every matching event: no limit and no search terms. */
  predicate Unlimited(f: Filter) {
    f.limit == None && f.terms == []
  }

  predicate WantsAll(filters: seq<Filter>, p: Packet) {
    exists f :: f in filters && Unlimited(f) && MatchesWithoutSearch(f, p)
  }

  function SubscriberStep(s: State, step: Step): Option<State> {
    match step
    case Subscribe(filters) =>
      Some(s.(entries := s.entries + [Entry(|s.snapshots|, filters)], filters := s.filters + [filters],
              snapshots := s.snapshots + [Requested], delivered := s.delivered + [[]]))
    case DropRequest(id) =>
      if id < |s.snapshots| && s.snapshots[id].Requested? then Some(SetSnapshot(Unregister(s, id), id, Stopped)) else None
    case Unsubscribe(id) => Some(Unregister(s, id))
    case _ => None
  }

  /** An insertion appends before it looks for subscribers. */
  function InsertStep(s: State, step: Step): Option<State> {
    match step
    case InsertEvent(p, notify) =>
      if notify then Some(s.(appended := s.appended + {p}, notified := s.notified + {p}, inserts := s.inserts + [Appended(p)]))
      else Some(s.(appended := s.appended + {p}))
    case Collect(t) =>
      if t < |s.inserts| && s.inserts[t].Appended?
      then Some(s.(inserts := s.inserts[t := Notifying(s.inserts[t].p, MatchingIds(s.entries, s.inserts[t].p))]))
      else None
    case SendLive(t, ok) =>
      if t < |s.inserts| && s.inserts[t].Notifying? && s.inserts[t].targets != [] && s.inserts[t].targets[0] < |s.delivered| then
        var p, targets := s.inserts[t].p, s.inserts[t].targets;
        var rest := s.(inserts := s.inserts[t := Notifying(p, targets[1..])]);
        Some(if ok then Deliver(rest, targets[0], Event(p, false)) else Unregister(rest, targets[0]))
      else None
    case _ => None
  }

  /** The end marker is sent, or refused. */
  function EndedState(s: State, id: nat, ok: bool): State
    requires id < |s.snapshots| && id < |s.delivered| && s.snapshots[id].Sending?
  {
    if ok then Deliver(SetSnapshot(s, id, Ended(s.snapshots[id].base)), id, Eose) else SetSnapshot(Unregister(s, id), id, Stopped)
  }

  /** The snapshot query delivers matching events; it ends only when it has delivered all events
      that had been appended before it began and that an unlimited filter wants. */
  function SnapshotStep(s: State, step: Step): Option<State> {
    match step
    case StartSnapshot(id) =>
      if id < |s.snapshots| && s.snapshots[id].Requested? then Some(SetSnapshot(s, id, Sending(s.appended, {}))) else None
    case SendSnapshot(id, p, ok) =>
      if id < |s.snapshots| && id < |s.delivered| && s.snapshots[id].Sending? && p in s.appended && p !in s.snapshots[id].sent then
        var sending := s.snapshots[id];
        Some(if ok then Deliver(SetSnapshot(s, id, sending.(sent := sending.sent + {p})), id, Event(p, true))
             else SetSnapshot(Unregister(s, id), id, Stopped))
      else None
    case EndSnapshot(id, ok) =>
      if && id < |s.snapshots| && id < |s.delivered| && id < |s.filters| && s.snapshots[id].Sending?
         && (forall p :: p in s.snapshots[id].base && WantsAll(s.filters[id], p) ==> p in s.snapshots[id].sent)
      then Some(EndedState(s, id, ok))
      else None
    case FailSnapshot(id) =>
      if id < |s.snapshots| && s.snapshots[id].Sending? then Some(SetSnapshot(Unregister(s, id), id, Stopped)) else None
    case _ => None
  }

  function Next(s: State, step: Step): Option<State> {
    if step.Subscribe? || step.DropRequest? || step.Unsubscribe? then SubscriberStep(s, step)
    else if step.InsertEvent? || step.Collect? || step.SendLive? then InsertStep(s, step)
    else SnapshotStep(s, step)
  }

  const Start := State({}, {}, [], [], [], [], [])

  function After(s: State, steps: seq<Step>): Option<State> {
    if steps == [] then Some(s)
    else
      var before := After(s, steps[..|steps| - 1]);
      if before.None? then None else Next(before.value, steps[|steps| - 1])
  }

  // ----- the invariant -----

  predicate Registered(s: State, id: nat)
    requires id < |s.filters|
  {
    Entry(id, s.filters[id]) in s.entries
  }

  ghost predicate HasArrived(items: seq<Item>, p: Packet) {
    Event(p, true) in items || Event(p, false) in items
  }

  ghost predicate OnItsWay(inserts: seq<Insert>, id: nat, p: Packet) {
    exists t: nat :: t < |inserts| && inserts[t].p == p && (inserts[t].Appended? || id in inserts[t].targets)
  }

  /** The snapshot will bring the event. */
  predicate InSnapshot(snapshot: Snapshot, p: Packet) {
    snapshot.Requested? || (snapshot.Sending? && p in snapshot.base && p !in snapshot.sent)
  }

  /** Neither path owes the event: it came without notification after the snapshot had begun. */
  predicate Unannounced(s: State, snapshot: Snapshot, p: Packet) {
    p !in s.notified && ((snapshot.Sending? && p !in snapshot.base) || (snapshot.Ended? && p !in snapshot.base))
  }

  ghost predicate Reaches(s: State, id: nat, p: Packet)
    requires id < |s.filters| == |s.snapshots| == |s.delivered|
  {
    || HasArrived(s.delivered[id], p)
    || OnItsWay(s.inserts, id, p)
    || InSnapshot(s.snapshots[id], p)
    || Unannounced(s, s.snapshots[id], p)
  }

  ghost predicate NoGap(s: State)
    requires |s.filters| == |s.snapshots| == |s.delivered|
  {
    forall id: nat, p :: id < |s.filters| && Registered(s, id) && p in s.appended && WantsAll(s.filters[id], p) ==> Reaches(s, id, p)
  }

  /** What has been sent was delivered; an ended snapshot put one end marker behind its events. */
  ghost predicate StreamInOrder(items: seq<Item>, filters: seq<Filter>, snapshot: Snapshot) {
    match snapshot
    case Requested => Eose !in items && forall p :: Event(p, true) !in items
    case Sending(base, sent) => Eose !in items && forall p :: Event(p, true) in items <==> p in sent
    case Ended(base) => exists i :: EndsAt(items, i) && forall p :: p in base && WantsAll(filters, p) ==> Event(p, true) in items[..i]
    case Stopped => Eose !in items
  }

  ghost predicate EndsAt(items: seq<Item>, i: int) {
    && 0 <= i < |items| && items[i] == Eose && Eose !in items[..i]
    && forall k :: i < k < |items| ==> items[k].Event? && !items[k].snapshot
  }

  ghost predicate StreamsInOrder(s: State)
    requires |s.filters| == |s.snapshots| == |s.delivered|
  {
    forall id: nat :: id < |s.filters| ==> StreamInOrder(s.delivered[id], s.filters[id], s.snapshots[id])
  }

  ghost predicate Shape(s: State) {
    && |s.filters| == |s.snapshots| == |s.delivered|
    && (forall e :: e in s.entries ==> e.id < |s.filters| && e.filters == s.filters[e.id])
    && (forall t, id :: 0 <= t < |s.inserts| && s.inserts[t].Notifying? && id in s.inserts[t].targets ==> id < |s.filters|)
    && (forall id: nat :: id < |s.snapshots| && s.snapshots[id].Stopped? ==> !Registered(s, id))
    && (forall id: nat :: id < |s.snapshots| && (s.snapshots[id].Sending? || s.snapshots[id].Ended?) ==> s.snapshots[id].base <= s.appended)
    && s.notified <= s.appended
  }

  ghost predicate Inv(s: State) {
    && Shape(s)
    && NoGap(s)
    && StreamsInOrder(s)
  }

  // ----- every step keeps the invariant -----

  lemma SubscribeKeeps(s: State, filters: seq<Filter>)
    requires Inv(s)
    ensures Inv(SubscriberStep(s, Subscribe(filters)).value)
  {
    hide WantsAll, StreamInOrder;
    var t, n := SubscriberStep(s, Subscribe(filters)).value, |s.filters|;
    forall id: nat, p | id < |t.filters| && Registered(t, id) && p in t.appended && WantsAll(t.filters[id], p)
      ensures Reaches(t, id, p)
    {
      if id < n {
        assert Registered(s, id);
        assert Reaches(s, id, p);
      }
    }
    forall id: nat | id < |t.filters|
      ensures StreamInOrder(t.delivered[id], t.filters[id], t.snapshots[id])
    {
      if id == n {
        NothingDelivered(filters);
      } else {
        assert StreamInOrder(s.delivered[id], s.filters[id], s.snapshots[id]);
      }
    }
  }

  lemma NothingDelivered(filters: seq<Filter>)
    ensures StreamInOrder([], filters, Requested)
  {
  }

  /** Taking a subscription off the list, perhaps with its snapshot. */
  lemma UnregisterKeeps(s: State, t: State, id: nat)
    requires Inv(s) && Shape(t) && t.filters == s.filters && t.delivered == s.delivered && t.appended == s.appended && t.notified == s.notified
    requires t.entries == Without(s.entries, id)
    requires t.snapshots == s.snapshots || (id < |s.snapshots| && t.snapshots == s.snapshots[id := Stopped] && !s.snapshots[id].Ended?)
    requires forall other, p :: other != id && OnItsWay(s.inserts, other, p) ==> OnItsWay(t.inserts, other, p)
    ensures Inv(t)
  {
    hide WantsAll, OnItsWay;
    WithoutMembers(s.entries, id);
    forall other: nat, p | other < |t.filters| && Registered(t, other) && p in t.appended && WantsAll(t.filters[other], p)
      ensures Reaches(t, other, p)
    {
      assert Registered(s, other) && other != id;
      assert Reaches(s, other, p);
    }
    forall other: nat | other < |t.filters|
      ensures StreamInOrder(t.delivered[other], t.filters[other], t.snapshots[other])
    {
      assert StreamInOrder(s.delivered[other], s.filters[other], s.snapshots[other]);
    }
  }

  lemma SubscriberKeeps(s: State, step: Step)
    requires Inv(s) && SubscriberStep(s, step).Some?
    ensures Inv(SubscriberStep(s, step).value)
  {
    match step
    case Subscribe(filters) => SubscribeKeeps(s, filters);
    case DropRequest(id) =>
      WithoutMembers(s.entries, id);
      hide NoGap, StreamsInOrder;
      UnregisterKeeps(s, SubscriberStep(s, step).value, id);
    case Unsubscribe(id) =>
      WithoutMembers(s.entries, id);
      hide NoGap, StreamsInOrder;
      UnregisterKeeps(s, SubscriberStep(s, step).value, id);
  }

  lemma InsertEventKeeps(s: State, p: Packet, notify: bool)
    requires Inv(s)
    ensures Inv(InsertStep(s, InsertEvent(p, notify)).value)
  {
    hide WantsAll, StreamInOrder, StreamsInOrder;
    var t := InsertStep(s, InsertEvent(p, notify)).value;
    assert StreamsInOrder(t) by {
      forall id: nat | id < |t.filters|
        ensures StreamInOrder(t.delivered[id], t.filters[id], t.snapshots[id])
      {
        StreamAt(s, id);
      }
      StreamsAt(t);
    }
    forall id: nat, q | id < |t.filters| && Registered(t, id) && q in t.appended && WantsAll(t.filters[id], q)
      ensures Reaches(t, id, q)
    {
      assert Registered(s, id);
      if q == p && notify {
        assert t.inserts[|s.inserts|] == Appended(p);
        assert OnItsWay(t.inserts, id, q);
      } else {
        if OnItsWay(s.inserts, id, q) {
          StillOnItsWay(s.inserts, t.inserts, id, q);
        }
        if q in s.appended {
          assert Reaches(s, id, q);
        }
      }
    }
  }

  lemma StreamAt(s: State, id: nat)
    requires |s.filters| == |s.snapshots| == |s.delivered| && StreamsInOrder(s) && id < |s.filters|
    ensures StreamInOrder(s.delivered[id], s.filters[id], s.snapshots[id])
  {
  }

  lemma StreamsAt(s: State)
    requires |s.filters| == |s.snapshots| == |s.delivered|
    requires forall id: nat :: id < |s.filters| ==> StreamInOrder(s.delivered[id], s.filters[id], s.snapshots[id])
    ensures StreamsInOrder(s)
  {
  }

  lemma StillOnItsWay(before: seq<Insert>, after: seq<Insert>, id: nat, p: Packet)
    requires before <= after && OnItsWay(before, id, p)
    ensures OnItsWay(after, id, p)
  {
    var t: nat :| t < |before| && before[t].p == p && (before[t].Appended? || id in before[t].targets);
    assert after[t] == before[t];
  }

  lemma CollectKeeps(s: State, t: nat)
    requires Inv(s) && InsertStep(s, Collect(t)).Some?
    ensures Inv(InsertStep(s, Collect(t)).value)
  {
    hide WantsAll, StreamInOrder, StreamsInOrder, MatchesEntry;
    var after, q := InsertStep(s, Collect(t)).value, s.inserts[t].p;
    MatchingIdsMembers(s.entries, q);
    assert StreamsInOrder(after) by {
      forall id: nat | id < |s.filters|
        ensures StreamInOrder(after.delivered[id], after.filters[id], after.snapshots[id])
      {
        StreamAt(s, id);
      }
      StreamsAt(after);
    }
    forall id: nat, p | id < |after.filters| && Registered(after, id) && p in after.appended && WantsAll(after.filters[id], p)
      ensures Reaches(after, id, p)
    {
      assert Registered(s, id) && Reaches(s, id, p);
      if OnItsWay(s.inserts, id, p) {
        var u: nat :| u < |s.inserts| && s.inserts[u].p == p && (s.inserts[u].Appended? || id in s.inserts[u].targets);
        if u == t {
          WantedMatches(s.filters[id], p);
          assert Entry(id, s.filters[id]) in s.entries;
        }
        assert after.inserts[u].p == p && (after.inserts[u].Appended? || id in after.inserts[u].targets);
      }
    }
  }

  lemma WantedMatches(filters: seq<Filter>, p: Packet)
    requires WantsAll(filters, p)
    ensures MatchesEntry(filters, p)
  {
    hide MatchesWithoutSearch;
    var f :| f in filters && Unlimited(f) && MatchesWithoutSearch(f, p);
    assert MatchesFilter(f, p);
  }

  /** One more item for one subscription, and one target less for one insertion or one packet
      more for the snapshot. */
  lemma DeliverKeeps(s: State, t: State, to: nat, item: Item)
    requires Inv(s) && Shape(t) && to < |s.filters|
    requires t == s.(inserts := t.inserts, snapshots := t.snapshots, delivered := s.delivered[to := s.delivered[to] + [item]])
    requires forall id, p :: OnItsWay(s.inserts, id, p) && (id != to || item != Event(p, false)) ==> OnItsWay(t.inserts, id, p)
    requires forall id: nat :: id < |s.snapshots| && id != to ==> t.snapshots[id] == s.snapshots[id]
    requires StreamInOrder(t.delivered[to], t.filters[to], t.snapshots[to])
    requires forall p :: Registered(s, to) && WantsAll(s.filters[to], p) && InSnapshot(s.snapshots[to], p) ==>
               InSnapshot(t.snapshots[to], p) || HasArrived(t.delivered[to], p)
    requires forall p :: Unannounced(s, s.snapshots[to], p) ==> Unannounced(t, t.snapshots[to], p)
    ensures Inv(t)
  {
    hide WantsAll, OnItsWay, StreamInOrder, StreamsInOrder, InSnapshot, Unannounced;
    forall id: nat, p | id < |t.filters| && Registered(t, id) && p in t.appended && WantsAll(t.filters[id], p)
      ensures Reaches(t, id, p)
    {
      assert Registered(s, id) && Reaches(s, id, p);
      if id != to {
        assert Unannounced(s, s.snapshots[id], p) ==> Unannounced(t, t.snapshots[id], p) by {
          SameUnannounced(s, t, s.snapshots[id], p);
        }
      }
    }
    forall id: nat | id < |t.filters|
      ensures StreamInOrder(t.delivered[id], t.filters[id], t.snapshots[id])
    {
      StreamAt(s, id);
    }
    StreamsAt(t);
  }

  lemma SameUnannounced(s: State, t: State, snapshot: Snapshot, p: Packet)
    requires t.notified == s.notified
    ensures Unannounced(s, snapshot, p) == Unannounced(t, snapshot, p)
  {
  }

  lemma SendLiveKeeps(s: State, t: nat, ok: bool)
    requires Inv(s) && InsertStep(s, SendLive(t, ok)).Some?
    ensures Inv(InsertStep(s, SendLive(t, ok)).value)
  {
    hide WantsAll, StreamInOrder, StreamsInOrder, NoGap, InSnapshot, Unannounced;
    var after, p, targets := InsertStep(s, SendLive(t, ok)).value, s.inserts[t].p, s.inserts[t].targets;
    var to := targets[0];
    assert forall id :: id in targets[1..] ==> id in targets;
    forall id, q | OnItsWay(s.inserts, id, q) && (id != to || (ok && q != p))
      ensures OnItsWay(after.inserts, id, q)
    {
      var u: nat :| u < |s.inserts| && s.inserts[u].p == q && (s.inserts[u].Appended? || id in s.inserts[u].targets);
      assert u == t ==> id in targets[1..];
      assert after.inserts[u].p == q && (after.inserts[u].Appended? || id in after.inserts[u].targets);
    }
    WithoutMembers(s.entries, to);
    if ok {
      StreamAt(s, to);
      LiveInOrder(s.delivered[to], s.filters[to], s.snapshots[to], p);
      assert forall q :: Unannounced(s, s.snapshots[to], q) ==> Unannounced(after, after.snapshots[to], q) by {
        forall q {
          SameUnannounced(s, after, s.snapshots[to], q);
        }
      }
      DeliverKeeps(s, after, to, Event(p, false));
    } else {
      UnregisterKeeps(s, after, to);
    }
  }

  lemma LiveInOrder(items: seq<Item>, filters: seq<Filter>, snapshot: Snapshot, p: Packet)
    requires StreamInOrder(items, filters, snapshot)
    ensures StreamInOrder(items + [Event(p, false)], filters, snapshot)
  {
    hide WantsAll;
    if snapshot.Ended? {
      var i :| EndsAt(items, i) && forall q :: q in snapshot.base && WantsAll(filters, q) ==> Event(q, true) in items[..i];
      var more := items + [Event(p, false)];
      assert more[..i] == items[..i];
      assert EndsAt(more, i);
    }
  }

  lemma SnapshotInOrder(items: seq<Item>, filters: seq<Filter>, base: set<Packet>, sent: set<Packet>, p: Packet)
    requires StreamInOrder(items, filters, Sending(base, sent))
    ensures StreamInOrder(items + [Event(p, true)], filters, Sending(base, sent + {p}))
  {
    var more := items + [Event(p, true)];
    forall q
      ensures Event(q, true) in more <==> q in sent + {p}
    {
      assert Event(q, true) in more <==> Event(q, true) in items || Event(q, true) == Event(p, true);
    }
  }

  lemma EoseInOrder(items: seq<Item>, filters: seq<Filter>, base: set<Packet>, sent: set<Packet>)
    requires StreamInOrder(items, filters, Sending(base, sent))
    requires forall p :: p in base && WantsAll(filters, p) ==> p in sent
    ensures StreamInOrder(items + [Eose], filters, Ended(base))
  {
    hide WantsAll;
    var more := items + [Eose];
    assert more[..|items|] == items;
    assert EndsAt(more, |items|);
  }

  lemma SnapshotKeeps(s: State, step: Step)
    requires Inv(s) && SnapshotStep(s, step).Some?
    ensures Inv(SnapshotStep(s, step).value)
  {
    match step
    case StartSnapshot(id) => StartSnapshotKeeps(s, id);
    case SendSnapshot(id, p, ok) => SendSnapshotKeeps(s, id, p, ok);
    case EndSnapshot(id, ok) => EndSnapshotKeeps(s, id, ok);
    case FailSnapshot(id) =>
      WithoutMembers(s.entries, id);
      hide NoGap, StreamsInOrder;
      UnregisterKeeps(s, SnapshotStep(s, step).value, id);
  }

  lemma StartSnapshotKeeps(s: State, id: nat)
    requires Inv(s) && SnapshotStep(s, StartSnapshot(id)).Some?
    ensures Inv(SnapshotStep(s, StartSnapshot(id)).value)
  {
    hide WantsAll, OnItsWay;
    var after := SnapshotStep(s, StartSnapshot(id)).value;
    forall other: nat, p | other < |after.filters| && Registered(after, other) && p in after.appended && WantsAll(after.filters[other], p)
      ensures Reaches(after, other, p)
    {
      assert Registered(s, other) && Reaches(s, other, p);
    }
    forall other: nat | other < |after.filters|
      ensures StreamInOrder(after.delivered[other], after.filters[other], after.snapshots[other])
    {
      StreamAt(s, other);
    }
    StreamsAt(after);
  }

  lemma SendSnapshotKeeps(s: State, id: nat, p: Packet, ok: bool)
    requires Inv(s) && SnapshotStep(s, SendSnapshot(id, p, ok)).Some?
    ensures Inv(SnapshotStep(s, SendSnapshot(id, p, ok)).value)
  {
    hide WantsAll, StreamInOrder, StreamsInOrder, NoGap, OnItsWay;
    var after := SnapshotStep(s, SendSnapshot(id, p, ok)).value;
    WithoutMembers(s.entries, id);
    if ok {
      StreamAt(s, id);
      SnapshotInOrder(s.delivered[id], s.filters[id], s.snapshots[id].base, s.snapshots[id].sent, p);
      DeliverKeeps(s, after, id, Event(p, true));
    } else {
      UnregisterKeeps(s, after, id);
    }
  }

  lemma EndSnapshotKeeps(s: State, id: nat, ok: bool)
    requires Inv(s) && SnapshotStep(s, EndSnapshot(id, ok)).Some?
    ensures Inv(SnapshotStep(s, EndSnapshot(id, ok)).value)
  {
    hide WantsAll, StreamInOrder, StreamsInOrder, NoGap, OnItsWay;
    var after := SnapshotStep(s, EndSnapshot(id, ok)).value;
    WithoutMembers(s.entries, id);
    if ok {
      StreamAt(s, id);
      EoseInOrder(s.delivered[id], s.filters[id], s.snapshots[id].base, s.snapshots[id].sent);
      DeliverKeeps(s, after, id, Eose);
    } else {
      UnregisterKeeps(s, after, id);
    }
  }

  lemma InsertKeeps(s: State, step: Step)
    requires Inv(s) && InsertStep(s, step).Some?
    ensures Inv(InsertStep(s, step).value)
  {
    hide Inv;
    if step.InsertEvent? {
      InsertEventKeeps(s, step.p, step.notify);
    } else if step.Collect? {
      CollectKeeps(s, step.t);
    } else {
      SendLiveKeeps(s, step.t, step.ok);
    }
  }

  lemma {:induction false} EveryRunKeepsInvariant(steps: seq<Step>)
    requires After(Start, steps).Some?
    ensures Inv(After(Start, steps).value)
  {
    if steps != [] {
      var init, step := steps[..|steps| - 1], steps[|steps| - 1];
      EveryRunKeepsInvariant(init);
      hide Inv, SubscriberStep, InsertStep, SnapshotStep;
      var s := After(Start, init).value;
      if step.Subscribe? || step.DropRequest? || step.Unsubscribe? {
        SubscriberKeeps(s, step);
      } else if step.InsertEvent? || step.Collect? || step.SendLive? {
        InsertKeeps(s, step);
      } else {
        SnapshotKeeps(s, step);
      }
    }
  }

  // ----- what it means -----

  /** No insertion still has the event to announce to the subscription. */
  ghost predicate Announced(s: State, id: nat, p: Packet) {
    p in s.notified && !OnItsWay(s.inserts, id, p)
  }

  /** While a subscription stays registered, every event that an unlimited filter of it wants and
      that was inserted with notification, or appended before the snapshot began, has reached the
      subscriber once its insertion and the snapshot are through. */
  lemma NoEventIsMissed(steps: seq<Step>, id: nat, p: Packet)
    requires After(Start, steps).Some?
    requires var s := After(Start, steps).value;
      && id < |s.filters| == |s.snapshots| && Registered(s, id) && WantsAll(s.filters[id], p) && p in s.appended
      && s.snapshots[id].Ended? && (Announced(s, id, p) || p in s.snapshots[id].base)
    ensures var s := After(Start, steps).value;
      id < |s.delivered| && HasArrived(s.delivered[id], p)
  {
    EveryRunKeepsInvariant(steps);
    hide After, WantsAll;
    var s := After(Start, steps).value;
    assert Reaches(s, id, p);
    StreamAt(s, id);
    if p in s.snapshots[id].base {
      var items := s.delivered[id];
      var i :| EndsAt(items, i) && forall q :: q in s.snapshots[id].base && WantsAll(s.filters[id], q) ==> Event(q, true) in items[..i];
      assert Event(p, true) in items[..i];
    }
  }

  // ----- every insertion can be announced -----

  lemma {:induction false} AfterOneMore(s: State, first: seq<Step>, step: Step)
    requires After(s, first).Some?
    ensures After(s, first + [step]) == Next(After(s, first).value, step)
  {
    assert (first + [step])[..|first|] == first;
  }

  /** Nothing but insertions went on, and no send failed. */
  predicate OnlyAnnounces(s: State, t: State) {
    t == s.(inserts := t.inserts, delivered := t.delivered) && |t.inserts| == |s.inserts|
  }

  predicate Through(insert: Insert) {
    insert.Notifying? && insert.targets == []
  }

  /** An insertion that has collected can send to all its targets. */
  lemma {:induction false} InsertSends(s: State, steps: seq<Step>, n: nat) returns (more: seq<Step>, t: State)
    requires After(Start, steps) == Some(s) && Inv(s) && n < |s.inserts| && s.inserts[n].Notifying?
    ensures After(Start, more) == Some(t) && Inv(t) && OnlyAnnounces(s, t)
    ensures t.inserts == s.inserts[n := Notifying(s.inserts[n].p, [])]
    decreases |s.inserts[n].targets|
  {
    if s.inserts[n].targets == [] {
      more, t := steps, s;
      assert s.inserts == s.inserts[n := Notifying(s.inserts[n].p, [])];
    } else {
      var step := SendLive(n, true);
      assert s.inserts[n].targets[0] in s.inserts[n].targets;
      AfterOneMore(Start, steps, step);
      InsertKeeps(s, step);
      hide Inv, After;
      more, t := InsertSends(Next(s, step).value, steps + [step], n);
    }
  }

  /** All insertions can be brought to their end, and then every registered subscriber has been told
      of, or has been or will be sent by its snapshot, every notified event it wants. */
  lemma {:induction false} InsertsFinish(s: State, steps: seq<Step>, n: nat) returns (more: seq<Step>, t: State)
    requires After(Start, steps) == Some(s) && Inv(s) && n <= |s.inserts|
    requires forall i :: 0 <= i < n ==> Through(s.inserts[i])
    ensures After(Start, more) == Some(t) && Inv(t) && OnlyAnnounces(s, t)
    ensures forall i :: 0 <= i < |t.inserts| ==> Through(t.inserts[i])
    decreases |s.inserts| - n
  {
    if n == |s.inserts| {
      more, t := steps, s;
    } else {
      var collected := steps;
      var now := s;
      if s.inserts[n].Appended? {
        AfterOneMore(Start, steps, Collect(n));
        InsertKeeps(s, Collect(n));
        collected, now := steps + [Collect(n)], Next(s, Collect(n)).value;
      }
      hide Inv, After;
      var sent, next := InsertSends(now, collected, n);
      more, t := InsertsFinish(next, sent, n + 1);
    }
  }

  /** So from every reachable state some run without failing sends leaves no event on its way. */
  lemma EveryEventCanBeAnnounced(steps: seq<Step>) returns (more: seq<Step>, t: State)
    requires After(Start, steps).Some?
    ensures After(Start, more) == Some(t) && OnlyAnnounces(After(Start, steps).value, t)
    ensures forall id: nat, p :: p in t.notified ==> Announced(t, id, p)
  {
    EveryRunKeepsInvariant(steps);
    hide After, Inv;
    more, t := InsertsFinish(After(Start, steps).value, steps, 0);
  }

  /** The end marker comes at most once, behind every snapshot event. */
  lemma EndMarkerComesOnceAndLast(steps: seq<Step>, id: nat, i: nat, j: nat)
    requires After(Start, steps).Some?
    requires var s := After(Start, steps).value;
      id < |s.delivered| && i < |s.delivered[id]| && j < |s.delivered[id]| && s.delivered[id][i] == Eose && j > i
    ensures var s := After(Start, steps).value;
      s.delivered[id][j].Event? && !s.delivered[id][j].snapshot
  {
    EveryRunKeepsInvariant(steps);
    hide After, WantsAll;
    var s := After(Start, steps).value;
    var items := s.delivered[id];
    StreamAt(s, id);
    assert Eose in items;
    var k :| EndsAt(items, k);
    assert forall l :: 0 <= l < k ==> items[l] in items[..k];
  }

  /** What the snapshot query may rely on: an unlimited filter keeps every matching event of the
      source in the answer. */
  lemma UnlimitedFilterKeepsAll(src: Source, filters: seq<Filter>, p: Packet)
    requires p in src.All() && WantsAll(filters, p)
    ensures p in Target(src, filters)
  {
    hide MatchesWithoutSearch;
    var f :| f in filters && Unlimited(f) && MatchesWithoutSearch(f, p);
    assert p in Wanted(src, f);
    assert p in Cut(Wanted(src, f), f.limit);
  }
}
