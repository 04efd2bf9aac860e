/** Packet cursors: lazily peeked streams over a buffer or a partition, and the merge of the
    cursors of one filter, which drops duplicates and stops at a limit. */
module Cursors {
  import opened Events
  import opened Answer

  /** What a cursor reads. A partition scan keeps the matching visible packets; a partition
      search first asks record `i` of the index for the terms, then checks packet `i` itself. */
  datatype CursorSource =
    | Buffered
    | PartitionScan(filter: Filter)
    | PartitionSearch(filter: Filter)

  datatype Visibility = Visibility(index: Option<Packet -> bool>, store: Option<Packet -> bool>)

  predicate PacketIsVisible(p: Packet, v: Visibility) {
    (v.index.Some? ==> v.index.value(p)) && (v.store.Some? ==> v.store.value(p))
  }

  /** The packets a cursor hands out of those it reads. */
  predicate Keeps(source: CursorSource, v: Visibility, p: Packet) {
    match source
    case Buffered => true
    case PartitionScan(f) => MatchesWithoutSearch(f, p) && PacketIsVisible(p, v)
    case PartitionSearch(f) => MatchesFilter(f, p) && PacketIsVisible(p, v)
  }

  function Kept(source: CursorSource, v: Visibility, packets: seq<Packet>): seq<Packet> {
    if packets == [] then []
    else (if Keeps(source, v, packets[0]) then [packets[0]] else []) + Kept(source, v, packets[1..])
  }

  lemma {:induction false} KeptMembers(source: CursorSource, v: Visibility, packets: seq<Packet>)
    ensures forall p :: p in Kept(source, v, packets) <==> p in packets && Keeps(source, v, p)
  {
    if packets != [] {
      KeptMembers(source, v, packets[1..]);
      assert packets == [packets[0]] + packets[1..];
    }
  }

  lemma {:induction false} KeptSorted(source: CursorSource, v: Visibility, packets: seq<Packet>)
    requires Sorted(packets)
    ensures Sorted(Kept(source, v, packets))
  {
    if packets != [] {
      KeptSorted(source, v, packets[1..]);
      KeptMembers(source, v, packets[1..]);
      var rest := Kept(source, v, packets[1..]);
      forall i | 0 <= i < |rest|
        ensures !Before(rest[i], packets[0])
      {
        assert rest[i] in rest;
        var k :| 0 <= k < |packets[1..]| && packets[1..][k] == rest[i];
      }
    }
  }

  class PacketCursor {
    const source: CursorSource
    const visibility: Visibility
    const packets: seq<Packet>
    var position: nat
    var pending: Option<Packet>

    ghost predicate Valid()
      reads this
    {
      position <= |packets|
    }

    /** Everything the cursor will still hand out. */
    ghost function Stream(): seq<Packet>
      requires Valid()
      reads this
    {
      (if pending.Some? then [pending.value] else []) + Kept(source, visibility, packets[position..])
    }

    constructor (source: CursorSource, visibility: Visibility, packets: seq<Packet>)
      ensures Valid() && pending == None && Stream() == Kept(source, visibility, packets)
    {
      this.source, this.visibility, this.packets := source, visibility, packets;
      this.position, this.pending := 0, None;
      new;
      assert this.packets[0..] == packets;
    }

    method NextPacket() returns (next: Option<Packet>)
      requires Valid() && pending == None
      modifies this`position
      ensures Valid()
      ensures next == if old(Stream()) == [] then None else Some(old(Stream())[0])
      ensures Stream() == if old(Stream()) == [] then [] else old(Stream())[1..]
    {
      while position < |packets|
        invariant Valid() && Stream() == old(Stream())
      {
        var p := packets[position];
        assert packets[position..][1..] == packets[position + 1..];
        position := position + 1;
        if Keeps(source, visibility, p) {
          return Some(p);
        }
      }
      next := None;
    }

    method Peek() returns (next: Option<Packet>)
      requires Valid()
      modifies this
      ensures Valid() && Stream() == old(Stream())
      ensures next == pending && next == if Stream() == [] then None else Some(Stream()[0])
    {
      if pending.None? {
        var found := NextPacket();
        pending := found;
      }
      next := pending;
    }

    method Pop() returns (next: Option<Packet>)
      requires Valid()
      modifies this
      ensures Valid()
      ensures next == if old(Stream()) == [] then None else Some(old(Stream())[0])
      ensures Stream() == if old(Stream()) == [] then [] else old(Stream())[1..]
    {
      if pending.Some? {
        next := pending;
        pending := None;
      } else {
        next := NextPacket();
      }
    }
  }

  // ----- several cursors -----

  ghost predicate AllValid(cursors: seq<PacketCursor>)
    reads set i | 0 <= i < |cursors| :: cursors[i]
  {
    && (forall i :: 0 <= i < |cursors| ==> cursors[i].Valid())
    && (forall i, j :: 0 <= i < j < |cursors| ==> cursors[i] != cursors[j])
  }

  /** Cursor `best` holds a first packet of the first `among` streams. */
  ghost predicate IsBest(cursors: seq<PacketCursor>, best: nat, among: nat)
    requires AllValid(cursors) && among <= |cursors|
    reads set i | 0 <= i < |cursors| :: cursors[i]
  {
    && best < among && cursors[best].pending.Some?
    && forall i :: 0 <= i < among ==> NoneAhead(cursors[i].Stream(), cursors[best].pending.value)
  }

  ghost predicate NoneAhead(stream: seq<Packet>, p: Packet) {
    stream != [] ==> !Before(stream[0], p)
  }

  lemma AheadIsTransitive(p: Packet, best: Packet, stream: seq<Packet>)
    requires Before(p, best) && NoneAhead(stream, best)
    ensures NoneAhead(stream, p)
  {
  }

  method BestCursorIndex(cursors: seq<PacketCursor>) returns (best: Option<nat>)
    requires AllValid(cursors)
    modifies set i | 0 <= i < |cursors| :: cursors[i]
    ensures AllValid(cursors)
    ensures forall i :: 0 <= i < |cursors| ==> cursors[i].Stream() == old(cursors[i].Stream())
    ensures best.None? ==> forall i :: 0 <= i < |cursors| ==> cursors[i].Stream() == []
    ensures best.Some? ==> best.value < |cursors| && IsBest(cursors, best.value, |cursors|)
  {
    hide Before, Kept, PacketCursor.Stream;
    best := None;
    for index := 0 to |cursors|
      invariant AllValid(cursors)
      invariant forall i :: 0 <= i < |cursors| ==> cursors[i].Stream() == old(cursors[i].Stream())
      invariant best.None? ==> forall i :: 0 <= i < index ==> cursors[i].Stream() == []
      invariant best.Some? ==> IsBest(cursors, best.value, index)
    {
      var packet := cursors[index].Peek();
      if packet.None? {
        continue;
      }
      if best.None? {
        CompareIsOrder(packet.value, packet.value);
        best := Some(index);
        continue;
      }
      var current := cursors[best.value].pending.value;
      CompareIsOrder(packet.value, current);
      if ComparePackets(packet.value, current) == Less {
        CompareIsOrder(packet.value, packet.value);
        forall i | 0 <= i < index
          ensures NoneAhead(cursors[i].Stream(), packet.value)
        {
          AheadIsTransitive(packet.value, current, cursors[i].Stream());
        }
        best := Some(index);
      }
    }
  }

  // ----- merging the cursors of one filter -----

  /** A stream is sorted, draws from `pool`, and has nothing ahead of what was taken. */
  ghost predicate StreamFits(stream: seq<Packet>, pool: set<Packet>, taken: set<Packet>) {
    && Sorted(stream) && Elements(stream) <= pool
    && forall t, x :: t in taken && x in stream ==> !Before(x, t)
  }

  ghost predicate Offered(p: Packet, cursors: seq<PacketCursor>)
    requires AllValid(cursors)
    reads set i | 0 <= i < |cursors| :: cursors[i]
  {
    exists i :: 0 <= i < |cursors| && p in cursors[i].Stream()
  }

  /** The packets taken so far are the first of the pool, none beyond the limit. */
  ghost predicate TakenFirst(pool: set<Packet>, limit: Option<nat>, taken: set<Packet>) {
    IdsDetermine(pool) && DownClosed(pool, taken) && taken <= Cut(pool, limit) && (limit.Some? ==> |taken| <= limit.value)
  }

  /** Once the limit is used up, or the pool is empty, nothing of the cut is left. */
  lemma TakenAll(pool: set<Packet>, limit: Option<nat>, taken: set<Packet>)
    requires TakenFirst(pool, limit, taken)
    requires pool <= taken || (limit.Some? && |taken| >= limit.value)
    ensures Cut(pool, limit) <= taken
  {
    forall p | p in Cut(pool, limit) && p !in taken
      ensures false
    {
      forall t | t in taken
        ensures Before(t, p)
      {
        assert t != p;
      }
      assert taken <= Ahead(pool, p);
      SubsetSize(taken, Ahead(pool, p));
    }
  }

  /** The first packet not yet taken belongs to the cut while the limit is not used up. */
  lemma TakeFirst(pool: set<Packet>, limit: Option<nat>, taken: set<Packet>, p: Packet)
    requires TakenFirst(pool, limit, taken) && p !in taken
    requires limit.Some? ==> |taken| < limit.value
    requires IsFirstOf(p, pool, taken)
    ensures TakenFirst(pool, limit, taken + {p})
  {
    assert Ahead(pool, p) <= taken;
    SubsetSize(Ahead(pool, p), taken);
    forall q | q in pool && Before(q, p)
      ensures q in taken
    {
    }
  }

  /** A packet of the pool, after everything taken and with nothing untaken ahead of it. */
  ghost predicate IsFirstOf(p: Packet, pool: set<Packet>, taken: set<Packet>) {
    && p in pool
    && (forall t :: t in taken ==> !Before(p, t))
    && (forall q :: q in pool && q !in taken ==> !Before(q, p))
  }

  lemma TakenLast(p: Packet, pool: set<Packet>, taken: set<Packet>)
    requires IsFirstOf(p, pool, taken)
    ensures forall q :: q in taken + {p} ==> !Before(p, q)
  {
  }

  lemma SeenMeansTaken(pool: set<Packet>, limit: Option<nat>, taken: set<Packet>, p: Packet)
    requires TakenFirst(pool, limit, taken) && IsFirstOf(p, pool, taken)
    ensures p.id in IdsOf(taken) <==> p in taken
    ensures p in taken ==> taken + {p} == taken
    ensures IdsOf(taken + {p}) == IdsOf(taken) + {p.id}
  {
  }

  lemma StreamHead(stream: seq<Packet>, pool: set<Packet>, taken: set<Packet>)
    requires StreamFits(stream, pool, taken) && stream != []
    ensures stream[0] in pool && forall t :: t in taken ==> !Before(stream[0], t)
  {
    assert stream[0] in Elements(stream);
  }

  /** Taking the first packet of the best stream leaves streams with nothing ahead of it. */
  lemma PopFits(stream: seq<Packet>, stream': seq<Packet>, pool: set<Packet>, taken: set<Packet>, p: Packet)
    requires StreamFits(stream, pool, taken) && NoneAhead(stream, p)
    requires stream' == stream || (stream != [] && stream' == stream[1..])
    ensures StreamFits(stream', pool, taken + {p})
    ensures forall x :: x in stream ==> !Before(x, p)
  {
    forall x | x in stream
      ensures !Before(x, p)
    {
      var k :| 0 <= k < |stream| && stream[k] == x;
      assert !Before(stream[k], stream[0]);
    }
    assert forall x :: x in stream' ==> x in stream;
  }

  function Sum(s: seq<nat>): nat {
    if s == [] then 0 else s[0] + Sum(s[1..])
  }

  lemma {:induction false} SumShrinks(s: seq<nat>, i: nat, x: nat)
    requires i < |s| && x < s[i]
    ensures Sum(s[i := x]) < Sum(s)
  {
    var t := s[i := x];
    if i == 0 {
      assert t[1..] == s[1..];
    } else {
      assert t[1..] == s[1..][i - 1 := x];
      SumShrinks(s[1..], i - 1, x);
    }
  }

  class MergedCursor {
    const cursors: seq<PacketCursor>
    const limit: Option<nat>
    var seen: set<Id>
    var emitted: nat
    var pending: Option<Packet>
    ghost const pool: set<Packet>
    ghost var taken: set<Packet>
    ghost var left: seq<nat>  // the lengths of the streams

    ghost function Footprint(): set<object> {
      {this} + set i | 0 <= i < |cursors| :: cursors[i]
    }

    ghost predicate Valid()
      reads Footprint()
    {
      && Filled(taken)
      && TakenFirst(pool, limit, taken)
      && emitted == |taken| && seen == IdsOf(taken)
      && (pending.Some? ==> pending.value in taken && forall q :: q in taken ==> !Before(pending.value, q))
    }

    /** The streams hold everything of the pool but `took`, and nothing ahead of it. */
    ghost predicate Filled(took: set<Packet>)
      reads this`left, set i | 0 <= i < |cursors| :: cursors[i]
    {
      && AllValid(cursors)
      && |left| == |cursors|
      && (forall i :: 0 <= i < |cursors| ==> left[i] == |cursors[i].Stream()|)
      && (forall i :: 0 <= i < |cursors| ==> StreamFits(cursors[i].Stream(), pool, took))
      && (forall p :: p in pool && p !in took ==> Offered(p, cursors))
    }

    /** What the cursor will have delivered at the end. */
    ghost function Goal(): set<Packet> {
      Cut(pool, limit)
    }

    ghost function Delivered(): set<Packet>
      reads this
    {
      taken - if pending.Some? then {pending.value} else {}
    }

    ghost predicate IsNext(p: Packet)
      reads this
    {
      p in Goal() - Delivered() && forall q :: q in Goal() - Delivered() ==> !Before(q, p)
    }

    constructor (cursors: seq<PacketCursor>, limit: Option<nat>, ghost pool: set<Packet>)
      requires AllValid(cursors) && IdsDetermine(pool)
      requires forall i :: 0 <= i < |cursors| ==> StreamFits(cursors[i].Stream(), pool, {})
      requires forall p :: p in pool ==> Offered(p, cursors)
      ensures Valid() && this.cursors == cursors && this.limit == limit && this.pool == pool && Delivered() == {}
    {
      this.cursors, this.limit, this.pool := cursors, limit, pool;
      seen, emitted, pending, taken := {}, 0, None, {};
      left := seq(|cursors|, i requires 0 <= i < |cursors| && AllValid(cursors) reads set i | 0 <= i < |cursors| :: cursors[i] => |cursors[i].Stream()|);
    }

    method PopBest(best: nat) returns (popped: Packet)
      requires Filled(taken) && best < |cursors| && IsBest(cursors, best, |cursors|)
      modifies cursors[best], this`left
      ensures Sum(left) < old(Sum(left))
      ensures Filled(taken + {popped}) && IsFirstOf(popped, pool, taken)
    {
      hide StreamFits, Before, Kept;
      ghost var first := cursors[best].pending.value;
      assert cursors[best].Stream()[0] == first;
      assert first in pool && forall t :: t in taken ==> !Before(first, t) by {
        StreamHead(cursors[best].Stream(), pool, taken);
      }
      var next := cursors[best].Pop();
      SumShrinks(left, best, left[best] - 1);
      left := left[best := left[best] - 1];
      popped := next.value;
      forall i | 0 <= i < |cursors|
        ensures StreamFits(cursors[i].Stream(), pool, taken + {popped})
        ensures forall x :: x in old(cursors[i].Stream()) ==> !Before(x, popped)
      {
        PopFits(old(cursors[i].Stream()), cursors[i].Stream(), pool, taken, popped);
      }
      forall p | p in pool && p !in taken
        ensures !Before(p, popped) && (p != popped ==> Offered(p, cursors))
      {
        assert old(Offered(p, cursors));
        var i :| 0 <= i < |cursors| && p in old(cursors[i].Stream());
        if p != popped {
          assert p in cursors[i].Stream();
        }
      }
    }

    method FindBest() returns (best: Option<nat>)
      requires Filled(taken)
      modifies set i | 0 <= i < |cursors| :: cursors[i]
      ensures Filled(taken)
      ensures best.None? ==> pool <= taken
      ensures best.Some? ==> best.value < |cursors| && IsBest(cursors, best.value, |cursors|)
    {
      hide StreamFits, Before, Kept, PacketCursor.Stream, IsBest;
      best := BestCursorIndex(cursors);
      forall p | p in pool && p !in taken
        ensures Offered(p, cursors)
      {
        assert old(Offered(p, cursors));
        var i :| 0 <= i < |cursors| && p in old(cursors[i].Stream());
        assert p in cursors[i].Stream();
      }
    }

    /** Pops the best packet of all cursors; a packet already delivered is dropped. */
    method TakeBest() returns (exhausted: bool, next: Option<Packet>)
      requires Valid() && pending == None && (limit.Some? ==> emitted < limit.value)
      modifies Footprint()
      ensures Valid() && pending == None
      ensures exhausted ==> next == None && taken == old(taken) && pool <= taken
      ensures !exhausted && next.None? ==> taken == old(taken) && Sum(left) < old(Sum(left))
      ensures next.Some? ==>
                && IsFirstOf(next.value, pool, old(taken)) && next.value !in old(taken) && taken == old(taken) + {next.value}
    {
      hide Filled, IsFirstOf, Before, TakenFirst, Cut, PacketCursor.Stream, IdsOf, IsBest;
      var best := FindBest();
      if best.None? {
        return true, None;
      }
      var popped := PopBest(best.value);
      SeenMeansTaken(pool, limit, taken, popped);
      if popped.id in seen {
        return false, None;
      }
      TakeFirst(pool, limit, taken, popped);
      TakenLast(popped, pool, taken);
      seen := seen + {popped.id};
      emitted := emitted + 1;
      taken := taken + {popped};
      return false, Some(popped);
    }

    method NextMergedPacket() returns (next: Option<Packet>)
      requires Valid() && pending == None
      modifies Footprint()
      ensures Valid() && pending == None
      ensures next.None? ==> taken == old(taken) && Goal() <= taken
      ensures next.Some? ==>
                && IsFirstOf(next.value, pool, old(taken)) && next.value !in old(taken) && taken == old(taken) + {next.value}
    {
      hide Before, TakenFirst, Cut;
      while limit.None? || emitted < limit.value
        invariant Valid() && pending == None && taken == old(taken)
        decreases Sum(left)
      {
        var exhausted;
        exhausted, next := TakeBest();
        if exhausted || next.Some? {
          if exhausted {
            TakenAll(pool, limit, taken);
          }
          return next;
        }
      }
      TakenAll(pool, limit, taken);
      next := None;
    }

    /** Looks at the next packet without delivering it. */
    method Peek() returns (next: Option<Packet>)
      requires Valid()
      modifies Footprint()
      ensures Valid() && Delivered() == old(Delivered()) && next == pending
      ensures old(pending).Some? ==> next == old(pending)
      ensures next.None? ==> Goal() <= Delivered()
      ensures next.Some? ==> IsNext(next.value)
    {
      hide Filled, TakenFirst, Cut, IdsOf;
      if pending.None? {
        var found := NextMergedPacket();
        pending := found;
      }
      next := pending;
      if next.Some? {
        PendingIsNext();
      }
    }

    /** Delivers the next packet of the goal, in order and without duplicates, until the whole
        goal is delivered. */
    method Pop() returns (next: Option<Packet>)
      requires Valid()
      modifies Footprint()
      ensures Valid() && pending == None
      ensures old(pending).Some? ==> next == old(pending)
      ensures next.None? ==> Goal() <= old(Delivered()) && Delivered() == old(Delivered())
      ensures next.Some? ==> old(IsNext(next.value)) && Delivered() == old(Delivered()) + {next.value}
    {
      hide Filled, TakenFirst, Cut, IdsOf;
      next := Peek();
      pending := None;
    }

    lemma PendingIsNext()
      requires Valid() && pending.Some?
      ensures IsNext(pending.value)
    {
      assert forall q :: q in pool && Before(q, pending.value) ==> q in taken;
    }
  }
}
