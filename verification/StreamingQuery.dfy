/** The streaming query engine: for one query, a merge per day of one merged cursor per filter.
    Duplicates are dropped inside each filter's cursor and again across filters. */
module StreamingQuery {
  import opened Events
  import opened Answer
  import opened Days
  import opened Cursors
  import opened BatchedSpec

  /** The hot lookup of a filter: the positions its search terms are found at by the index. */
  type Lookup = seq<Term> -> set<nat>

  // ----- what the engine counts as an answer -----

  predicate HotMatchAt(src: Source, lookup: Lookup, f: Filter, i: nat)
    requires i < |src.hot|
  {
    && (f.terms != [] ==> i in lookup(f.terms) && src.hotVisible(src.hot[i]))
    && MatchesWithoutSearch(f, src.hot[i])
  }

  predicate HotAnswer(src: Source, lookup: Lookup, f: Filter, p: Packet) {
    exists i :: 0 <= i < |src.hot| && src.hot[i] == p && HotMatchAt(src, lookup, f, i)
  }

  function PartitionVisibility(src: Source, f: Filter): Visibility {
    Visibility(if f.terms != [] then Some(src.hotVisible) else None, Some(src.storeVisible))
  }

  /** A partition packet is checked against the visibility store even without search terms. */
  predicate PartitionAnswer(src: Source, f: Filter, p: Packet) {
    && UnixDay(p) in src.partitions && p in src.partitions[UnixDay(p)]
    && MatchesWithoutSearch(f, p) && PacketIsVisible(p, PartitionVisibility(src, f))
    && (f.terms != [] ==> src.bloom(UnixDay(p), Elements(f.terms)) && HasTerms(p.text, Elements(f.terms)))
  }

  function StreamWanted(src: Source, lookup: Lookup, f: Filter): set<Packet> {
    set p | p in src.All() && (HotAnswer(src, lookup, f, p) || PartitionAnswer(src, f, p))
  }

  /** One filter of a query and what the engine reads for it. A query takes one hot snapshot, but
      every filter lists the partitions, opens the partition files and asks the store on its own,
      so compaction may give two filters different versions of a day and different stores. */
  datatype Ask = Ask(filter: Filter, src: Source)

  function AskWanted(lookup: Lookup, ask: Ask): set<Packet> {
    StreamWanted(ask.src, lookup, ask.filter)
  }

  function AllRead(asks: seq<Ask>): set<Packet> {
    set j, p | 0 <= j < |asks| && p in asks[j].src.All() :: p
  }

  ghost predicate AsksValid(asks: seq<Ask>) {
    IdsDetermine(AllRead(asks)) && forall j :: 0 <= j < |asks| ==> asks[j].src.Valid()
  }

  ghost function StreamTarget(lookup: Lookup, asks: seq<Ask>): set<Packet> {
    set p | p in AllRead(asks) && exists j :: 0 <= j < |asks| && p in Cut(AskWanted(lookup, asks[j]), asks[j].filter.limit)
  }

  // ----- the hot matches of a filter -----

  /** The hot packets at the first `n` positions that match, in order. */
  function HotMatches(src: Source, lookup: Lookup, f: Filter, n: nat): seq<Packet>
    requires n <= |src.hot|
  {
    if n == 0 then []
    else HotMatches(src, lookup, f, n - 1) + (if HotMatchAt(src, lookup, f, n - 1) then [src.hot[n - 1]] else [])
  }

  lemma {:induction false} HotMatchesMembers(src: Source, lookup: Lookup, f: Filter, n: nat)
    requires n <= |src.hot|
    ensures forall p :: p in HotMatches(src, lookup, f, n) <==>
              exists i :: 0 <= i < n && src.hot[i] == p && HotMatchAt(src, lookup, f, i)
  {
    if n > 0 {
      HotMatchesMembers(src, lookup, f, n - 1);
    }
  }

  // ----- one day -----

  /** What a filter still wants of a day. */
  function DayPool(src: Source, lookup: Lookup, f: Filter, day: U64): set<Packet> {
    set p | p in StreamWanted(src, lookup, f) && UnixDay(p) == day
  }

  function AskPool(lookup: Lookup, ask: Ask, day: U64): set<Packet> {
    DayPool(ask.src, lookup, ask.filter, day)
  }

  function ScanOf(f: Filter): CursorSource {
    if f.terms == [] then PartitionScan(f) else PartitionSearch(f)
  }

  lemma {:induction false} BufferedKeepsAll(packets: seq<Packet>)
    ensures Kept(Buffered, Visibility(None, None), packets) == packets
  {
    if packets != [] {
      BufferedKeepsAll(packets[1..]);
    }
  }

  lemma BufferedFits(src: Source, lookup: Lookup, f: Filter, day: U64, sorted: seq<Packet>)
    requires Sorted(sorted)
    requires forall p :: p in sorted <==> HotAnswer(src, lookup, f, p) && UnixDay(p) == day
    ensures StreamFits(Kept(Buffered, Visibility(None, None), sorted), DayPool(src, lookup, f, day), {})
    ensures Kept(Buffered, Visibility(None, None), sorted) == sorted
  {
    BufferedKeepsAll(sorted);
  }

  /** A day's partition cursor hands out the day's partition answers, in order. */
  lemma PartitionFits(src: Source, lookup: Lookup, f: Filter, day: U64)
    requires src.Valid() && day in src.partitions
    requires f.terms == [] || src.bloom(day, Elements(f.terms))
    ensures StreamFits(Kept(ScanOf(f), PartitionVisibility(src, f), src.partitions[day]), DayPool(src, lookup, f, day), {})
    ensures forall p :: p in DayPool(src, lookup, f, day) && PartitionAnswer(src, f, p) ==>
              p in Kept(ScanOf(f), PartitionVisibility(src, f), src.partitions[day])
  {
    KeptSorted(ScanOf(f), PartitionVisibility(src, f), src.partitions[day]);
    KeptMembers(ScanOf(f), PartitionVisibility(src, f), src.partitions[day]);
    forall p | p in src.partitions[day]
      ensures UnixDay(p) == day && (Keeps(ScanOf(f), PartitionVisibility(src, f), p) <==> PartitionAnswer(src, f, p))
    {
    }
  }

  /** What one cursor of a day reads. */
  datatype Part = Part(source: CursorSource, visibility: Visibility, packets: seq<Packet>)
  {
    function Stream(): seq<Packet> {
      Kept(source, visibility, packets)
    }
  }

  /** The hot matches of a day, sorted, and the day's partition unless pruned or ruled out by
      the Bloom test. */
  function DayParts(src: Source, f: Filter, day: U64, sorted: seq<Packet>, listed: bool): seq<Part>
    requires listed ==> day in src.partitions
  {
    (if sorted != [] then [Part(Buffered, Visibility(None, None), sorted)] else []) +
    (if listed && (f.terms == [] || src.bloom(day, Elements(f.terms)))
     then [Part(ScanOf(f), PartitionVisibility(src, f), src.partitions[day])] else [])
  }

  /** The parts of a day deliver what the filter wants of it: pruning and the Bloom test lose
      nothing that counts as an answer. */
  lemma DayPartsFit(src: Source, lookup: Lookup, f: Filter, day: U64, sorted: seq<Packet>, listed: bool)
    requires src.Valid() && Sorted(sorted)
    requires forall p :: p in sorted <==> HotAnswer(src, lookup, f, p) && UnixDay(p) == day
    requires listed <==> day in src.partitions && DayOverlapsFilter(day, f)
    ensures var parts := DayParts(src, f, day, sorted, listed);
            && (forall i :: 0 <= i < |parts| ==> StreamFits(parts[i].Stream(), DayPool(src, lookup, f, day), {}))
            && (forall p :: p in DayPool(src, lookup, f, day) ==> exists i :: 0 <= i < |parts| && p in parts[i].Stream())
  {
    hide MatchesWithoutSearch, HotAnswer, Kept, StreamFits, HasTerms, PacketIsVisible, DayOverlapsFilter;
    var parts := DayParts(src, f, day, sorted, listed);
    BufferedFits(src, lookup, f, day, sorted);
    if listed && (f.terms == [] || src.bloom(day, Elements(f.terms))) {
      PartitionFits(src, lookup, f, day);
    }
    forall p | p in DayPool(src, lookup, f, day)
      ensures exists i :: 0 <= i < |parts| && p in parts[i].Stream()
    {
      if p in sorted {
        assert p in parts[0].Stream();
      } else {
        PruningIsSound(f, p);
        assert p in parts[|parts| - 1].Stream();
      }
    }
  }

  method MakeCursors(parts: seq<Part>) returns (cursors: seq<PacketCursor>)
    ensures |cursors| == |parts| && AllValid(cursors)
    ensures forall i :: 0 <= i < |cursors| ==> fresh(cursors[i]) && cursors[i].Stream() == parts[i].Stream()
  {
    cursors := [];
    for i := 0 to |parts|
      invariant |cursors| == i && AllValid(cursors)
      invariant forall k :: 0 <= k < i ==> fresh(cursors[k]) && cursors[k].Stream() == parts[k].Stream()
    {
      var cursor := new PacketCursor(parts[i].source, parts[i].visibility, parts[i].packets);
      cursors := cursors + [cursor];
    }
  }

  method SortDay(ghost src: Source, ghost lookup: Lookup, ghost f: Filter, ghost day: U64, hot: seq<Packet>) returns (sorted: seq<Packet>)
    requires forall p :: p in hot <==> HotAnswer(src, lookup, f, p) && UnixDay(p) == day
    ensures Sorted(sorted)
    ensures forall p :: p in sorted <==> HotAnswer(src, lookup, f, p) && UnixDay(p) == day
  {
    hide HotAnswer, UnixDay, Sorted;
    sorted := SortPackets(hot);
    assert forall p :: p in sorted <==> p in multiset(sorted);
    assert forall p :: p in hot <==> p in multiset(hot);
  }

  /** The cursors of one filter for one day, merged under what is left of its limit; no cursor
      when there is nothing to read or nothing left of the limit. */
  method OpenDay(src: Source, lookup: Lookup, f: Filter, day: U64, hot: seq<Packet>, listed: bool, remaining: Option<nat>)
    returns (cursor: MergedCursor?)
    requires src.Valid()
    requires forall p :: p in hot <==> HotAnswer(src, lookup, f, p) && UnixDay(p) == day
    requires listed <==> day in src.partitions && DayOverlapsFilter(day, f)
    ensures cursor == null ==> Cut(DayPool(src, lookup, f, day), remaining) == {}
    ensures cursor != null ==>
              && fresh(cursor.Footprint()) && cursor.Valid() && cursor.Delivered() == {}
              && cursor.pool == DayPool(src, lookup, f, day) && cursor.limit == remaining
  {
    hide StreamFits, HotAnswer, PartitionAnswer, PacketCursor.Stream, Kept, DayOverlapsFilter, Sorted, DayParts, UnixDay;
    var sorted := SortDay(src, lookup, f, day, hot);
    var parts := DayParts(src, f, day, sorted, listed);
    DayPartsFit(src, lookup, f, day, sorted, listed);
    if parts == [] || remaining == Some(0) {
      return null;
    }
    var cursors := MakeCursors(parts);
    ghost var pool := DayPool(src, lookup, f, day);
    forall p | p in pool
      ensures Offered(p, cursors)
    {
      var i :| 0 <= i < |parts| && p in parts[i].Stream();
      assert p in cursors[i].Stream();
    }
    cursor := new MergedCursor(cursors, remaining, pool);
  }

  // ----- draining the cursors of a day -----

  function UnionOf(sets: seq<set<Packet>>): set<Packet> {
    set i, p | 0 <= i < |sets| && p in sets[i] :: p
  }

  /** While the cursors of a day are drained: `goals` is what they will have delivered,
      `delivered` what they have delivered, and nothing undelivered belongs ahead of `out`. */
  ghost predicate Draining(base: set<Packet>, goals: seq<set<Packet>>, delivered: seq<set<Packet>>, out: seq<Packet>, emitted: set<Id>) {
    && |delivered| == |goals| && IdsDetermine(base + UnionOf(goals))
    && (forall i :: 0 <= i < |goals| ==> delivered[i] <= goals[i])
    && StrictlySorted(out) && emitted == IdsOf(Elements(out))
    && Elements(out) == base + UnionOf(delivered)
    && (forall i, x, y :: 0 <= i < |goals| && x in goals[i] - delivered[i] && y in Elements(out) ==> !Before(x, y))
  }

  /** `p` is a first packet of everything the cursors have still to deliver. */
  ghost predicate FirstLeft(goals: seq<set<Packet>>, delivered: seq<set<Packet>>, i: nat, p: Packet) {
    && i < |goals| == |delivered| && p in goals[i] - delivered[i]
    && forall k, q :: 0 <= k < |goals| && q in goals[k] - delivered[k] ==> !Before(q, p)
  }

  lemma DeliverOne(delivered: seq<set<Packet>>, i: nat, p: Packet)
    requires i < |delivered|
    ensures UnionOf(delivered[i := delivered[i] + {p}]) == UnionOf(delivered) + {p}
  {
    var delivered' := delivered[i := delivered[i] + {p}];
    forall q
      ensures q in UnionOf(delivered') <==> q in UnionOf(delivered) + {p}
    {
      if q in UnionOf(delivered) {
        var k :| 0 <= k < |delivered| && q in delivered[k];
        assert q in delivered'[k];
      }
      if q == p {
        assert q in delivered'[i];
      }
    }
  }

  /** The first packet left is emitted after everything emitted, unless another filter's
      cursor delivered it before; either way it is delivered. */
  lemma DrainStep(base: set<Packet>, goals: seq<set<Packet>>, delivered: seq<set<Packet>>, out: seq<Packet>, emitted: set<Id>, i: nat, p: Packet)
    requires Draining(base, goals, delivered, out, emitted) && FirstLeft(goals, delivered, i, p)
    ensures p.id in emitted <==> p in Elements(out)
    ensures Draining(base, goals, delivered[i := delivered[i] + {p}],
                     if p.id in emitted then out else out + [p], emitted + {p.id})
  {
    var delivered' := delivered[i := delivered[i] + {p}];
    DeliverOne(delivered, i, p);
    UnionBelow(delivered, goals);
    assert p in UnionOf(goals);
    assert p.id in emitted <==> p in Elements(out);
    if p.id !in emitted {
      var out' := out + [p];
      forall k | 0 <= k < |out|
        ensures Before(out[k], p)
      {
        assert out[k] in Elements(out);
      }
      assert Elements(out') == Elements(out) + {p};
    }
  }

  lemma UnionBelow(delivered: seq<set<Packet>>, goals: seq<set<Packet>>)
    requires |delivered| == |goals| && forall i :: 0 <= i < |goals| ==> delivered[i] <= goals[i]
    ensures UnionOf(delivered) <= UnionOf(goals)
  {
    forall p | p in UnionOf(delivered)
      ensures p in UnionOf(goals)
    {
      var k :| 0 <= k < |delivered| && p in delivered[k];
      assert p in goals[k];
    }
  }

  /** At any time the output is an initial part of what the base and the goals will give. */
  lemma DrainingIsInitial(base: set<Packet>, goals: seq<set<Packet>>, delivered: seq<set<Packet>>, out: seq<Packet>, emitted: set<Id>)
    requires Draining(base, goals, delivered, out, emitted)
    ensures StrictlySorted(out) && emitted == IdsOf(Elements(out))
    ensures forall i :: 0 <= i < |goals| && i < |delivered| ==> delivered[i] <= goals[i]
    ensures InitialPart(Elements(out), base + UnionOf(goals))
    ensures delivered == goals ==> Elements(out) == base + UnionOf(goals)
  {
    UnionBelow(delivered, goals);
    forall x, y | y in Elements(out) && x in base + UnionOf(goals) && Before(x, y)
      ensures x in Elements(out)
    {
      if x !in base {
        var i :| 0 <= i < |goals| && x in goals[i];
        if x in delivered[i] {
          assert x in UnionOf(delivered);
        }
      }
    }
  }

  datatype DayCursor = DayCursor(state: nat, cursor: MergedCursor)

  ghost function Footprints(cursors: seq<DayCursor>): set<object> {
    set i, o | 0 <= i < |cursors| && o in cursors[i].cursor.Footprint() :: o
  }

  ghost predicate Ready(cursors: seq<DayCursor>)
    reads Footprints(cursors)
  {
    && (forall i :: 0 <= i < |cursors| ==> cursors[i].cursor.Valid())
    && (forall i, j :: 0 <= i < j < |cursors| ==> cursors[i].cursor.Footprint() !! cursors[j].cursor.Footprint())
  }

  ghost function Left(c: DayCursor): set<Packet>
    reads c.cursor
  {
    c.cursor.Goal() - c.cursor.Delivered()
  }

  /** Cursor `best` shows a packet with nothing ahead of it among the first `among` cursors. */
  ghost predicate IsBestDay(cursors: seq<DayCursor>, best: nat, among: nat)
    requires among <= |cursors|
    reads set i | 0 <= i < |cursors| :: cursors[i].cursor
  {
    && best < among && cursors[best].cursor.pending.Some? && cursors[best].cursor.pending.value in Left(cursors[best])
    && forall i :: 0 <= i < among ==> NothingAhead(Left(cursors[i]), cursors[best].cursor.pending.value)
  }

  ghost predicate NothingAhead(left: set<Packet>, p: Packet) {
    forall q :: q in left ==> !Before(q, p)
  }

  lemma NothingAheadIsTransitive(left: set<Packet>, p: Packet, best: Packet)
    requires Before(p, best) && NothingAhead(left, best)
    ensures NothingAhead(left, p)
  {
  }

  lemma NothingAheadByCompare(left: set<Packet>, p: Packet, best: Packet)
    requires !Before(p, best) && NothingAhead(left, p)
    ensures NothingAhead(left, best)
  {
  }

  method BestDayCursorIndex(cursors: seq<DayCursor>) returns (best: Option<nat>)
    requires Ready(cursors)
    modifies Footprints(cursors)
    ensures Ready(cursors)
    ensures forall i :: 0 <= i < |cursors| ==> cursors[i].cursor.Delivered() == old(cursors[i].cursor.Delivered())
    ensures best.None? ==> forall i :: 0 <= i < |cursors| ==> Left(cursors[i]) == {}
    ensures best.Some? ==> best.value < |cursors| && IsBestDay(cursors, best.value, |cursors|)
  {
    hide Before, MergedCursor.Valid, MergedCursor.Goal, MergedCursor.Delivered, NothingAhead;
    best := None;
    for index := 0 to |cursors|
      invariant Ready(cursors)
      invariant forall i :: 0 <= i < |cursors| ==> cursors[i].cursor.Delivered() == old(cursors[i].cursor.Delivered())
      invariant best.None? ==> forall i :: 0 <= i < index ==> Left(cursors[i]) == {}
      invariant best.Some? ==> IsBestDay(cursors, best.value, index)
    {
      var packet := PeekDay(cursors, index);
      if packet.None? {
        NothingAheadOfNothing();
        continue;
      }
      if best.None? {
        NothingAheadOfNothing();
        best := Some(index);
        continue;
      }
      var current := cursors[best.value].cursor.pending.value;
      CompareIsOrder(packet.value, current);
      if ComparePackets(packet.value, current) == Less {
        forall i | 0 <= i < index
          ensures NothingAhead(Left(cursors[i]), packet.value)
        {
          NothingAheadIsTransitive(Left(cursors[i]), packet.value, current);
        }
        best := Some(index);
      } else {
        NothingAheadByCompare(Left(cursors[index]), packet.value, current);
      }
    }
  }

  lemma NothingAheadOfNothing()
    ensures forall p :: NothingAhead({}, p)
  {
  }

  method PeekDay(cursors: seq<DayCursor>, index: nat) returns (packet: Option<Packet>)
    requires Ready(cursors) && index < |cursors|
    modifies cursors[index].cursor.Footprint()
    ensures Ready(cursors)
    ensures forall i :: 0 <= i < |cursors| ==> cursors[i].cursor.Delivered() == old(cursors[i].cursor.Delivered())
    ensures forall i :: 0 <= i < |cursors| && i != index ==> cursors[i].cursor.pending == old(cursors[i].cursor.pending)
    ensures packet == cursors[index].cursor.pending
    ensures packet.None? ==> Left(cursors[index]) == {}
    ensures packet.Some? ==> packet.value in Left(cursors[index]) && NothingAhead(Left(cursors[index]), packet.value)
  {
    hide MergedCursor.Valid;
    packet := cursors[index].cursor.Peek();
  }

  /** What a cursor has delivered, as values. */
  ghost predicate Shows(cursors: seq<DayCursor>, goals: seq<set<Packet>>, delivered: seq<set<Packet>>)
    reads set i | 0 <= i < |cursors| :: cursors[i].cursor
  {
    && |cursors| == |goals| == |delivered|
    && forall i :: 0 <= i < |cursors| ==> cursors[i].cursor.Goal() == goals[i] && cursors[i].cursor.Delivered() == delivered[i]
  }

  /** Spending the limits of the day's cursors: `remaining` belongs to filter states. */
  ghost predicate Spending(cursors: seq<DayCursor>, delivered: seq<set<Packet>>, before: seq<Option<nat>>, remaining: seq<Option<nat>>) {
    && |delivered| == |cursors| && |remaining| == |before|
    && (forall i :: 0 <= i < |cursors| ==> cursors[i].state < |before| && remaining[cursors[i].state] == Rest(before[cursors[i].state], |delivered[i]|))
    && (forall i, k :: 0 <= i < k < |cursors| ==> cursors[i].state != cursors[k].state)
    && (forall j :: 0 <= j < |before| && (forall i :: 0 <= i < |cursors| ==> cursors[i].state != j) ==> remaining[j] == before[j])
  }

  lemma SpendOne(cursors: seq<DayCursor>, delivered: seq<set<Packet>>, before: seq<Option<nat>>, remaining: seq<Option<nat>>, i: nat, p: Packet)
    requires Spending(cursors, delivered, before, remaining) && i < |cursors| == |delivered| && p !in delivered[i]
    ensures cursors[i].state < |remaining|
    ensures Spending(cursors, delivered[i := delivered[i] + {p}], before, remaining[cursors[i].state := Spend(remaining[cursors[i].state])])
  {
    assert |delivered[i] + {p}| == |delivered[i]| + 1;
  }

  /** The receiver has taken every packet, or, when the run is not `ok`, every one but the last. */
  predicate Heard(emit: seq<Packet> -> bool, out: seq<Packet>, ok: bool) {
    && (forall k: nat :: 0 < k < |out| ==> emit(out[..k]))
    && (if ok then out == [] || emit(out) else out != [] && !emit(out))
  }

  lemma HeardNext(emit: seq<Packet> -> bool, out: seq<Packet>, p: Packet)
    requires Heard(emit, out, true)
    ensures Heard(emit, out + [p], emit(out + [p]))
  {
    forall k: nat | 0 < k < |out + [p]|
      ensures emit((out + [p])[..k])
    {
      assert (out + [p])[..k] == out[..k];
      assert out[..|out|] == out;
    }
  }

  lemma HeardMeans(emit: seq<Packet> -> bool, out: seq<Packet>, ok: bool)
    requires Heard(emit, out, ok)
    ensures ok <==> forall k: nat :: 0 < k <= |out| ==> emit(out[..k])
  {
    assert out[..|out|] == out;
  }

  /** Drains the cursors of a day, best packet first; each pop spends one of its filter's limit,
      and a packet another filter delivered before is not emitted again. */
  method DrainDay(cursors: seq<DayCursor>, before: seq<Option<nat>>, sent: seq<Packet>, seen: set<Id>, emit: seq<Packet> -> bool,
                  ghost base: set<Packet>, ghost goals: seq<set<Packet>>)
    returns (ok: bool, remaining: seq<Option<nat>>, out: seq<Packet>, emitted: set<Id>)
    requires Ready(cursors) && Shows(cursors, goals, seq(|cursors|, _ => {}))
    requires Spending(cursors, seq(|cursors|, _ => {}), before, before)
    requires Draining(base, goals, seq(|cursors|, _ => {}), sent, seen)
    requires Heard(emit, sent, true)
    modifies Footprints(cursors)
    ensures StrictlySorted(out) && emitted == IdsOf(Elements(out)) && InitialPart(Elements(out), base + UnionOf(goals))
    ensures ok ==> Elements(out) == base + UnionOf(goals) && Spending(cursors, goals, before, remaining)
    ensures Heard(emit, out, ok)
  {
    hide Ready, Draining, Spending, MergedCursor.Goal, MergedCursor.Delivered, NothingAhead, InitialPart, StrictlySorted, Sum, IsBestDay, Shows, Heard;
    remaining, out, emitted := before, sent, seen;
    ghost var delivered: seq<set<Packet>> := seq(|cursors|, _ => {});
    assert |goals| == |cursors| by {
      ShowsLengths(cursors, goals, delivered);
    }
    while true
      invariant |delivered| == |goals| == |cursors|
      invariant Ready(cursors) && Shows(cursors, goals, delivered)
      invariant Spending(cursors, delivered, before, remaining)
      invariant Draining(base, goals, delivered, out, emitted) && Heard(emit, out, true)
      decreases Sum(WorkLeft(goals, delivered))
    {
      DrainingIsInitial(base, goals, delivered, out, emitted);
      var best := BestOfDay(cursors, goals, delivered);
      if best.None? {
        return true, remaining, out, emitted;
      }
      var p := PopBestOfDay(cursors, best.value, goals, delivered);
      var state := cursors[best.value].state;
      DrainStep(base, goals, delivered, out, emitted, best.value, p);
      SpendOne(cursors, delivered, before, remaining, best.value, p);
      WorkShrinks(goals, delivered, best.value, p);
      delivered := delivered[best.value := delivered[best.value] + {p}];
      remaining := remaining[state := Spend(remaining[state])];
      if p.id in emitted {
        assert emitted + {p.id} == emitted;
        continue;
      }
      emitted := emitted + {p.id};
      HeardNext(emit, out, p);
      out := out + [p];
      if !emit(out) {
        DrainingIsInitial(base, goals, delivered, out, emitted);
        return false, remaining, out, emitted;
      }
    }
    return true, remaining, out, emitted;
  }

  lemma ShowsLengths(cursors: seq<DayCursor>, goals: seq<set<Packet>>, delivered: seq<set<Packet>>)
    requires Shows(cursors, goals, delivered)
    ensures |cursors| == |goals| == |delivered|
  {
  }

  ghost function WorkLeft(goals: seq<set<Packet>>, delivered: seq<set<Packet>>): seq<nat>
    requires |goals| == |delivered|
  {
    seq(|goals|, i requires 0 <= i < |goals| => |goals[i] - delivered[i]|)
  }

  lemma WorkShrinks(goals: seq<set<Packet>>, delivered: seq<set<Packet>>, i: nat, p: Packet)
    requires |goals| == |delivered| && i < |goals| && p in goals[i] - delivered[i]
    ensures Sum(WorkLeft(goals, delivered[i := delivered[i] + {p}])) < Sum(WorkLeft(goals, delivered))
  {
    var delivered' := delivered[i := delivered[i] + {p}];
    assert goals[i] - delivered[i] == (goals[i] - delivered'[i]) + {p};
    assert WorkLeft(goals, delivered') == WorkLeft(goals, delivered)[i := |goals[i] - delivered'[i]|];
    SumShrinks(WorkLeft(goals, delivered), i, |goals[i] - delivered'[i]|);
  }

  /** The best cursor of a day, as values: none when everything is delivered. */
  method BestOfDay(cursors: seq<DayCursor>, ghost goals: seq<set<Packet>>, ghost delivered: seq<set<Packet>>) returns (best: Option<nat>)
    requires Ready(cursors) && Shows(cursors, goals, delivered)
    requires forall i :: 0 <= i < |goals| && i < |delivered| ==> delivered[i] <= goals[i]
    modifies Footprints(cursors)
    ensures Ready(cursors) && Shows(cursors, goals, delivered)
    ensures best.None? ==> delivered == goals
    ensures best.Some? ==>
              && best.value < |cursors| && cursors[best.value].cursor.pending.Some?
              && FirstLeft(goals, delivered, best.value, cursors[best.value].cursor.pending.value)
  {
    hide Ready, MergedCursor.Goal, MergedCursor.Delivered, Before;
    best := BestDayCursorIndex(cursors);
    if best.None? {
      forall i | 0 <= i < |goals|
        ensures delivered[i] == goals[i]
      {
        assert goals[i] - delivered[i] == Left(cursors[i]) == {};
        assert goals[i] == delivered[i] + (goals[i] - delivered[i]);
      }
    }
  }

  method PopBestOfDay(cursors: seq<DayCursor>, best: nat, ghost goals: seq<set<Packet>>, ghost delivered: seq<set<Packet>>) returns (p: Packet)
    requires Ready(cursors) && Shows(cursors, goals, delivered)
    requires best < |cursors| && cursors[best].cursor.pending.Some?
    requires FirstLeft(goals, delivered, best, cursors[best].cursor.pending.value)
    modifies cursors[best].cursor.Footprint()
    ensures FirstLeft(goals, delivered, best, p)
    ensures Ready(cursors) && Shows(cursors, goals, delivered[best := delivered[best] + {p}])
  {
    hide MergedCursor.Valid, MergedCursor.Goal, MergedCursor.Delivered, FirstLeft;
    var next := cursors[best].cursor.Pop();
    p := next.value;
  }

  // ----- the days of a query -----

  /** Everything some filter of the query wants. */
  function Relevant(lookup: Lookup, asks: seq<Ask>): set<Packet> {
    set j, p | 0 <= j < |asks| && p in AskWanted(lookup, asks[j]) :: p
  }

  /** Cutting by the limit and looking at one day is cutting the day by what the later days
      left of the limit. */
  lemma DayGoal(all: set<Packet>, wanted: set<Packet>, limit: Option<nat>, done: set<Packet>, day: U64)
    requires IdsDetermine(all) && wanted <= all
    requires DownClosed(all, done) && DownClosed(all, done + Today(all, day)) && done !! Today(all, day)
    ensures Cut(wanted * Today(all, day), Rest(limit, |wanted * done|)) == Cut(wanted, limit) * Today(all, day)
  {
    hide DownClosed, Before, Today, Ahead;
    forall p | p in wanted * Today(all, day)
      ensures |Ahead(wanted, p)| == |wanted * done| + |Ahead(wanted * Today(all, day), p)|
    {
      AheadOfToday(all, wanted, done, day, p);
    }
  }

  lemma AheadOfToday(all: set<Packet>, wanted: set<Packet>, done: set<Packet>, day: U64, p: Packet)
    requires IdsDetermine(all) && wanted <= all && p in wanted * Today(all, day)
    requires DownClosed(all, done) && DownClosed(all, done + Today(all, day)) && done !! Today(all, day)
    ensures |Ahead(wanted, p)| == |wanted * done| + |Ahead(wanted * Today(all, day), p)|
  {
    forall q | q in wanted
      ensures q in done ==> Before(q, p)
      ensures Before(q, p) ==> q in done + Today(all, day)
    {
      assert q in done ==> q != p;
    }
    assert Ahead(wanted, p) == wanted * done + Ahead(wanted * Today(all, day), p);
    assert (wanted * done) * Ahead(wanted * Today(all, day), p) == {};
  }

  /** After a day, the limit left is what all packets settled so far leave of it. */
  lemma RestAfterDay(all: set<Packet>, wanted: set<Packet>, limit: Option<nat>, done: set<Packet>, day: U64)
    requires IdsDetermine(all) && wanted <= all && done !! Today(all, day)
    ensures var rest := Rest(limit, |wanted * done|);
            Rest(rest, |Cut(wanted * Today(all, day), rest)|) == Rest(limit, |wanted * (done + Today(all, day))|)
  {
    hide Cut, Ahead, Before, UnixDay;
    var today := Today(all, day);
    assert wanted * (done + today) == wanted * done + wanted * today;
    assert (wanted * done) * (wanted * today) == {};
    assert |wanted * (done + today)| == |wanted * done| + |wanted * today|;
    CutSize(wanted * today, Rest(limit, |wanted * done|));
  }

  /** The goals of a day's filters complete the target up to that day. */
  lemma DayCompletesTarget(lookup: Lookup, asks: seq<Ask>, remaining: seq<Option<nat>>, done: set<Packet>, day: U64, union: set<Packet>)
    requires AsksValid(asks) && |remaining| == |asks|
    requires var all := Relevant(lookup, asks);
             DownClosed(all, done) && DownClosed(all, done + Today(all, day)) && done !! Today(all, day)
    requires forall j :: 0 <= j < |asks| ==> remaining[j] == Rest(asks[j].filter.limit, |AskWanted(lookup, asks[j]) * done|)
    requires forall p :: p in union <==>
               exists j :: 0 <= j < |asks| && p in Cut(AskPool(lookup, asks[j], day), remaining[j])
    ensures StreamTarget(lookup, asks) * done + union
            == StreamTarget(lookup, asks) * (done + Today(Relevant(lookup, asks), day))
  {
    hide AskWanted, AskPool, DownClosed, Relevant, AllRead, Cut, Before, UnixDay;
    var all := Relevant(lookup, asks);
    RelevantIsValid(lookup, asks);
    forall j | 0 <= j < |asks|
      ensures Cut(AskPool(lookup, asks[j], day), remaining[j]) == Cut(AskWanted(lookup, asks[j]), asks[j].filter.limit) * Today(all, day)
    {
      GoalOfDay(lookup, asks, j, done, day);
    }
    forall p
      ensures p in union <==> p in StreamTarget(lookup, asks) && p in Today(all, day)
    {
    }
  }

  lemma GoalOfDay(lookup: Lookup, asks: seq<Ask>, j: nat, done: set<Packet>, day: U64)
    requires AsksValid(asks) && j < |asks|
    requires var all := Relevant(lookup, asks);
             DownClosed(all, done) && DownClosed(all, done + Today(all, day)) && done !! Today(all, day)
    ensures var wanted, all := AskWanted(lookup, asks[j]), Relevant(lookup, asks);
            && wanted <= all && AskPool(lookup, asks[j], day) == wanted * Today(all, day)
            && Cut(AskPool(lookup, asks[j], day), Rest(asks[j].filter.limit, |wanted * done|)) == Cut(wanted, asks[j].filter.limit) * Today(all, day)
  {
    var wanted, all := AskWanted(lookup, asks[j]), Relevant(lookup, asks);
    assert AskPool(lookup, asks[j], day) == wanted * Today(all, day);
    assert all <= AllRead(asks);
    DayGoal(all, wanted, asks[j].filter.limit, done, day);
  }

  /** One filter of a running query: its hot matches by day, and the partitions its time range
      overlaps. */
  datatype StreamState = StreamState(filter: Filter, remaining: Option<nat>, hotByDay: map<U64, seq<Packet>>, partitionDays: set<U64>)

  ghost predicate Prepared(src: Source, lookup: Lookup, state: StreamState) {
    && (forall day, p :: day in state.hotByDay ==>
          (p in state.hotByDay[day] <==> HotAnswer(src, lookup, state.filter, p) && UnixDay(p) == day))
    && (forall p :: HotAnswer(src, lookup, state.filter, p) ==> UnixDay(p) in state.hotByDay)
    && (forall day :: day in state.partitionDays <==> day in src.partitions && DayOverlapsFilter(day, state.filter))
  }

  method PrepareFilter(src: Source, lookup: Lookup, f: Filter) returns (state: StreamState)
    ensures state.filter == f && state.remaining == f.limit && Prepared(src, lookup, state)
  {
    hide HotMatchAt, DayOverlapsFilter, UnixDay;
    var matches := HotMatches(src, lookup, f, |src.hot|);
    HotMatchesMembers(src, lookup, f, |src.hot|);
    var byDay := GroupByDay(matches);
    forall day {
      OnDayMembers(matches, day);
    }
    forall p | HotAnswer(src, lookup, f, p)
      ensures UnixDay(p) in byDay
    {
      assert p in matches;
    }
    state := StreamState(f, f.limit, byDay, set day | day in src.partitions && DayOverlapsFilter(day, f));
  }

  /** Whatever a prepared filter wants falls on one of its days. */
  lemma WantedOnDays(src: Source, lookup: Lookup, state: StreamState, p: Packet)
    requires Prepared(src, lookup, state) && p in StreamWanted(src, lookup, state.filter)
    ensures UnixDay(p) in state.hotByDay.Keys + state.partitionDays
  {
    if !HotAnswer(src, lookup, state.filter, p) {
      PruningIsSound(state.filter, p);
    }
  }

  ghost predicate AllPrepared(lookup: Lookup, asks: seq<Ask>, states: seq<StreamState>) {
    |states| == |asks| && forall j :: 0 <= j < |states| ==> states[j].filter == asks[j].filter && Prepared(asks[j].src, lookup, states[j])
  }

  /** The cursors of a day: one for each filter with something to read and limit left. */
  method OpenDayCursors(lookup: Lookup, asks: seq<Ask>, states: seq<StreamState>, day: U64) returns (cursors: seq<DayCursor>)
    requires AsksValid(asks) && AllPrepared(lookup, asks, states)
    ensures Ready(cursors) && fresh(Footprints(cursors))
    ensures OpenedOn(lookup, asks, states, day, cursors)
    ensures Shows(cursors, GoalsOf(cursors), seq(|cursors|, _ => {}))
  {
    hide MergedCursor.Valid, MergedCursor.Goal, DayPool, DayOverlapsFilter, HotAnswer, UnixDay, Prepared, Cut, MergedCursor.Delivered, OpenFor;
    cursors := [];
    NothingOpened(lookup, asks, states, day);
    for j := 0 to |states|
      invariant Ready(cursors) && fresh(Footprints(cursors))
      invariant OpenedSoFar(lookup, asks, states, day, cursors, j)
    {
      if states[j].remaining == Some(0) {
        NothingOfZero(AskPool(lookup, asks[j], day));
        OpenNone(lookup, asks, states, day, cursors, j);
        continue;
      }
      cursors := OpenFilter(lookup, asks, states, day, cursors, j);
    }
    GoalsAreOpen(lookup, asks, states, day, cursors);
  }

  /** The cursor of one filter, if it has anything to read on the day. */
  method OpenFilter(lookup: Lookup, asks: seq<Ask>, states: seq<StreamState>, day: U64, cursors: seq<DayCursor>, j: nat)
    returns (more: seq<DayCursor>)
    requires AsksValid(asks) && AllPrepared(lookup, asks, states) && j < |states|
    requires Ready(cursors) && OpenedSoFar(lookup, asks, states, day, cursors, j)
    requires forall o :: o in Footprints(cursors) ==> allocated(o)
    ensures Ready(more) && fresh(Footprints(more) - Footprints(cursors))
    ensures OpenedSoFar(lookup, asks, states, day, more, j + 1)
  {
    hide MergedCursor.Valid, MergedCursor.Goal, DayPool, DayOverlapsFilter, HotAnswer, UnixDay, Prepared, Cut, MergedCursor.Delivered;
    var state := states[j];
    PreparedForDay(asks[j].src, lookup, state, day);
    var hot := if day in state.hotByDay then state.hotByDay[day] else [];
    var cursor := OpenDay(asks[j].src, lookup, state.filter, day, hot, day in state.partitionDays, state.remaining);
    if cursor == null {
      OpenNone(lookup, asks, states, day, cursors, j);
      return cursors;
    }
    OpenAnother(lookup, asks, states, day, cursors, DayCursor(j, cursor), j);
    OneMoreFootprint(cursors, DayCursor(j, cursor));
    more := cursors + [DayCursor(j, cursor)];
  }

  /** The cursors stand for the first `n` filters; those without one have nothing to give. */
  ghost predicate OpenedSoFar(lookup: Lookup, asks: seq<Ask>, states: seq<StreamState>, day: U64, cursors: seq<DayCursor>, n: nat)
    requires n <= |states| == |asks|
    reads set i | 0 <= i < |cursors| :: cursors[i].cursor
  {
    && (forall i, k :: 0 <= i < k < |cursors| ==> cursors[i].state < cursors[k].state)
    && (forall i :: 0 <= i < |cursors| ==> cursors[i].state < n && OpenFor(lookup, asks, states, day, cursors[i]))
    && (forall j :: 0 <= j < n && (forall i :: 0 <= i < |cursors| ==> cursors[i].state != j) ==>
          Cut(AskPool(lookup, asks[j], day), states[j].remaining) == {})
  }

  lemma NothingOpened(lookup: Lookup, asks: seq<Ask>, states: seq<StreamState>, day: U64)
    requires |states| == |asks|
    ensures OpenedSoFar(lookup, asks, states, day, [], 0) && Ready([]) && Footprints([]) == {}
  {
  }

  lemma OpenNone(lookup: Lookup, asks: seq<Ask>, states: seq<StreamState>, day: U64, cursors: seq<DayCursor>, j: nat)
    requires j < |states| == |asks| && OpenedSoFar(lookup, asks, states, day, cursors, j)
    requires Cut(AskPool(lookup, asks[j], day), states[j].remaining) == {}
    ensures OpenedSoFar(lookup, asks, states, day, cursors, j + 1)
  {
    hide DayPool, Cut, OpenFor;
  }

  lemma OpenAnother(lookup: Lookup, asks: seq<Ask>, states: seq<StreamState>, day: U64,
                    cursors: seq<DayCursor>, c: DayCursor, j: nat)
    requires j < |states| == |asks| && OpenedSoFar(lookup, asks, states, day, cursors, j)
    requires c.state == j && OpenFor(lookup, asks, states, day, c)
    ensures OpenedSoFar(lookup, asks, states, day, cursors + [c], j + 1)
  {
    hide DayPool, Cut, OpenFor;
    var more := cursors + [c];
    assert more[|cursors|] == c && forall i :: 0 <= i < |cursors| ==> more[i] == cursors[i];
  }

  lemma OneMoreFootprint(cursors: seq<DayCursor>, c: DayCursor)
    requires Ready(cursors) && c.cursor.Valid() && c.cursor.Footprint() !! Footprints(cursors)
    ensures Ready(cursors + [c]) && Footprints(cursors + [c]) == Footprints(cursors) + c.cursor.Footprint()
  {
    hide MergedCursor.Valid;
    var more := cursors + [c];
    assert more[|cursors|] == c && forall i :: 0 <= i < |cursors| ==> more[i] == cursors[i];
  }

  lemma GoalsAreOpen(lookup: Lookup, asks: seq<Ask>, states: seq<StreamState>, day: U64, cursors: seq<DayCursor>)
    requires |states| == |asks| && forall j :: 0 <= j < |states| ==> states[j].filter == asks[j].filter
    requires OpenedSoFar(lookup, asks, states, day, cursors, |states|)
    ensures OpenedOn(lookup, asks, states, day, cursors)
    ensures Shows(cursors, GoalsOf(cursors), seq(|cursors|, _ => {}))
  {
    hide DayPool, Cut;
  }

  ghost predicate OpenFor(lookup: Lookup, asks: seq<Ask>, states: seq<StreamState>, day: U64, c: DayCursor)
    reads c.cursor
  {
    && c.state < |states| && c.state < |asks| && c.cursor.Delivered() == {}
    && c.cursor.pool == AskPool(lookup, asks[c.state], day) && c.cursor.limit == states[c.state].remaining
  }

  lemma NothingOfZero(pool: set<Packet>)
    ensures Cut(pool, Some(0)) == {}
  {
  }

  lemma PreparedForDay(src: Source, lookup: Lookup, state: StreamState, day: U64)
    requires Prepared(src, lookup, state)
    ensures forall p :: p in (if day in state.hotByDay then state.hotByDay[day] else []) <==>
              HotAnswer(src, lookup, state.filter, p) && UnixDay(p) == day
    ensures day in state.partitionDays <==> day in src.partitions && DayOverlapsFilter(day, state.filter)
  {
  }

  // ----- the whole run -----

  ghost function GoalsOf(cursors: seq<DayCursor>): seq<set<Packet>> {
    seq(|cursors|, i requires 0 <= i < |cursors| => cursors[i].cursor.Goal())
  }

  /** Between two days: every filter has what the settled days leave of its limit, and the
      output lists the target among the settled days. */
  ghost predicate BetweenDays(lookup: Lookup, asks: seq<Ask>, remaining: seq<Option<nat>>, out: seq<Packet>, emitted: set<Id>, done: set<Packet>) {
    && |remaining| == |asks|
    && (forall j :: 0 <= j < |asks| ==> remaining[j] == Rest(asks[j].filter.limit, |AskWanted(lookup, asks[j]) * done|))
    && StrictlySorted(out) && emitted == IdsOf(Elements(out))
    && Elements(out) == StreamTarget(lookup, asks) * done
  }

  function Remaining(states: seq<StreamState>): seq<Option<nat>> {
    seq(|states|, j requires 0 <= j < |states| => states[j].remaining)
  }

  /** A day of the run: from settled days to one more settled day. */
  method StreamDay(lookup: Lookup, asks: seq<Ask>, states: seq<StreamState>, day: U64,
                   sent: seq<Packet>, seen: set<Id>, emit: seq<Packet> -> bool, ghost done: set<Packet>)
    returns (ok: bool, remaining: seq<Option<nat>>, out: seq<Packet>, emitted: set<Id>)
    requires AsksValid(asks) && AllPrepared(lookup, asks, states)
    requires var all := Relevant(lookup, asks);
             DownClosed(all, done) && DownClosed(all, done + Today(all, day)) && done !! Today(all, day)
    requires BetweenDays(lookup, asks, Remaining(states), sent, seen, done)
    requires Heard(emit, sent, true)
    ensures ListsPrefix(out, StreamTarget(lookup, asks))
    ensures ok ==> BetweenDays(lookup, asks, remaining, out, emitted, done + Today(Relevant(lookup, asks), day))
    ensures Heard(emit, out, ok)
  {
    hide *;
    var cursors := OpenDayCursors(lookup, asks, states, day);
    ghost var base := StreamTarget(lookup, asks) * done;
    ghost var goals := GoalsOf(cursors);
    DayOpened(lookup, asks, states, day, cursors, done, sent, seen);
    ok, remaining, out, emitted := DrainDay(cursors, Remaining(states), sent, seen, emit, base, goals);
    DayClosed(lookup, asks, states, day, cursors, done, sent, seen, ok, remaining, out, emitted);
  }

  /** What the cursors of a day were opened on, as values. */
  ghost predicate OpenedOn(lookup: Lookup, asks: seq<Ask>, states: seq<StreamState>, day: U64, cursors: seq<DayCursor>) {
    && |states| == |asks|
    && (forall i, k :: 0 <= i < k < |cursors| ==> cursors[i].state < cursors[k].state)
    && (forall i :: 0 <= i < |cursors| ==>
          && cursors[i].state < |states|
          && cursors[i].cursor.Goal() == Cut(AskPool(lookup, asks[cursors[i].state], day), states[cursors[i].state].remaining))
    && (forall j :: 0 <= j < |states| && (forall i :: 0 <= i < |cursors| ==> cursors[i].state != j) ==>
          Cut(AskPool(lookup, asks[j], day), states[j].remaining) == {})
  }

  lemma UnionOfGoals(lookup: Lookup, asks: seq<Ask>, states: seq<StreamState>, day: U64, cursors: seq<DayCursor>)
    requires OpenedOn(lookup, asks, states, day, cursors)
    ensures forall p :: p in UnionOf(GoalsOf(cursors)) <==>
              exists j :: 0 <= j < |asks| && p in Cut(AskPool(lookup, asks[j], day), Remaining(states)[j])
  {
    forall p
      ensures p in UnionOf(GoalsOf(cursors)) <==>
              exists j :: 0 <= j < |asks| && p in Cut(AskPool(lookup, asks[j], day), Remaining(states)[j])
    {
      if p in UnionOf(GoalsOf(cursors)) {
        var i :| 0 <= i < |cursors| && p in GoalsOf(cursors)[i];
        assert p in Cut(AskPool(lookup, asks[cursors[i].state], day), Remaining(states)[cursors[i].state]);
      }
      if j :| 0 <= j < |asks| && p in Cut(AskPool(lookup, asks[j], day), Remaining(states)[j]) {
        var i :| 0 <= i < |cursors| && cursors[i].state == j;
        assert p in GoalsOf(cursors)[i];
      }
    }
  }

  /** Opening a day starts a drain: today's goals come after everything sent. */
  lemma DayOpened(lookup: Lookup, asks: seq<Ask>, states: seq<StreamState>, day: U64, cursors: seq<DayCursor>,
                  done: set<Packet>, sent: seq<Packet>, seen: set<Id>)
    requires AsksValid(asks) && OpenedOn(lookup, asks, states, day, cursors)
    requires var all := Relevant(lookup, asks);
             DownClosed(all, done) && DownClosed(all, done + Today(all, day)) && done !! Today(all, day)
    requires BetweenDays(lookup, asks, Remaining(states), sent, seen, done)
    ensures Draining(StreamTarget(lookup, asks) * done, GoalsOf(cursors), seq(|cursors|, _ => {}), sent, seen)
    ensures Spending(cursors, seq(|cursors|, _ => {}), Remaining(states), Remaining(states))
  {
    var all, goals := Relevant(lookup, asks), GoalsOf(cursors);
    var none: seq<set<Packet>> := seq(|cursors|, _ => {});
    assert UnionOf(none) == {};
    forall i | 0 <= i < |goals|
      ensures goals[i] <= Today(all, day)
    {
      GoalOfDay(lookup, asks, cursors[i].state, done, day);
    }
    forall i, x, y | 0 <= i < |goals| && x in goals[i] && y in Elements(sent)
      ensures !Before(x, y)
    {
      assert x in Today(all, day) && y in done;
    }
    forall p | p in UnionOf(goals)
      ensures p in AllRead(asks)
    {
      var i :| 0 <= i < |goals| && p in goals[i];
    }
  }

  /** Draining the goals of a day settles the day: output, limits and all. */
  lemma DayClosed(lookup: Lookup, asks: seq<Ask>, states: seq<StreamState>, day: U64, cursors: seq<DayCursor>, done: set<Packet>,
                  sent: seq<Packet>, seen: set<Id>, ok: bool, remaining: seq<Option<nat>>, out: seq<Packet>, emitted: set<Id>)
    requires AsksValid(asks) && OpenedOn(lookup, asks, states, day, cursors)
    requires var all := Relevant(lookup, asks);
             DownClosed(all, done) && DownClosed(all, done + Today(all, day)) && done !! Today(all, day)
    requires BetweenDays(lookup, asks, Remaining(states), sent, seen, done)
    requires StrictlySorted(out) && emitted == IdsOf(Elements(out))
    requires InitialPart(Elements(out), StreamTarget(lookup, asks) * done + UnionOf(GoalsOf(cursors)))
    requires ok ==>
               && Elements(out) == StreamTarget(lookup, asks) * done + UnionOf(GoalsOf(cursors))
               && Spending(cursors, GoalsOf(cursors), Remaining(states), remaining)
    ensures ListsPrefix(out, StreamTarget(lookup, asks))
    ensures ok ==> BetweenDays(lookup, asks, remaining, out, emitted, done + Today(Relevant(lookup, asks), day))
  {
    hide Cut, DownClosed, AskWanted, StreamTarget, AskPool, Today, UnionOf, Relevant, Before, GoalsOf;
    var all := Relevant(lookup, asks);
    UnionOfGoals(lookup, asks, states, day, cursors);
    DayCompletesTarget(lookup, asks, Remaining(states), done, day, UnionOf(GoalsOf(cursors)));
    InitialOfTarget(lookup, asks, Elements(out), done + Today(all, day));
    if ok {
      forall j | 0 <= j < |asks|
        ensures remaining[j] == Rest(asks[j].filter.limit, |AskWanted(lookup, asks[j]) * (done + Today(all, day))|)
      {
        LimitAfterDay(lookup, asks, states, day, cursors, done, remaining, j);
      }
    }
  }

  lemma InitialOfTarget(lookup: Lookup, asks: seq<Ask>, part: set<Packet>, done: set<Packet>)
    requires DownClosed(Relevant(lookup, asks), done)
    requires InitialPart(part, StreamTarget(lookup, asks) * done)
    ensures InitialPart(part, StreamTarget(lookup, asks))
  {
    forall p | p in StreamTarget(lookup, asks)
      ensures p in Relevant(lookup, asks)
    {
      var j :| 0 <= j < |asks| && p in Cut(AskWanted(lookup, asks[j]), asks[j].filter.limit);
    }
  }

  lemma LimitAfterDay(lookup: Lookup, asks: seq<Ask>, states: seq<StreamState>, day: U64, cursors: seq<DayCursor>, done: set<Packet>,
                      remaining: seq<Option<nat>>, j: nat)
    requires AsksValid(asks) && OpenedOn(lookup, asks, states, day, cursors) && j < |asks|
    requires var all := Relevant(lookup, asks);
             DownClosed(all, done) && DownClosed(all, done + Today(all, day)) && done !! Today(all, day)
    requires Remaining(states)[j] == Rest(asks[j].filter.limit, |AskWanted(lookup, asks[j]) * done|)
    requires Spending(cursors, GoalsOf(cursors), Remaining(states), remaining)
    ensures remaining[j] == Rest(asks[j].filter.limit, |AskWanted(lookup, asks[j]) * (done + Today(Relevant(lookup, asks), day))|)
  {
    hide Cut, DownClosed, AskWanted, AskPool, Today, Relevant, AllRead, IdsDetermine;
    var wanted, all := AskWanted(lookup, asks[j]), Relevant(lookup, asks);
    GoalOfDay(lookup, asks, j, done, day);
    RelevantIsValid(lookup, asks);
    RestAfterDay(all, wanted, asks[j].filter.limit, done, day);
    var rest := Remaining(states)[j];
    var goal := Cut(AskPool(lookup, asks[j], day), rest);
    assert remaining[j] == Rest(rest, |goal|) by {
      if i :| 0 <= i < |cursors| && cursors[i].state == j {
        assert GoalsOf(cursors)[i] == goal;
      } else {
        assert goal == {};
      }
    }
  }

  lemma RelevantIsValid(lookup: Lookup, asks: seq<Ask>)
    requires AsksValid(asks)
    ensures IdsDetermine(Relevant(lookup, asks)) && Relevant(lookup, asks) <= AllRead(asks)
  {
  }

  method Prepare(lookup: Lookup, asks: seq<Ask>) returns (states: seq<StreamState>, days: set<U64>)
    ensures AllPrepared(lookup, asks, states)
    ensures forall j :: 0 <= j < |states| ==> states[j].remaining == asks[j].filter.limit
    ensures forall p :: p in Relevant(lookup, asks) ==> UnixDay(p) in days
  {
    hide Prepared, StreamWanted, UnixDay;
    states, days := [], {};
    for j := 0 to |asks|
      invariant AllPrepared(lookup, asks[..j], states)
      invariant forall i :: 0 <= i < j ==> states[i].remaining == asks[i].filter.limit
      invariant forall i, p :: 0 <= i < j && p in AskWanted(lookup, asks[i]) ==> UnixDay(p) in days
    {
      var state := PrepareFilter(asks[j].src, lookup, asks[j].filter);
      forall p | p in AskWanted(lookup, asks[j]) {
        WantedOnDays(asks[j].src, lookup, state, p);
      }
      states := states + [state];
      days := days + state.hotByDay.Keys + state.partitionDays;
    }
    assert asks[..|asks|] == asks;
  }

  lemma NothingSent(lookup: Lookup, asks: seq<Ask>, remaining: seq<Option<nat>>)
    requires |remaining| == |asks| && forall j :: 0 <= j < |asks| ==> remaining[j] == asks[j].filter.limit
    ensures BetweenDays(lookup, asks, remaining, [], {}, {})
  {
    forall j | 0 <= j < |asks|
      ensures remaining[j] == Rest(asks[j].filter.limit, |AskWanted(lookup, asks[j]) * {}|)
    {
      assert AskWanted(lookup, asks[j]) * {} == {};
    }
  }

  lemma AllSent(lookup: Lookup, asks: seq<Ask>, remaining: seq<Option<nat>>, out: seq<Packet>, emitted: set<Id>)
    requires BetweenDays(lookup, asks, remaining, out, emitted, Relevant(lookup, asks))
    ensures Lists(out, StreamTarget(lookup, asks))
  {
    forall p | p in StreamTarget(lookup, asks)
      ensures p in Relevant(lookup, asks)
    {
      var j :| 0 <= j < |asks| && p in Cut(AskWanted(lookup, asks[j]), asks[j].filter.limit);
    }
    assert StreamTarget(lookup, asks) * Relevant(lookup, asks) == StreamTarget(lookup, asks);
  }

  /** Answers one query: the output is the sorted duplicate-free union of its filters' cuts, a
      packet two filters want counting towards the limit of both; when the receiver stops it,
      a prefix of that. */
  method QueryStreaming(lookup: Lookup, asks: seq<Ask>, emit: seq<Packet> -> bool) returns (ok: bool, out: seq<Packet>)
    requires AsksValid(asks)
    ensures ListsPrefix(out, StreamTarget(lookup, asks))
    ensures ok ==> Lists(out, StreamTarget(lookup, asks))
    ensures ok <==> forall k: nat :: 0 < k <= |out| ==> emit(out[..k])
    ensures !ok ==> out != [] && forall k: nat :: 0 < k < |out| ==> emit(out[..k])
  {
    hide StreamTarget, BetweenDays, DownClosed, Prepared, StrictlySorted, Lists, ListsPrefix, Relevant;
    var states, days := Prepare(lookup, asks);
    ghost var all, listed := Relevant(lookup, asks), days;
    var emitted: set<Id> := {};
    out := [];
    ok := true;
    NothingSent(lookup, asks, Remaining(states));
    EmptyListing(lookup, asks);
    assert SettledDays(all, days) == {};
    while days != {}
      invariant AllPrepared(lookup, asks, states)
      invariant OldestLeft(days, listed)
      invariant BetweenDays(lookup, asks, Remaining(states), out, emitted, SettledDays(all, days))
      invariant ListsPrefix(out, StreamTarget(lookup, asks)) && Heard(emit, out, true)
      decreases days
    {
      var day := LatestDay(days);
      LatestDayNext(all, days, listed, day);
      var remaining;
      ok, remaining, out, emitted := StreamDay(lookup, asks, states, day, out, emitted, emit, SettledDays(all, days));
      if !ok {
        HeardMeans(emit, out, ok);
        return;
      }
      days := days - {day};
      states := WithRemaining(lookup, asks, states, remaining, out, emitted, SettledDays(all, days));
    }
    assert SettledDays(all, {}) == all;
    AllSent(lookup, asks, Remaining(states), out, emitted);
    HeardMeans(emit, out, true);
    ok := true;
  }

  method WithRemaining(lookup: Lookup, asks: seq<Ask>, states: seq<StreamState>, remaining: seq<Option<nat>>,
                       ghost out: seq<Packet>, ghost emitted: set<Id>, ghost done: set<Packet>) returns (states': seq<StreamState>)
    requires AllPrepared(lookup, asks, states)
    requires BetweenDays(lookup, asks, remaining, out, emitted, done)
    ensures AllPrepared(lookup, asks, states')
    ensures BetweenDays(lookup, asks, Remaining(states'), out, emitted, done)
  {
    hide Prepared, AskWanted, StreamTarget, StrictlySorted;
    states' := seq(|states|, j requires 0 <= j < |states| && j < |remaining| => states[j].(remaining := remaining[j]));
    assert Remaining(states') == remaining;
    forall j | 0 <= j < |states|
      ensures Prepared(asks[j].src, lookup, states'[j])
    {
      LimitIsFree(asks[j].src, lookup, states[j], remaining[j]);
    }
  }

  lemma LimitIsFree(src: Source, lookup: Lookup, state: StreamState, remaining: Option<nat>)
    requires Prepared(src, lookup, state)
    ensures Prepared(src, lookup, state.(remaining := remaining))
  {
  }

  lemma EmptyListing(lookup: Lookup, asks: seq<Ask>)
    ensures ListsPrefix([], StreamTarget(lookup, asks))
  {
  }

  // ----- the two engines agree -----

  /** The hot lookup finds exactly the hot packets that contain all the terms. */
  ghost predicate LookupExact(src: Source, lookup: Lookup, terms: seq<Term>) {
    forall i :: 0 <= i < |src.hot| ==> (i in lookup(terms) <==> HasTerms(src.hot[i].text, Elements(terms)))
  }

  /** For a filter with search terms, both engines count the same packets, for any behaviour of
      the shared Bloom test. */
  lemma SearchFiltersAgree(src: Source, lookup: Lookup, f: Filter)
    requires src.Valid() && f.terms != [] && LookupExact(src, lookup, f.terms)
    ensures StreamWanted(src, lookup, f) == Wanted(src, f)
  {
    forall p | p in src.All()
      ensures (HotAnswer(src, lookup, f, p) || PartitionAnswer(src, f, p)) <==> Eligible(src, f, p)
    {
      if p !in src.hot {
        var day :| day in src.partitions && p in src.partitions[day];
        assert UnixDay(p) == day;
      }
      if Eligible(src, f, p) && p in src.hot {
        var i :| 0 <= i < |src.hot| && src.hot[i] == p;
        assert HotMatchAt(src, lookup, f, i);
      }
    }
  }

  /** A plain filter streams what it matches, less the partition packets the store hides. */
  lemma StreamedPlain(src: Source, lookup: Lookup, f: Filter)
    requires src.Valid() && f.terms == []
    ensures StreamWanted(src, lookup, f) == set p | p in Wanted(src, f) && (p in src.hot || src.storeVisible(p))
  {
    forall p | p in src.All()
      ensures p in Wanted(src, f) <==> MatchesWithoutSearch(f, p)
      ensures p in StreamWanted(src, lookup, f) <==>
              MatchesWithoutSearch(f, p) && (p in src.hot || src.storeVisible(p))
    {
      if p in src.hot {
        var i :| 0 <= i < |src.hot| && src.hot[i] == p;
        assert MatchesWithoutSearch(f, p) ==> HotMatchAt(src, lookup, f, i);
      } else {
        var day :| day in src.partitions && p in src.partitions[day];
        assert UnixDay(p) == day;
      }
    }
  }

  /** Without search terms the engines differ: streaming asks the visibility store about a
      partition packet, batched does not. They count the same packets for a filter exactly
      when the store shows every partition packet that matches and is not also in the hot snapshot. */
  lemma PlainFiltersAgreeIff(src: Source, lookup: Lookup, f: Filter)
    requires src.Valid() && f.terms == []
    ensures StreamWanted(src, lookup, f) == Wanted(src, f) <==>
            forall day, p :: day in src.partitions && p in src.partitions[day] && MatchesWithoutSearch(f, p) && p !in src.hot ==> src.storeVisible(p)
  {
    StreamedPlain(src, lookup, f);
    if StreamWanted(src, lookup, f) == Wanted(src, f) {
      forall day, p | day in src.partitions && p in src.partitions[day] && MatchesWithoutSearch(f, p) && p !in src.hot
        ensures src.storeVisible(p)
      {
        assert p in Wanted(src, f);
      }
    }
  }

  // ----- the two engines on one query -----

  /** The query whose filters all read the same. */
  function AsksOf(src: Source, filters: seq<Filter>): seq<Ask> {
    seq(|filters|, j requires 0 <= j < |filters| => Ask(filters[j], src))
  }

  /** The store shows everything of the filter's answer that is not in the hot snapshot. */
  ghost predicate StoreShowsCut(src: Source, f: Filter) {
    forall p :: p in Cut(Wanted(src, f), f.limit) && p !in src.hot ==> src.storeVisible(p)
  }

  /** Cutting fewer matches gives the same cut exactly when none of the cut is missing. */
  lemma CutOfFewer(fewer: set<Packet>, matches: set<Packet>, limit: Option<nat>)
    requires IdsDetermine(matches) && fewer <= matches
    ensures Cut(fewer, limit) == Cut(matches, limit) <==> Cut(matches, limit) <= fewer
  {
    if Cut(matches, limit) <= fewer {
      forall p | p in fewer
        ensures p in Cut(fewer, limit) <==> p in Cut(matches, limit)
      {
        SubsetSize(Ahead(fewer, p), Ahead(matches, p));
        if limit.Some? && limit.value <= |Ahead(matches, p)| {
          CutIsAhead(matches, limit, p);
          SubsetSize(Ahead(matches, p), matches);
          CutSize(matches, limit);
          SubsetSize(Cut(matches, limit), Ahead(fewer, p));
        }
      }
    }
  }

  /** A match the limit cuts off comes after the whole cut. */
  lemma CutIsAhead(matches: set<Packet>, limit: Option<nat>, p: Packet)
    requires IdsDetermine(matches) && p in matches && p !in Cut(matches, limit)
    ensures Cut(matches, limit) <= Ahead(matches, p)
  {
    forall q | q in Cut(matches, limit)
      ensures Before(q, p)
    {
      if !Before(q, p) {
        assert q != p && Before(p, q);
        SubsetSize(Ahead(matches, p), Ahead(matches, q));
      }
    }
  }

  lemma PlainCutsAgreeIff(src: Source, lookup: Lookup, f: Filter)
    requires src.Valid() && f.terms == []
    ensures Cut(StreamWanted(src, lookup, f), f.limit) == Cut(Wanted(src, f), f.limit) <==> StoreShowsCut(src, f)
  {
    hide Cut, StreamWanted;
    StreamedPlain(src, lookup, f);
    CutOfFewer(StreamWanted(src, lookup, f), Wanted(src, f), f.limit);
    CutsAreMatches(Wanted(src, f), f.limit);
  }

  lemma CutsAreMatches(matches: set<Packet>, limit: Option<nat>)
    ensures Cut(matches, limit) <= matches
  {
  }

  /** What streaming sends is in the hot snapshot or shown by the store, whatever the filter. */
  lemma StreamedIsShown(src: Source, lookup: Lookup, filters: seq<Filter>, p: Packet)
    requires p in StreamTarget(lookup, AsksOf(src, filters))
    ensures p in src.hot || src.storeVisible(p)
  {
    var asks := AsksOf(src, filters);
    var j :| 0 <= j < |asks| && p in Cut(AskWanted(lookup, asks[j]), asks[j].filter.limit);
    assert p in StreamWanted(src, lookup, filters[j]);
  }

  /** Filter by filter, equal cuts make equal answers. */
  lemma SameCutsSameTarget(src: Source, lookup: Lookup, filters: seq<Filter>)
    requires forall f :: f in filters ==> Cut(StreamWanted(src, lookup, f), f.limit) == Cut(Wanted(src, f), f.limit)
    ensures StreamTarget(lookup, AsksOf(src, filters)) == Target(src, filters)
  {
    hide Cut, StreamWanted, Wanted;
    var asks := AsksOf(src, filters);
    forall p
      ensures p in StreamTarget(lookup, asks) <==> p in Target(src, filters)
    {
      if p in StreamTarget(lookup, asks) {
        var j :| 0 <= j < |asks| && p in Cut(AskWanted(lookup, asks[j]), asks[j].filter.limit);
        assert filters[j] in filters && p in asks[j].src.All();
      }
      if p in Target(src, filters) {
        var f :| f in filters && p in Cut(Wanted(src, f), f.limit);
        var j :| 0 <= j < |filters| && filters[j] == f;
        assert asks[j] == Ask(f, src) && p in asks[j].src.All();
        assert p in Cut(AskWanted(lookup, asks[j]), asks[j].filter.limit);
      }
    }
  }

  lemma TargetsAgreeIff(src: Source, lookup: Lookup, filters: seq<Filter>)
    requires src.Valid()
    requires forall f :: f in filters && f.terms != [] ==> LookupExact(src, lookup, f.terms)
    ensures StreamTarget(lookup, AsksOf(src, filters)) == Target(src, filters) <==>
            forall f :: f in filters && f.terms == [] ==> StoreShowsCut(src, f)
  {
    hide StreamWanted, Wanted, Cut, LookupExact;
    if forall f :: f in filters && f.terms == [] ==> StoreShowsCut(src, f) {
      forall f | f in filters
        ensures Cut(StreamWanted(src, lookup, f), f.limit) == Cut(Wanted(src, f), f.limit)
      {
        if f.terms == [] {
          PlainCutsAgreeIff(src, lookup, f);
        } else {
          SearchFiltersAgree(src, lookup, f);
        }
      }
      SameCutsSameTarget(src, lookup, filters);
    }
    if StreamTarget(lookup, AsksOf(src, filters)) == Target(src, filters) {
      forall f, p | f in filters && p in Cut(Wanted(src, f), f.limit) && p !in src.hot
        ensures src.storeVisible(p)
      {
        CutsAreMatches(Wanted(src, f), f.limit);
        WantedIsRead(src, f);
        assert p in Target(src, filters);
        StreamedIsShown(src, lookup, filters, p);
      }
    }
  }

  lemma WantedIsRead(src: Source, f: Filter)
    ensures Wanted(src, f) <= src.All()
  {
  }

  /** The two engines give the same output for a query, packet by packet, if and only if the
      store shows everything its plain filters answer from partitions alone. `batched` is the
      output of the query in a batch it stays active in, `streamed` that of streaming it. */
  lemma EnginesAgreeIff(src: Source, lookup: Lookup, filters: seq<Filter>, batched: seq<Packet>, streamed: seq<Packet>)
    requires src.Valid()
    requires forall f :: f in filters && f.terms != [] ==> LookupExact(src, lookup, f.terms)
    requires Lists(batched, Target(src, filters)) && Lists(streamed, StreamTarget(lookup, AsksOf(src, filters)))
    ensures batched == streamed <==> forall f :: f in filters && f.terms == [] ==> StoreShowsCut(src, f)
  {
    hide Target, StreamTarget, LookupExact, StoreShowsCut;
    TargetsAgreeIff(src, lookup, filters);
    if Target(src, filters) == StreamTarget(lookup, AsksOf(src, filters)) {
      ListingIsUnique(batched, streamed, Target(src, filters));
    }
  }

  /** So when every filter searches they always agree. */
  lemma EnginesAgree(src: Source, lookup: Lookup, filters: seq<Filter>, batched: seq<Packet>, streamed: seq<Packet>)
    requires src.Valid()
    requires forall f :: f in filters ==> f.terms != [] && LookupExact(src, lookup, f.terms)
    requires Lists(batched, Target(src, filters)) && Lists(streamed, StreamTarget(lookup, AsksOf(src, filters)))
    ensures batched == streamed
  {
    EnginesAgreeIff(src, lookup, filters, batched, streamed);
  }
}
