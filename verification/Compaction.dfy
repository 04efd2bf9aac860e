/** Merging the packets of one day into its partition. */
module Compaction {
  import opened Events
  import opened Encoding
  import opened Visibility
  import opened HotFile

  function Merge(existing: seq<Packet>, added: seq<Packet>): seq<Packet> {
    if existing == [] then added
    else if added == [] then existing
    else if ComparePackets(existing[0], added[0]) == Greater then [added[0]] + Merge(existing, added[1..])
    else [existing[0]] + Merge(existing[1..], added)
  }

  /** The merged partition is sorted and holds exactly the packets of both, with multiplicity. */
  lemma {:induction false} MergeIsSortedUnion(existing: seq<Packet>, added: seq<Packet>)
    requires Sorted(existing) && Sorted(added)
    ensures Sorted(Merge(existing, added))
    ensures multiset(Merge(existing, added)) == multiset(existing) + multiset(added)
  {
    if existing != [] && added != [] {
      hide ComparePackets;
      if ComparePackets(existing[0], added[0]) == Greater {
        MergeIsSortedUnion(existing, added[1..]);
        assert added == [added[0]] + added[1..];
        FirstOfMerge(added[0], existing, added[1..]);
      } else {
        MergeIsSortedUnion(existing[1..], added);
        assert existing == [existing[0]] + existing[1..];
        FirstOfMerge(existing[0], existing[1..], added);
      }
    }
  }

  lemma FirstOfMerge(first: Packet, existing: seq<Packet>, added: seq<Packet>)
    requires Sorted(existing) && Sorted(added)
    requires Sorted(Merge(existing, added)) && multiset(Merge(existing, added)) == multiset(existing) + multiset(added)
    requires existing != [] ==> !Before(existing[0], first)
    requires added != [] ==> !Before(added[0], first)
    ensures Sorted([first] + Merge(existing, added))
  {
    hide Merge;
    var rest := Merge(existing, added);
    forall j | 0 <= j < |rest|
      ensures !Before(rest[j], first)
    {
      assert rest[j] in multiset(rest);
      assert rest[j] in existing || rest[j] in added;
    }
  }

  /** A sorted listing of a multiset of packets is unique, where an id names one packet. */
  lemma {:induction false} SortedIsUnique(a: seq<Packet>, b: seq<Packet>)
    requires Sorted(a) && Sorted(b) && multiset(a) == multiset(b) && IdsDetermine(Elements(a))
    ensures a == b
  {
    SameLength(a, b);
    if a != [] {
      FirstIsUnique(a, b);
      hide Sorted, Before, IdsDetermine;
      SortedTail(a);
      SortedTail(b);
      TailCounts(a, b);
      SortedIsUnique(a[1..], b[1..]);
      assert a == [a[0]] + a[1..] && b == [b[0]] + b[1..];
    }
  }

  lemma SameLength(a: seq<Packet>, b: seq<Packet>)
    requires multiset(a) == multiset(b)
    ensures |a| == |b|
  {
    assert |a| == |multiset(a)| == |multiset(b)| == |b|;
  }

  lemma TailCounts(a: seq<Packet>, b: seq<Packet>)
    requires a != [] && b != [] && a[0] == b[0] && multiset(a) == multiset(b) && IdsDetermine(Elements(a))
    ensures multiset(a[1..]) == multiset(b[1..]) && IdsDetermine(Elements(a[1..]))
  {
    assert a == [a[0]] + a[1..] && b == [b[0]] + b[1..];
    assert multiset(a[1..]) == multiset(a) - multiset{a[0]} == multiset(b[1..]);
    assert Elements(a[1..]) <= Elements(a);
  }

  lemma SortedTail(a: seq<Packet>)
    requires Sorted(a) && a != []
    ensures Sorted(a[1..])
  {
  }

  lemma FirstIsUnique(a: seq<Packet>, b: seq<Packet>)
    requires Sorted(a) && Sorted(b) && multiset(a) == multiset(b) && IdsDetermine(Elements(a)) && a != [] && b != []
    ensures a[0] == b[0]
  {
    assert a[0] in multiset(b) && b[0] in multiset(a);
    var i :| 0 <= i < |b| && b[i] == a[0];
    var j :| 0 <= j < |a| && a[j] == b[0];
    assert !Before(a[0], b[0]) && !Before(b[0], a[0]);
    assert a[0] in Elements(a) && a[j] in Elements(a);
  }

  function Encoded(encode: Packet -> Bytes, s: seq<Packet>): seq<Bytes> {
    seq(|s|, i requires 0 <= i < |s| => encode(s[i]))
  }

  lemma EncodedNext(encode: Packet -> Bytes, s: seq<Packet>, p: Packet)
    ensures Encoded(encode, s + [p]) == Encoded(encode, s) + [encode(p)]
  {
  }

  /** A partition file, its search index and its visibility summary describe the same packets. */
  ghost predicate Describe(partition: Bytes, index: IndexView, summary: Summary, encode: Packet -> Bytes, normalize: Bytes -> Bytes, s: seq<Packet>) {
    && partition == FileOf(Encoded(encode, s))
    && index == IndexOf(Encoded(encode, s), normalize)
    && Summarises(summary, Elements(s))
  }

  /** Rewrites a partition with the packets of its day merged in. The new file, its search index
      and the visibility summary all describe the whole merged partition. */
  method MergePacketsIntoPartition(existing: seq<Packet>, newPackets: seq<Packet>, encode: Packet -> Bytes, normalize: Bytes -> Bytes)
    returns (merged: seq<Packet>, partition: Bytes, searchIndex: SearchIndex, summary: VisibilitySummary)
    ensures merged == Merge(existing, SortPackets(newPackets))
    ensures Describe(partition, searchIndex.View(), summary.View(), encode, normalize, merged)
  {
    hide Describe, MergedSoFar, Merge, SortPackets, ComparePackets, SearchIndex.View, VisibilitySummary.View;
    var added := SortPackets(newPackets);
    merged, partition := [], [];
    searchIndex := new SearchIndex.Empty();
    summary := new VisibilitySummary();
    NothingWritten(summary.View(), encode, normalize);
    var i, j := 0, 0;
    NothingTaken(existing, added);
    while i < |existing| || j < |added|
      invariant i <= |existing| && j <= |added| && MergedSoFar(existing, added, i, j, merged)
      invariant fresh(searchIndex) && fresh(summary)
      invariant Describe(partition, searchIndex.View(), summary.View(), encode, normalize, merged)
      decreases |existing| + |added| - i - j
    {
      var takeNew := TakesNew(existing, added, i, j);
      MergeStep(existing, added, i, j, merged);
      var packet;
      if takeNew {
        packet := added[j];
        j := j + 1;
      } else {
        packet := existing[i];
        i := i + 1;
      }
      partition := WriteMergedPacket(partition, searchIndex, summary, packet, encode, normalize, merged);
      merged := merged + [packet];
    }
    NothingLeft(existing, added, merged);
  }

  /** With packets on both sides the smaller one goes first, an existing one before its equal. */
  predicate TakesNew(existing: seq<Packet>, added: seq<Packet>, i: nat, j: nat)
    requires i <= |existing| && j <= |added|
  {
    if i < |existing| && j < |added| then ComparePackets(existing[i], added[j]) == Greater else i == |existing|
  }

  ghost predicate MergedSoFar(existing: seq<Packet>, added: seq<Packet>, i: nat, j: nat, merged: seq<Packet>)
    requires i <= |existing| && j <= |added|
  {
    merged + Merge(existing[i..], added[j..]) == Merge(existing, added)
  }

  lemma NothingTaken(existing: seq<Packet>, added: seq<Packet>)
    ensures MergedSoFar(existing, added, 0, 0, [])
  {
    assert existing[0..] == existing && added[0..] == added;
  }

  lemma NothingWritten(summary: Summary, encode: Packet -> Bytes, normalize: Bytes -> Bytes)
    requires Summarises(summary, {})
    ensures Describe([], EmptyView, summary, encode, normalize, [])
  {
    assert Elements<Packet>([]) == {};
  }

  lemma NothingLeft(existing: seq<Packet>, added: seq<Packet>, merged: seq<Packet>)
    requires MergedSoFar(existing, added, |existing|, |added|, merged)
    ensures merged == Merge(existing, added)
  {
    assert Merge(existing[|existing|..], added[|added|..]) == [];
  }

  lemma MergeStep(existing: seq<Packet>, added: seq<Packet>, i: nat, j: nat, merged: seq<Packet>)
    requires i <= |existing| && j <= |added| && (i < |existing| || j < |added|) && MergedSoFar(existing, added, i, j, merged)
    ensures if TakesNew(existing, added, i, j) then j < |added| && MergedSoFar(existing, added, i, j + 1, merged + [added[j]])
            else i < |existing| && MergedSoFar(existing, added, i + 1, j, merged + [existing[i]])
  {
    hide ComparePackets;
    var left, right := existing[i..], added[j..];
    assert i < |existing| ==> left == [existing[i]] + existing[i + 1..];
    assert j < |added| ==> right == [added[j]] + added[j + 1..];
    if TakesNew(existing, added, i, j) {
      assert Merge(left, right) == [added[j]] + Merge(left, added[j + 1..]);
    } else {
      assert Merge(left, right) == [existing[i]] + Merge(existing[i + 1..], right);
    }
  }

  method WriteMergedPacket(partition: Bytes, searchIndex: SearchIndex, summary: VisibilitySummary, packet: Packet,
                           encode: Packet -> Bytes, normalize: Bytes -> Bytes, ghost merged: seq<Packet>)
    returns (written: Bytes)
    requires Describe(partition, searchIndex.View(), summary.View(), encode, normalize, merged)
    modifies searchIndex, summary
    ensures Describe(written, searchIndex.View(), summary.View(), encode, normalize, merged + [packet])
  {
    hide Summarises, UpdateHash, Frame, Append;
    EncodedNext(encode, merged, packet);
    ghost var before := Encoded(encode, merged);
    assert (before + [encode(packet)])[..|before|] == before;
    written := partition + Frame(encode(packet));
    searchIndex.AppendToSearchIndex(encode(packet), normalize);
    summary.AddPacket(packet, Elements(merged));
    assert Elements(merged + [packet]) == Elements(merged) + {packet};
  }
}
