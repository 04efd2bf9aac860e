/** One worker compacting a rotated hot file: every day of it is merged into its partition and the
    summary of the merged partition into the visibility store. */
module CompactHotFiles {
  import opened Events
  import opened Encoding
  import opened Days
  import opened HotFile
  import opened Visibility
  import opened VisibilityStores
  import opened Compaction
  import P = CompactionProtocol

  /** Merges one day; afterwards the store holds the summary of the whole partition too. */
  method MergeDay(existing: seq<Packet>, newPackets: seq<Packet>, store: VisibilityStore, encode: Packet -> Bytes, normalize: Bytes -> Bytes,
                  ghost summarised: set<Packet>)
    returns (merged: seq<Packet>, partition: Bytes, searchIndex: SearchIndex)
    requires store.Valid() && Summarises(store.held, summarised)
    modifies store
    ensures merged == Merge(existing, SortPackets(newPackets))
    ensures partition == FileOf(Encoded(encode, merged)) && searchIndex.View() == IndexOf(Encoded(encode, merged), normalize)
    ensures store.Valid() && Summarises(store.held, summarised + Elements(merged))
  {
    hide Summarises, VisibilityStore.Valid, KeysAreWellFormed, MergeSummaries, Merge, FileOf, IndexOf;
    var summary;
    merged, partition, searchIndex, summary := MergePacketsIntoPartition(existing, newPackets, encode, normalize);
    SummaryKeysAreWellFormed(summary.View(), Elements(merged));
    MergeSummarisesUnion(store.held, summary.View(), summarised, Elements(merged));
    store.MergeSummary(Summary(summary.replaceableWinners, summary.deletedIds, summary.deletedAddresses));
  }

  /** The packets of the days that have been merged. */
  function MergedDays(partitions: map<U64, seq<Packet>>, packets: seq<Packet>, days: set<U64>): set<Packet> {
    set day, p | day in days && p in P.MergedDay(partitions, packets, day) :: p
  }

  /** The partitions of the days done are merged, the others stay. */
  ghost predicate HasMerged(partitions: map<U64, seq<Packet>>, packets: seq<Packet>, done: set<U64>, updated: map<U64, seq<Packet>>) {
    && updated.Keys == partitions.Keys + done
    && (forall day :: day in done ==> updated[day] == P.MergedDay(partitions, packets, day))
    && (forall day :: day in partitions && day !in done ==> updated[day] == partitions[day])
  }

  /** The store holds the summary of what it held before and of the merged days. */
  ghost predicate Told(store: VisibilityStore, summarised: set<Packet>, merged: set<Packet>)
    reads store
  {
    store.Valid() && Summarises(store.held, summarised + merged)
  }

  method MergeJob(partitions: map<U64, seq<Packet>>, packets: seq<Packet>, ghost done: set<U64>, day: U64, newPackets: seq<Packet>,
                  before: map<U64, seq<Packet>>, store: VisibilityStore,
                  encode: Packet -> Bytes, normalize: Bytes -> Bytes, ghost summarised: set<Packet>)
    returns (updated: map<U64, seq<Packet>>)
    requires Told(store, summarised, MergedDays(partitions, packets, done))
    requires HasMerged(partitions, packets, done, before) && day !in done && newPackets == OnDay(packets, day)
    modifies store
    ensures HasMerged(partitions, packets, done + {day}, updated)
    ensures Told(store, summarised, MergedDays(partitions, packets, done + {day}))
  {
    hide Summarises, VisibilityStore.Valid, MergedDays, Merge, SortPackets, OnDay, HasMerged, FileOf, IndexOf;
    ghost var held := summarised + MergedDays(partitions, packets, done);
    AnotherDay(partitions, before, packets, done, day);
    var merged, partition, searchIndex := MergeDay(PartitionOf(before, day), newPackets, store, encode, normalize, held);
    assert held + Elements(merged) == summarised + MergedDays(partitions, packets, done + {day});
    updated := before[day := merged];
  }

  /** Takes the days of the file in any order. Each of its partitions ends as the old one with the
      day's packets merged in, the others stay, and the store has been told of all of them. */
  method CompactHotFile(partitions: map<U64, seq<Packet>>, packets: seq<Packet>, store: VisibilityStore,
                        encode: Packet -> Bytes, normalize: Bytes -> Bytes, ghost summarised: set<Packet>)
    returns (updated: map<U64, seq<Packet>>)
    requires store.Valid() && Summarises(store.held, summarised)
    modifies store
    ensures HasMerged(partitions, packets, DaysIn(packets), updated)
    ensures Told(store, summarised, MergedDays(partitions, packets, DaysIn(packets)))
  {
    hide Summarises, VisibilityStore.Valid, MergedDays, OnDay, HasMerged, DaysIn;
    var packetsByDay := GroupByDay(packets);
    updated := partitions;
    var jobs := packetsByDay.Keys;
    ghost var done: set<U64> := {};
    NothingMerged(partitions, packets);
    assert summarised + {} == summarised;
    while jobs != {}
      invariant jobs <= packetsByDay.Keys && done == packetsByDay.Keys - jobs
      invariant HasMerged(partitions, packets, done, updated)
      invariant Told(store, summarised, MergedDays(partitions, packets, done))
      decreases |jobs|
    {
      var day :| day in jobs;
      updated := MergeJob(partitions, packets, done, day, packetsByDay[day], updated, store, encode, normalize, summarised);
      jobs, done := jobs - {day}, done + {day};
    }
    assert done == DaysIn(packets);
  }

  lemma NothingMerged(partitions: map<U64, seq<Packet>>, packets: seq<Packet>)
    ensures MergedDays(partitions, packets, {}) == {} && HasMerged(partitions, packets, {}, partitions)
  {
  }

  lemma AnotherDay(partitions: map<U64, seq<Packet>>, updated: map<U64, seq<Packet>>, packets: seq<Packet>, done: set<U64>, day: U64)
    requires HasMerged(partitions, packets, done, updated) && day !in done
    ensures var merged := Merge(PartitionOf(updated, day), SortPackets(OnDay(packets, day)));
      && HasMerged(partitions, packets, done + {day}, updated[day := merged])
      && MergedDays(partitions, packets, done + {day}) == MergedDays(partitions, packets, done) + Elements(merged)
  {
    hide Merge, SortPackets, OnDay;
    assert PartitionOf(updated, day) == PartitionOf(partitions, day);
    assert P.MergedDay(partitions, packets, day) == Merge(PartitionOf(updated, day), SortPackets(OnDay(packets, day)));
  }
}
