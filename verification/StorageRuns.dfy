/** What every run of the storage keeps, and what a query finds in it. */
module StorageRuns {
  import opened Events
  import opened Days
  import opened Answer
  import opened BatchedSpec
  import opened StreamingQuery
  import opened Visibility
  import opened VisibilityStores
  import opened Compaction
  import P = CompactionProtocol

  // ----- conservation -----

  ghost predicate Stored(s: P.State, p: Packet) {
    || p in s.hot
    || (exists file :: file in s.files && p in s.files[file])
    || p in PartitionOf(s.partitions, UnixDay(p))
  }

  /** In every state of every run, crashes and failures included, exactly the appended packets
      are stored, and every partition is sorted and holds its own day only. */
  lemma EveryRunConserves(steps: seq<P.Step>)
    requires P.After(P.Start, steps).Some?
    ensures var s := P.After(P.Start, steps).value;
      && (forall p :: Stored(s, p) <==> p in s.appended)
      && (forall day :: day in s.partitions ==> Sorted(s.partitions[day]) && forall p :: p in s.partitions[day] ==> UnixDay(p) == day)
      && P.PartitionsAccounted(s)
  {
    P.RunsKeepInvariant(steps);
    hide P.After, P.JobFollows, P.QueryMissesNothing;
    var s := P.After(P.Start, steps).value;
    forall p
      ensures Stored(s, p) <==> p in s.appended
    {
      if p in s.appended {
        assert P.Covered(s, p);
      }
    }
  }

  // ----- the result of a compaction -----

  /** Once all days are summarised, every partition is the old one with the day's packets of the
      file merged in: the workers' number and order do not show. */
  lemma ScheduleDoesNotShow(s: P.State, t: P.State, day: U64)
    requires P.Inv(s) && P.Inv(t) && s.job.Some? && t.job.Some?
    requires P.AllSummarised(s.job.value) && P.AllSummarised(t.job.value)
    requires s.job.value.base == t.job.value.base
    requires s.files[s.job.value.file] == t.files[t.job.value.file]
    ensures PartitionOf(s.partitions, day) == PartitionOf(t.partitions, day)
    ensures day in s.job.value.days ==>
      PartitionOf(s.partitions, day) == P.MergedDay(s.job.value.base, s.files[s.job.value.file], day)
  {
    hide PartitionOf, P.MergedDay, P.QueryMissesNothing, P.NothingLost, P.NothingInvented, P.PartitionsInOrder, P.PartitionsAccounted;
    assert P.DayFollows(s, s.job.value, s.files[s.job.value.file], day);
    assert P.DayFollows(t, t.job.value, t.files[t.job.value.file], day);
  }

  lemma {:induction false} OnDayCounts(s: seq<Packet>, day: U64, p: Packet)
    ensures multiset(OnDay(s, day))[p] == if UnixDay(p) == day then multiset(s)[p] else 0
  {
    if s != [] {
      OnDayCounts(s[..|s| - 1], day, p);
      assert s == s[..|s| - 1] + [s[|s| - 1]];
    }
  }

  /** The merged partition holds what was there and the day's packets of the file, as often as both do. */
  lemma MergedDayCounts(base: map<U64, seq<Packet>>, packets: seq<Packet>, p: Packet)
    requires P.PartitionsInOrder(base)
    ensures var day := UnixDay(p);
      multiset(P.MergedDay(base, packets, day))[p] == multiset(PartitionOf(base, day))[p] + multiset(packets)[p]
  {
    hide Merge, SortPackets, OnDay;
    var day := UnixDay(p);
    OnDayCounts(packets, day, p);
    MergeIsSortedUnion(PartitionOf(base, day), SortPackets(OnDay(packets, day)));
  }

  /** The order in which the packets were appended does not show either. */
  lemma AppendOrderDoesNotShow(base: map<U64, seq<Packet>>, a: seq<Packet>, b: seq<Packet>, day: U64)
    requires P.PartitionsInOrder(base) && multiset(a) == multiset(b)
    requires IdsDetermine(Elements(PartitionOf(base, day)) + Elements(a))
    ensures P.MergedDay(base, a, day) == P.MergedDay(base, b, day)
  {
    var existing := PartitionOf(base, day);
    var x, y := OnDay(a, day), OnDay(b, day);
    forall p
      ensures multiset(x)[p] == multiset(y)[p]
    {
      OnDayCounts(a, day, p);
      OnDayCounts(b, day, p);
    }
    assert multiset(x) == multiset(y);
    hide Merge, SortPackets, OnDay;
    MergeIsSortedUnion(existing, SortPackets(x));
    MergeIsSortedUnion(existing, SortPackets(y));
    P.MergedDayFacts(base, a, day);
    forall p, q | p in P.MergedDay(base, a, day) && q in P.MergedDay(base, a, day) && p.id == q.id
      ensures p == q
    {
    }
    SortedIsUnique(P.MergedDay(base, a, day), P.MergedDay(base, b, day));
  }

  /** While no day has failed, a compaction that is not done has a worker that can go on. */
  lemma NoWorkerIsStuck(s: P.State)
    requires P.Inv(s) && s.job.Some? && !P.AllSummarised(s.job.value)
    requires forall day :: day in s.job.value.days ==> s.job.value.days[day] != P.Failed
    ensures exists step :: OfWorker(step) && P.WorkerStep(s, step).Some?
  {
    hide P.NothingLost, P.NothingInvented, P.PartitionsInOrder, P.PartitionsAccounted, P.QueryMissesNothing, P.DayFollows, P.MergedDay;
    var job := s.job.value;
    var day :| day in job.days && job.days[day] != P.Summarised;
    if job.days[day].Merging? {
      assert OfWorker(P.Replace(day)) && P.WorkerStep(s, P.Replace(day)).Some?;
    } else if job.days[day].Replaced? {
      assert OfWorker(P.Summarise(day)) && P.WorkerStep(s, P.Summarise(day)).Some?;
    } else if P.Active(job) == {} {
      assert OfWorker(P.Take(day)) && P.WorkerStep(s, P.Take(day)).Some?;
    } else {
      var other :| other in P.Active(job);
      var step := if job.days[other].Merging? then P.Replace(other) else P.Summarise(other);
      assert OfWorker(step) && P.WorkerStep(s, step).Some?;
    }
  }

  // ----- runs without failures -----

  predicate FailureFree(step: P.Step) {
    !step.FailDay? && !step.FailJob? && !step.KeepFile? && !step.Crash?
  }

  function Appends(steps: seq<P.Step>): multiset<Packet> {
    if steps == [] then multiset{}
    else
      var last := steps[|steps| - 1];
      Appends(steps[..|steps| - 1]) + (if last.Append? then multiset{last.p} else multiset{})
  }

  /** What of the file being compacted has not reached its partition yet. */
  function Pending(s: P.State, p: Packet): nat {
    if s.job.None? || s.job.value.file !in s.files || UnixDay(p) !in s.job.value.days then 0
    else
      match s.job.value.days[UnixDay(p)]
      case Waiting => multiset(s.files[s.job.value.file])[p]
      case Merging(_) => multiset(s.files[s.job.value.file])[p]
      case _ => 0
  }

  function Copies(s: P.State, p: Packet): nat {
    multiset(s.hot)[p] + Pending(s, p) + multiset(PartitionOf(s.partitions, UnixDay(p)))[p]
  }

  ghost predicate Undisturbed(s: P.State) {
    && s.mode == P.Opened
    && (if s.job.None? then s.files == map[] else s.files.Keys == {s.job.value.file})
  }

  predicate OfWorker(step: P.Step) {
    step.Take? || step.Replace? || step.Summarise?
  }

  lemma WorkerKeepsCopies(s: P.State, step: P.Step, p: Packet)
    requires P.Inv(s) && OfWorker(step) && P.Next(s, step).Some?
    ensures Copies(P.Next(s, step).value, p) == Copies(s, p)
  {
    hide P.NothingLost, P.NothingInvented, P.PartitionsAccounted, P.QueryMissesNothing, P.MergedDay, P.PartitionsInOrder, P.Active;
    var t, day := P.Next(s, step).value, UnixDay(p);
    var job := s.job.value;
    var packets := s.files[job.file];
    assert P.DayFollows(s, job, packets, day);
    MergedDayCounts(job.base, packets, p);
  }

  lemma OwnerKeepsCopies(s: P.State, step: P.Step, p: Packet)
    requires P.Inv(s) && Undisturbed(s) && (step.Rotate? || step.Unlist? || step.RemoveFile?) && P.Next(s, step).Some?
    ensures Undisturbed(P.Next(s, step).value) && Copies(P.Next(s, step).value, p) == Copies(s, p)
  {
    hide P.NothingLost, P.NothingInvented, P.PartitionsInOrder, P.PartitionsAccounted, P.QueryMissesNothing, P.MergedDay, PartitionOf,
         P.DayFollows, P.Active;
    var t := P.Next(s, step).value;
    if step.Rotate? {
      if p in s.hot {
        var i :| 0 <= i < |s.hot| && s.hot[i] == p;
        assert UnixDay(p) in DaysIn(s.hot);
      }
      assert t.files.Keys == {step.file};
    } else if step.RemoveFile? {
      assert t.files == map[];
    }
    if s.job.Some? && p in s.files[s.job.value.file] {
      var packets := s.files[s.job.value.file];
      var i :| 0 <= i < |packets| && packets[i] == p;
      assert UnixDay(p) in DaysIn(packets);
    }
  }

  lemma FailureFreeNext(s: P.State, step: P.Step, p: Packet)
    requires P.Inv(s) && Undisturbed(s) && FailureFree(step) && P.Next(s, step).Some?
    ensures var t := P.Next(s, step).value;
      Undisturbed(t) && Copies(t, p) == Copies(s, p) + (if step == P.Append(p) then 1 else 0)
  {
    hide P.Inv, P.MergedDay, P.NewJob, P.Active, P.LockHeld, P.AllSummarised, PartitionOf;
    if OfWorker(step) {
      WorkerKeepsCopies(s, step, p);
    } else if step.Rotate? || step.Unlist? || step.RemoveFile? {
      OwnerKeepsCopies(s, step, p);
    }
  }

  /** Without failures and crashes, every packet is stored as often as it was appended. */
  lemma {:induction false} FailureFreeRunsKeepCopies(steps: seq<P.Step>, p: Packet)
    requires P.After(P.Start, steps).Some? && forall i :: 0 <= i < |steps| ==> FailureFree(steps[i])
    ensures Undisturbed(P.After(P.Start, steps).value)
    ensures Copies(P.After(P.Start, steps).value, p) == Appends(steps)[p]
  {
    if steps != [] {
      var init, last := steps[..|steps| - 1], steps[|steps| - 1];
      FailureFreeRunsKeepCopies(init, p);
      P.RunsKeepInvariant(init);
      hide P.Inv, P.Next, Copies, Undisturbed, FailureFree;
      FailureFreeNext(P.After(P.Start, init).value, last, p);
    }
  }

  // ----- what a query finds -----

  predicate HasReader(s: P.State, r: nat) {
    s.query.Reading? && r in s.query.readers
  }

  /** The reader has read every partition it listed that the filter's time range overlaps. */
  predicate HasReadFor(s: P.State, r: nat, f: Filter) {
    && HasReader(s, r)
    && forall day :: day in s.query.readers[r].days && DayOverlapsFilter(day, f) ==> day in s.query.readers[r].read
  }

  /** What a reader of the query works on: the packets the query snapshotted and the partition
      versions this reader read. */
  predicate IsSourceOf(src: Source, s: P.State, r: nat) {
    HasReader(s, r) && src.hot == s.query.snapshot && src.partitions == s.query.readers[r].read
  }

  /** Nothing appended before the query began is missed, whatever was compacted meanwhile: a
      reader that has read for a filter has all that matches it. */
  lemma NoEventMissed(steps: seq<P.Step>, r: nat, src: Source, f: Filter)
    requires P.After(P.Start, steps).Some? && IsSourceOf(src, P.After(P.Start, steps).value, r)
    ensures src.Valid() && src.All() <= P.After(P.Start, steps).value.appended
    ensures HasReadFor(P.After(P.Start, steps).value, r, f) ==>
      forall p :: p in P.After(P.Start, steps).value.query.base && MatchesWithoutSearch(f, p) ==>
        p in src.All() && (f.terms == [] ==> p in Wanted(src, f))
  {
    P.RunsKeepInvariant(steps);
    hide P.After, MatchesWithoutSearch, P.NothingLost, P.JobFollows, P.PartitionsAccounted, DayOverlapsFilter, P.Settled;
    var s := P.After(P.Start, steps).value;
    var reader := s.query.readers[r];
    assert P.ReaderFollows(s, reader);
    forall p | p in src.All()
      ensures p in s.appended
    {
      if p !in src.hot {
        var day :| day in src.partitions && p in src.partitions[day];
        assert p in Elements(reader.read[day]);
      } else {
        assert p in Elements(s.query.snapshot);
      }
    }
    forall p | p in s.query.base && MatchesWithoutSearch(f, p) && HasReadFor(s, r, f)
      ensures p in src.All()
    {
      PruningIsSound(f, p);
      assert p in s.query.snapshot || P.FoundBy(reader, p);
    }
  }

  /** The readers of one query may read different versions of a day; together they still read
      what a streamed query needs: packets of which an id names one. */
  lemma ReadersAgreeOnIds(steps: seq<P.Step>, asks: seq<Ask>)
    requires P.After(P.Start, steps).Some?
    requires forall j :: 0 <= j < |asks| ==> IsSourceOf(asks[j].src, P.After(P.Start, steps).value, j)
    ensures AsksValid(asks)
  {
    var s := P.After(P.Start, steps).value;
    forall j | 0 <= j < |asks|
      ensures asks[j].src.Valid() && asks[j].src.All() <= s.appended
    {
      NoEventMissed(steps, j, asks[j].src, asks[j].filter);
    }
    assert IdsDetermine(s.appended) by {
      P.RunsKeepInvariant(steps);
    }
    hide P.After, IsSourceOf;
    assert AllRead(asks) <= s.appended;
  }

  lemma StoreOnlyGrows(s: P.State, step: P.Step)
    requires P.Next(s, step).Some?
    ensures s.summarised <= P.Next(s, step).value.summarised
  {
    hide P.MergedDay, Retain;
  }

  /** A packet read from a partition is hidden if something appended before the query began hides
      it: its hider is in the hot index or in the store, whenever the store is asked. `later` is
      what the store holds at the moment it is asked about this packet. */
  lemma NoVisibilityGap(steps: seq<P.Step>, r: nat, hash: Bytes -> Digest, index: Summary, store: Summary, later: set<Packet>, h: Packet, p: Packet, day: U64)
    requires P.After(P.Start, steps).Some? && HasReader(P.After(P.Start, steps).value, r)
    requires var q := P.After(P.Start, steps).value.query;
      var reader := q.readers[r];
      && h in q.base && day in reader.read && day in reader.held && p in reader.read[day]
      && Summarises(index, Elements(q.snapshot)) && reader.held[day] <= later && Summarises(store, later)
    requires Hides(h, p)
    ensures !IndexVisible(index, p) || !StoreVisible(hash, store, p)
  {
    P.RunsKeepInvariant(steps);
    hide P.After, Summarises, IndexVisible, StoreVisible, Hides, P.NothingLost, P.JobFollows, P.PartitionsAccounted;
    var s := P.After(P.Start, steps).value;
    var q := s.query;
    if h in q.snapshot {
      IndexHides(index, Elements(q.snapshot), h, p);
    } else {
      assert P.FoundBy(q.readers[r], h);
      StoreHides(hash, store, later, h, p);
    }
  }

  /** So no engine answers a search filter with a partition packet that something appended before
      the query began hides. */
  lemma HiddenIsNotAnswered(steps: seq<P.Step>, r: nat, src: Source, lookup: Lookup, f: Filter,
                            hash: Bytes -> Digest, index: Summary, store: Summary, later: set<Packet>, h: Packet, p: Packet)
    requires P.After(P.Start, steps).Some? && IsSourceOf(src, P.After(P.Start, steps).value, r)
    requires var q := P.After(P.Start, steps).value.query;
      var reader := q.readers[r];
      && h in q.base && UnixDay(p) in reader.held && reader.held[UnixDay(p)] <= later
      && Summarises(index, Elements(q.snapshot)) && Summarises(store, later)
    requires p in src.All() && p !in src.hot && Hides(h, p) && f.terms != []
    requires src.hotVisible(p) == IndexVisible(index, p) && src.storeVisible(p) == StoreVisible(hash, store, p)
    ensures p !in Wanted(src, f) && p !in StreamWanted(src, lookup, f)
  {
    NoEventMissed(steps, r, src, f);
    hide P.After, Summarises, IndexVisible, StoreVisible, Hides, MatchesWithoutSearch;
    var day :| day in src.partitions && p in src.partitions[day];
    NoVisibilityGap(steps, r, hash, index, store, later, h, p, day);
  }
}
