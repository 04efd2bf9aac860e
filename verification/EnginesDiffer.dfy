/** A run of the storage after which the two query engines answer one query differently. */
module EnginesDiffer {
  import opened Events
  import opened Answer
  import opened Days
  import opened Encoding
  import opened BatchedSpec
  import opened StreamingQuery
  import opened Visibility
  import opened VisibilityStores
  import opened StorageRuns
  import P = CompactionProtocol

  /** A deletion of the same second in which the author of a packet names it by its id. */
  function DeletionOf(p: Packet): Packet {
    var tag := [TextElement([101]), TextElement(HexOf(Be(32, p.id)))];
    Packet(p.createdAt, if p.id == 0 then 1 else 0, p.pubkey, DELETION_KIND, [tag], [])
  }

  lemma DeletionHides(p: Packet)
    requires p.kind != DELETION_KIND
    ensures Hides(DeletionOf(p), p)
  {
    PubkeyRoundTrip(p.id);
    hide HexOf, Be, HexTo32;
    var h := DeletionOf(p);
    assert TagId(h.tags[0]) == Some(p.id);
    assert DeletesId(h, p.id);
  }

  // ----- the run -----

  predicate Reaches(steps: seq<P.Step>, s: P.State) {
    P.After(P.Start, steps) == Some(s)
  }

  lemma Then(steps: seq<P.Step>, s: P.State, step: P.Step, t: P.State) returns (more: seq<P.Step>)
    requires Reaches(steps, s) && P.Next(s, step) == Some(t)
    ensures Reaches(more, t)
  {
    more := steps + [step];
    assert more[..|more| - 1] == steps;
  }

  function WithJob(s: P.State, day: U64, step: P.DayStep): P.State {
    s.(job := Some(P.Job(0, 1, map[day := step], false, map[])))
  }

  /** Both packets are appended and the hot file is handed over to one worker. */
  lemma FileIsRotated(p: Packet, h: Packet) returns (steps: seq<P.Step>)
    requires p.id != h.id && UnixDay(h) == UnixDay(p)
    ensures Reaches(steps, WithJob(Rotated(p, h), UnixDay(p), P.Waiting))
  {
    var s1 := P.State({p}, [p], map[], [], map[], {}, None, P.Opened, P.Idle);
    var s2 := s1.(appended := {p, h}, hot := [p, h]);
    assert Reaches([], P.Start);
    hide Reaches, UnixDay;
    assert [] + [p] == [p] && {} + {p} == {p} && [p] + [h] == [p, h] && {p} + {h} == {p, h};
    steps := Then([], P.Start, P.Append(p), s1);
    steps := Then(steps, s1, P.Append(h), s2);
    steps := HotIsRotated(steps, s2, p, h);
  }

  function Rotated(p: Packet, h: Packet): P.State {
    P.State({p, h}, [], map[0 := [p, h]], [0], map[], {}, None, P.Opened, P.Idle)
  }

  lemma HotIsRotated(before: seq<P.Step>, s: P.State, p: Packet, h: Packet) returns (steps: seq<P.Step>)
    requires Reaches(before, s) && s == P.State({p, h}, [p, h], map[], [], map[], {}, None, P.Opened, P.Idle) && UnixDay(h) == UnixDay(p)
    ensures Reaches(steps, WithJob(Rotated(p, h), UnixDay(p), P.Waiting))
  {
    hide Reaches, UnixDay;
    var day := UnixDay(p);
    assert DaysIn([p, h]) == {day} by {
      assert [p, h][0] == p && [p, h][1] == h;
    }
    hide DaysIn;
    assert (map d | d in DaysIn([p, h]) :: P.Waiting) == map[day := P.Waiting];
    assert P.NewJob(s, 0, [p, h], 1) == P.Job(0, 1, map[day := P.Waiting], false, map[]);
    hide P.NewJob;
    assert map[][0 as nat := [p, h]] == map[0 := [p, h]] && [] + [0 as nat] == [0];
    steps := Then(before, s, P.Rotate(0, 1), WithJob(Rotated(p, h), day, P.Waiting));
  }

  /** The worker merges the day, and the file is removed. */
  lemma FileIsMerged(p: Packet, h: Packet) returns (steps: seq<P.Step>, merged: seq<Packet>)
    requires p.id != h.id && UnixDay(h) == UnixDay(p)
    ensures Elements(merged) == {p, h}
    ensures Reaches(steps, P.State({p, h}, [], map[], [], map[UnixDay(p) := merged], {p, h}, None, P.Opened, P.Idle))
  {
    steps := FileIsRotated(p, h);
    var day := UnixDay(p);
    merged := P.MergedDay(map[], [p, h], day);
    P.MergedDayFacts(map[], [p, h], day);
    assert Elements(merged) == {p, h};
    hide Reaches, UnixDay, P.MergedDay;
    steps := DayIsTaken(steps, p, h, day, merged);
    steps := DayIsReplaced(steps, p, h, day, merged);
    var s := Rotated(p, h).(partitions := map[day := merged], summarised := {p, h});
    steps := FileIsRemoved(steps, WithJob(s, day, P.Summarised), day);
  }

  lemma DayIsTaken(before: seq<P.Step>, p: Packet, h: Packet, day: U64, merged: seq<Packet>) returns (steps: seq<P.Step>)
    requires Reaches(before, WithJob(Rotated(p, h), day, P.Waiting)) && merged == P.MergedDay(map[], [p, h], day)
    ensures Reaches(steps, WithJob(Rotated(p, h), day, P.Merging(merged)))
  {
    hide Reaches, P.MergedDay;
    var s := WithJob(Rotated(p, h), day, P.Waiting);
    assert P.Active(s.job.value) == {};
    hide P.Active;
    assert map[day := P.Waiting][day := P.Merging(merged)] == map[day := P.Merging(merged)];
    steps := Then(before, s, P.Take(day), WithJob(Rotated(p, h), day, P.Merging(merged)));
  }

  lemma DayIsReplaced(before: seq<P.Step>, p: Packet, h: Packet, day: U64, merged: seq<Packet>) returns (steps: seq<P.Step>)
    requires Reaches(before, WithJob(Rotated(p, h), day, P.Merging(merged))) && Elements(merged) == {p, h}
    ensures Reaches(steps, WithJob(Rotated(p, h).(partitions := map[day := merged], summarised := {p, h}), day, P.Summarised))
  {
    hide Reaches, Elements;
    var s, t := WithJob(Rotated(p, h), day, P.Merging(merged)), WithJob(Rotated(p, h).(partitions := map[day := merged]), day, P.Replaced(merged));
    assert map[day := P.Merging(merged)][day := P.Replaced(merged)] == map[day := P.Replaced(merged)];
    assert map[][day := merged] == map[day := merged];
    steps := Then(before, s, P.Replace(day), t);
    assert map[day := P.Replaced(merged)][day := P.Summarised] == map[day := P.Summarised];
    assert {} + Elements(merged) == {p, h};
    steps := Then(steps, t, P.Summarise(day), WithJob(Rotated(p, h).(partitions := map[day := merged], summarised := {p, h}), day, P.Summarised));
  }

  lemma FileIsRemoved(before: seq<P.Step>, s: P.State, day: U64) returns (steps: seq<P.Step>)
    requires Reaches(before, s) && s.mode == P.Opened && s.listed == [0] && s.files.Keys == {0}
    requires s.job == Some(P.Job(0, 1, map[day := P.Summarised], false, map[]))
    ensures Reaches(steps, s.(listed := [], files := map[], job := None))
  {
    hide Reaches;
    var unlisted := s.(listed := [], job := Some(s.job.value.(unlisted := true)));
    assert Retain(OtherThan(0 as nat), [0 as nat]) == [];
    steps := Then(before, s, P.Unlist, unlisted);
    assert s.files - {0} == map[];
    steps := Then(steps, unlisted, P.RemoveFile, s.(listed := [], files := map[], job := None));
  }

  /** A query begins then, finds no hot packet and reads the one partition. */
  lemma PartitionIsRead(p: Packet, h: Packet) returns (steps: seq<P.Step>, s: P.State)
    requires p.id != h.id && UnixDay(h) == UnixDay(p)
    ensures Reaches(steps, s) && s.summarised == {p, h} && s.query.Reading? && s.query.base == {p, h} && s.query.snapshot == []
    ensures 0 in s.query.readers && s.query.readers[0].days == {UnixDay(p)} && s.query.readers[0].read.Keys == {UnixDay(p)}
    ensures Elements(s.query.readers[0].read[UnixDay(p)]) == {p, h}
  {
    var merged;
    steps, merged := FileIsMerged(p, h);
    var day := UnixDay(p);
    hide Reaches, UnixDay;
    s := P.State({p, h}, [], map[], [], map[day := merged], {p, h}, None, P.Opened, P.Idle);
    var t := s.(query := P.HotRead({p, h}, []));
    steps := Then(steps, s, P.QueryBegin, t);
    steps := Then(steps, t, P.QueryList, s.(query := P.Gathering({p, h}, [], [])));
    steps := Then(steps, s.(query := P.Gathering({p, h}, [], [])), P.QueryUnlock, s.(query := P.Reading({p, h}, [], map[])));
    var listed := P.Reader({day}, map[], map[]);
    assert s.partitions.Keys == {day};
    t := s.(query := P.Reading({p, h}, [], map[0 := listed]));
    assert map[][0 as nat := listed] == map[0 := listed];
    steps := Then(steps, s.(query := P.Reading({p, h}, [], map[])), P.QueryListDays(0), t);
    var read := P.ReadDay(t, listed, day);
    s := t.(query := P.Reading({p, h}, [], map[0 := listed][0 := read]));
    steps := Then(steps, t, P.QueryReadDay(0, day), s);
  }

  // ----- the difference -----

  /** For every packet that is no deletion there is a run after which the engines differ: the packet
      and a deletion of it are compacted, so the store hides the packet. For a filter that asks for
      the id of the packet, and for any hot lookup and any address hash, the batched engine sends
      the packet and streaming sends nothing. */
  lemma EnginesCanDiffer(p: Packet, lookup: Lookup, hash: Bytes -> Digest, index: Summary, store: Summary)
    returns (steps: seq<P.Step>, src: Source, f: Filter)
    requires p.kind != DELETION_KIND
    requires Summarises(index, {}) && Summarises(store, {p, DeletionOf(p)})
    ensures P.After(P.Start, steps).Some?
    ensures var s := P.After(P.Start, steps).value;
      IsSourceOf(src, s, 0) && HasReadFor(s, 0, f) && Elements(s.query.snapshot) == {} && s.summarised == s.query.base == {p, DeletionOf(p)}
    ensures forall q :: src.hotVisible(q) == IndexVisible(index, q) && src.storeVisible(q) == StoreVisible(hash, store, q)
    ensures f == Filter(None, None, None, None, None, None, [], []).(ids := Some([p.id]))
    ensures Lists([p], Target(src, [f])) && Lists([], StreamTarget(lookup, AsksOf(src, [f])))
  {
    var h := DeletionOf(p);
    DeletionHides(p);
    var s;
    steps, s := PartitionIsRead(p, h);
    f := Filter(None, None, None, None, None, None, [], []).(ids := Some([p.id]));
    src := Source([], s.query.readers[0].read, q => IndexVisible(index, q), q => StoreVisible(hash, store, q), (_, _) => true);
    StoreHides(hash, store, {p, h}, h, p);
    hide Hides, StoreVisible, IndexVisible, Summarises, DeletionOf, P.After;
    HiddenAnswerDiffers(src, lookup, f, p, h, UnixDay(p));
  }

  lemma HiddenAnswerDiffers(src: Source, lookup: Lookup, f: Filter, p: Packet, h: Packet, day: U64)
    requires src.hot == [] && src.partitions.Keys == {day} && Elements(src.partitions[day]) == {p, h} && p.id != h.id
    requires f == Filter(None, None, None, None, None, None, [], []).(ids := Some([p.id])) && !src.storeVisible(p)
    ensures Lists([p], Target(src, [f])) && Lists([], StreamTarget(lookup, AsksOf(src, [f])))
  {
    forall q
      ensures q in src.All() <==> q == p || q == h
    {
      assert q in src.partitions[day] <==> q in Elements(src.partitions[day]);
    }
    assert Wanted(src, f) == {p};
    assert Cut(Wanted(src, f), f.limit) == {p};
    assert f in [f] && Target(src, [f]) == {p};
    StreamedIsWanted(src, lookup, f);
    assert StreamTarget(lookup, AsksOf(src, [f])) == {};
  }

  lemma StreamedIsWanted(src: Source, lookup: Lookup, f: Filter)
    requires f.terms == []
    ensures forall q :: q in StreamTarget(lookup, AsksOf(src, [f])) ==> q in Wanted(src, f) && (q in src.hot || src.storeVisible(q))
  {
    forall q | q in StreamTarget(lookup, AsksOf(src, [f]))
      ensures q in Wanted(src, f) && (q in src.hot || src.storeVisible(q))
    {
      StreamedIsShown(src, lookup, [f], q);
    }
  }
}
