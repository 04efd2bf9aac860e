/** Appends, rotation, the merges of one compaction by parallel workers, removal of the compacted
    file, failures, crashes and recovery, interleaved with the reads of a query. */
module CompactionProtocol {
  import opened Events
  import opened Answer
  import opened Days
  import opened Compaction

  /** How far one day of the file being compacted has come. */
  datatype DayStep = Waiting | Merging(merged: seq<Packet>) | Replaced(merged: seq<Packet>) | Summarised | Failed

  /** A compaction of one file; `base` remembers the partitions it started from. */
  datatype Job = Job(file: nat, workers: nat, days: map<U64, DayStep>, unlisted: bool, base: map<U64, seq<Packet>>)

  datatype Mode = Opened | Recovering | Down

  /** What reads the partitions: `days` are those it listed, `read` the version it read of a day,
      and `held` remembers what the store held when it read that day. */
  datatype Reader = Reader(days: set<U64>, read: map<U64, seq<Packet>>, held: map<U64, set<Packet>>)

  /** A query between its steps; `base` remembers what had been appended when it began. The
      batched engine has one reader, the streaming engine one for each filter. */
  datatype Query =
    | Idle
    | HotRead(base: set<Packet>, gathered: seq<Packet>)
    | Gathering(base: set<Packet>, gathered: seq<Packet>, paths: seq<nat>)
    | Reading(base: set<Packet>, snapshot: seq<Packet>, readers: map<nat, Reader>)

  /** `files` are the compacting files on disk, `listed` the paths the process knows of,
      `summarised` the packets whose summary the visibility store holds. */
  datatype State = State(
    appended: set<Packet>,
    hot: seq<Packet>,
    files: map<nat, seq<Packet>>,
    listed: seq<nat>,
    partitions: map<U64, seq<Packet>>,
    summarised: set<Packet>,
    job: Option<Job>,
    mode: Mode,
    query: Query
  )

  datatype Step =
    | Append(p: Packet)
    | Rotate(file: nat, workers: nat)
    | Take(day: U64)
    | Replace(day: U64)
    | Summarise(day: U64)
    | FailDay(day: U64)
    | FailJob
    | Unlist
    | RemoveFile
    | KeepFile
    | Crash
    | Restart
    | Recover(file: nat, workers: nat)
    | Serve
    | QueryBegin
    | QueryList
    | QueryReadFile
    | QueryUnlock
    | QueryListDays(reader: nat)
    | QueryReadDay(reader: nat, day: U64)

  // ----- one step -----

  /** The partition of a day with the packets of a file merged in. */
  function MergedDay(partitions: map<U64, seq<Packet>>, packets: seq<Packet>, day: U64): seq<Packet> {
    Merge(PartitionOf(partitions, day), SortPackets(OnDay(packets, day)))
  }

  predicate LockHeld(s: State) {
    s.query.HotRead? || s.query.Gathering?
  }

  function WorkerCount(days: nat, configured: nat): nat {
    if configured < days then configured else days
  }

  predicate IsActive(step: DayStep) {
    step.Merging? || step.Replaced?
  }

  function Active(job: Job): set<U64> {
    set day | day in job.days && IsActive(job.days[day])
  }

  predicate AllSummarised(job: Job) {
    forall day :: day in job.days ==> job.days[day] == Summarised
  }

  function NewJob(s: State, file: nat, packets: seq<Packet>, workers: nat): Job {
    Job(file, WorkerCount(|DaysIn(packets)|, workers), map day | day in DaysIn(packets) :: Waiting, false, s.partitions)
  }

  function SetDay(s: State, day: U64, step: DayStep): State
    requires s.job.Some?
  {
    s.(job := Some(s.job.value.(days := s.job.value.days[day := step])))
  }

  /** The step of a worker on the day it took, or of one that takes a day. */
  function WorkerStep(s: State, step: Step): Option<State> {
    if s.job.None? then None
    else
      var job := s.job.value;
      match step
      case Take(day) =>
        if day in job.days && job.days[day] == Waiting && |Active(job)| < job.workers && job.file in s.files
        then Some(SetDay(s, day, Merging(MergedDay(s.partitions, s.files[job.file], day))))
        else None
      case Replace(day) =>
        if day in job.days && job.days[day].Merging?
        then Some(SetDay(s, day, Replaced(job.days[day].merged)).(partitions := s.partitions[day := job.days[day].merged]))
        else None
      case Summarise(day) =>
        if day in job.days && job.days[day].Replaced?
        then Some(SetDay(s, day, Summarised).(summarised := s.summarised + Elements(job.days[day].merged)))
        else None
      case FailDay(day) =>
        if day in job.days && IsActive(job.days[day]) then Some(SetDay(s, day, Failed)) else None
      case _ => None
  }

  /** The step of the thread that owns the compaction. */
  function OwnerStep(s: State, step: Step): Option<State> {
    match step
    case Rotate(file, workers) =>
      if s.mode == Opened && !LockHeld(s) && s.job.None? && file !in s.files && workers > 0
      then Some(s.(hot := [], files := s.files[file := s.hot], listed := s.listed + [file], job := Some(NewJob(s, file, s.hot, workers))))
      else None
    case FailJob =>
      if s.mode == Opened && s.job.Some? && !s.job.value.unlisted && Active(s.job.value) == {} then Some(s.(job := None)) else None
    case Unlist =>
      if s.mode == Opened && s.job.Some? && !s.job.value.unlisted && AllSummarised(s.job.value)
      then Some(s.(listed := Retain(OtherThan(s.job.value.file), s.listed), job := Some(s.job.value.(unlisted := true))))
      else None
    case RemoveFile =>
      if s.job.Some? && (if s.mode == Opened then s.job.value.unlisted else AllSummarised(s.job.value))
      then Some(s.(files := s.files - {s.job.value.file}, job := None))
      else None
    case KeepFile =>
      if s.mode == Opened && s.job.Some? && s.job.value.unlisted then Some(s.(job := None)) else None
    case _ => None
  }

  /** A crash takes the process and everything in memory; recovery merges every compacting file
      it finds before the first query is served. */
  function ProcessStep(s: State, step: Step): Option<State> {
    match step
    case Append(p) =>
      if s.mode == Opened && !LockHeld(s) && (forall q :: q in s.appended && q.id == p.id ==> q == p)
      then Some(s.(hot := s.hot + [p], appended := s.appended + {p}))
      else None
    case Crash => Some(s.(listed := [], job := None, mode := Down, query := Idle))
    case Restart => if s.mode == Down then Some(s.(mode := Recovering)) else None
    case Recover(file, workers) =>
      if s.mode == Recovering && s.job.None? && file in s.files && workers > 0
      then Some(s.(job := Some(NewJob(s, file, s.files[file], workers))))
      else None
    case Serve => if s.mode == Recovering && s.job.None? && s.files == map[] then Some(s.(mode := Opened)) else None
    case _ => None
  }

  function ReadDay(s: State, reader: Reader, day: U64): Reader {
    reader.(read := reader.read[day := PartitionOf(s.partitions, day)], held := reader.held[day := s.summarised])
  }

  /** The snapshot is taken under the lock that appends and rotations need: first the hot file,
      then the listed paths, then each file if it is still there. Afterwards every
      reader lists the partitions and reads them one by one. */
  function QueryStep(s: State, step: Step): Option<State> {
    if s.mode != Opened then None
    else
      match (step, s.query)
      case (QueryBegin, query) => if LockHeld(s) then None else Some(s.(query := HotRead(s.appended, s.hot)))
      case (QueryList, HotRead(base, gathered)) => Some(s.(query := Gathering(base, gathered, s.listed)))
      case (QueryReadFile, Gathering(base, gathered, paths)) =>
        if paths == [] then None
        else
          var found := if paths[0] in s.files then s.files[paths[0]] else [];
          Some(s.(query := Gathering(base, gathered + found, paths[1..])))
      case (QueryUnlock, Gathering(base, gathered, paths)) =>
        if paths == [] then Some(s.(query := Reading(base, gathered, map[]))) else None
      case (QueryListDays(reader), Reading(base, snapshot, readers)) =>
        if reader !in readers
        then Some(s.(query := Reading(base, snapshot, readers[reader := Reader(s.partitions.Keys, map[], map[])])))
        else None
      case (QueryReadDay(reader, day), Reading(base, snapshot, readers)) =>
        if reader in readers && day in readers[reader].days && day !in readers[reader].read
        then Some(s.(query := Reading(base, snapshot, readers[reader := ReadDay(s, readers[reader], day)])))
        else None
      case _ => None
  }

  function Next(s: State, step: Step): Option<State> {
    match step
    case Take(_) => WorkerStep(s, step)
    case Replace(_) => WorkerStep(s, step)
    case Summarise(_) => WorkerStep(s, step)
    case FailDay(_) => WorkerStep(s, step)
    case Rotate(_, _) => OwnerStep(s, step)
    case FailJob => OwnerStep(s, step)
    case Unlist => OwnerStep(s, step)
    case RemoveFile => OwnerStep(s, step)
    case KeepFile => OwnerStep(s, step)
    case Append(_) => ProcessStep(s, step)
    case Crash => ProcessStep(s, step)
    case Restart => ProcessStep(s, step)
    case Recover(_, _) => ProcessStep(s, step)
    case Serve => ProcessStep(s, step)
    case _ => QueryStep(s, step)
  }

  const Start := State({}, [], map[], [], map[], {}, None, Opened, Idle)

  /** The state after a run, if every step of it was possible. */
  function After(s: State, steps: seq<Step>): Option<State> {
    if steps == [] then Some(s)
    else
      var before := After(s, steps[..|steps| - 1]);
      if before.None? then None else Next(before.value, steps[|steps| - 1])
  }

  // ----- the invariant -----

  /** Merged into its partition and summarised in the store. */
  predicate Settled(s: State, p: Packet) {
    p in PartitionOf(s.partitions, UnixDay(p)) && p in s.summarised
  }

  /** A file the process will still read: while it serves queries, only listed ones. */
  predicate Readable(s: State, file: nat) {
    file in s.files && (s.mode == Opened ==> file in s.listed)
  }

  ghost predicate InReadableFile(s: State, p: Packet) {
    exists file :: Readable(s, file) && p in s.files[file]
  }

  ghost predicate Covered(s: State, p: Packet) {
    p in s.hot || InReadableFile(s, p) || Settled(s, p)
  }

  /** Nothing appended is lost. */
  ghost predicate NothingLost(s: State) {
    forall p :: p in s.appended ==> Covered(s, p)
  }

  /** Nothing is stored that was not appended. */
  ghost predicate NothingInvented(s: State) {
    && (forall p :: p in s.hot ==> p in s.appended)
    && (forall file, p :: file in s.files && p in s.files[file] ==> p in s.appended)
    && (forall day, p :: day in s.partitions && p in s.partitions[day] ==> p in s.appended)
    && s.summarised <= s.appended
    && IdsDetermine(s.appended)
  }

  ghost predicate PartitionsInOrder(partitions: map<U64, seq<Packet>>) {
    forall day :: day in partitions ==> Sorted(partitions[day]) && forall p :: p in partitions[day] ==> UnixDay(p) == day
  }

  /** Every partition packet is still in a file the process will read, or summarised. */
  ghost predicate PartitionsAccounted(s: State) {
    forall day, p :: day in s.partitions && p in s.partitions[day] ==> p in s.summarised || InReadableFile(s, p)
  }

  /** What the step of a day says about its partition. */
  ghost predicate DayFollows(s: State, job: Job, packets: seq<Packet>, day: U64) {
    var now, base, merged := PartitionOf(s.partitions, day), PartitionOf(job.base, day), MergedDay(job.base, packets, day);
    if day !in job.days then now == base
    else
      match job.days[day]
      case Waiting => now == base
      case Merging(m) => now == base && m == merged
      case Replaced(m) => now == m == merged
      case Summarised => now == merged && Elements(merged) <= s.summarised
      case Failed => now == base || now == merged
  }

  ghost predicate JobFollows(s: State) {
    s.job.Some? ==>
      var job := s.job.value;
      && s.mode != Down
      && job.file in s.files
      && job.days.Keys == DaysIn(s.files[job.file])
      && PartitionsInOrder(job.base)
      && (forall day :: DayFollows(s, job, s.files[job.file], day))
      && (job.unlisted ==> AllSummarised(job))
      && (s.mode == Opened ==> (job.unlisted <==> job.file !in s.listed))
      && |Active(job)| <= job.workers
      && (job.days != map[] ==> job.workers > 0)
  }

  ghost predicate ListedAreOnDisk(s: State) {
    && (forall file :: file in s.listed ==> file in s.files)
    && (s.mode != Opened ==> s.listed == [] && s.query == Idle)
  }

  ghost predicate InPaths(s: State, paths: seq<nat>, p: Packet) {
    exists file :: file in paths && file in s.files && p in s.files[file]
  }

  /** Whatever was appended before the query began is already in its hands or will be. */
  ghost predicate QueryMissesNothing(s: State) {
    match s.query
    case Idle => true
    case HotRead(base, gathered) =>
      && Elements(gathered) <= s.appended && base <= s.appended
      && forall p :: p in base ==> p in gathered || InReadableFile(s, p) || Settled(s, p)
    case Gathering(base, gathered, paths) =>
      && Elements(gathered) <= s.appended && base <= s.appended
      && forall p :: p in base ==> p in gathered || InPaths(s, paths, p) || Settled(s, p)
    case Reading(base, snapshot, readers) =>
      && Elements(snapshot) <= s.appended && base <= s.appended
      && (forall r :: r in readers ==> ReaderFollows(s, readers[r]))
      && forall p :: p in base ==> p in snapshot || (Settled(s, p) && forall r :: r in readers ==> FoundBy(readers[r], p))
  }

  /** A reader has read versions of the days it listed. */
  ghost predicate ReaderFollows(s: State, reader: Reader) {
    && reader.read.Keys == reader.held.Keys <= reader.days
    && PartitionsInOrder(reader.read)
    && forall day :: day in reader.read ==> Elements(reader.read[day]) <= s.appended && reader.held[day] <= s.summarised
  }

  /** The reader finds `p`, and the store held it whenever this reader read a day. */
  ghost predicate FoundBy(reader: Reader, p: Packet) {
    && UnixDay(p) in reader.days
    && (UnixDay(p) in reader.read ==> p in reader.read[UnixDay(p)])
    && forall day :: day in reader.held ==> p in reader.held[day]
  }

  ghost predicate Inv(s: State) {
    && NothingLost(s)
    && NothingInvented(s)
    && PartitionsInOrder(s.partitions)
    && PartitionsAccounted(s)
    && JobFollows(s)
    && ListedAreOnDisk(s)
    && QueryMissesNothing(s)
  }

  // ----- worker steps keep the invariant -----

  /** What the steps of the workers do to everything but the job: partitions and store grow. */
  ghost predicate Extends(s: State, t: State) {
    && t == s.(partitions := t.partitions, summarised := t.summarised, job := t.job)
    && s.summarised <= t.summarised
    && forall p :: p in PartitionOf(s.partitions, UnixDay(p)) ==> p in PartitionOf(t.partitions, UnixDay(p))
  }

  lemma ExtendingLosesNothing(s: State, t: State)
    requires Extends(s, t) && NothingLost(s)
    ensures NothingLost(t)
  {
    hide PartitionOf;
    forall p | p in t.appended
      ensures Covered(t, p)
    {
      assert Covered(s, p);
      if InReadableFile(s, p) {
        StillInReadableFile(s, t, p);
      }
    }
  }

  lemma StillInReadableFile(s: State, t: State, p: Packet)
    requires t.files == s.files && t.listed == s.listed && t.mode == s.mode && InReadableFile(s, p)
    ensures InReadableFile(t, p)
  {
    var file :| Readable(s, file) && p in s.files[file];
    assert Readable(t, file);
  }

  lemma ExtendingMissesNothing(s: State, t: State)
    requires Extends(s, t) && QueryMissesNothing(s)
    ensures QueryMissesNothing(t)
  {
    hide PartitionOf, PartitionsInOrder;
    ReadersFollow(s, t);
    forall p | InReadableFile(s, p)
      ensures InReadableFile(t, p)
    {
      StillInReadableFile(s, t, p);
    }
    forall p, paths | InPaths(s, paths, p)
      ensures InPaths(t, paths, p)
    {
    }
    forall p | Settled(s, p)
      ensures Settled(t, p)
    {
    }
    hide InReadableFile, Settled, InPaths, ReaderFollows, FoundBy;
  }

  lemma MergedDayFacts(base: map<U64, seq<Packet>>, packets: seq<Packet>, day: U64)
    requires PartitionsInOrder(base)
    ensures Sorted(MergedDay(base, packets, day))
    ensures forall p :: p in MergedDay(base, packets, day) <==> p in PartitionOf(base, day) || (p in packets && UnixDay(p) == day)
    ensures forall p :: p in MergedDay(base, packets, day) ==> UnixDay(p) == day
  {
    hide Merge, SortPackets, OnDay;
    var existing, added := PartitionOf(base, day), OnDay(packets, day);
    MergeIsSortedUnion(existing, SortPackets(added));
    OnDayMembers(packets, day);
    forall p
      ensures p in MergedDay(base, packets, day) <==> p in existing || p in added
    {
      assert p in MergedDay(base, packets, day) <==> p in multiset(existing) + multiset(added);
    }
  }

  /** The step of one day, with what its partition must be for the job to stay on track. */
  lemma DayStepFollows(s: State, t: State, day: U64)
    requires JobFollows(s) && s.job.Some? && day in s.job.value.days
    requires t.job.Some? && day in t.job.value.days && t.job.value == s.job.value.(days := s.job.value.days[day := t.job.value.days[day]])
    requires t == s.(partitions := t.partitions, summarised := t.summarised, job := t.job)
    requires s.summarised <= t.summarised
    requires forall d :: d != day ==> PartitionOf(t.partitions, d) == PartitionOf(s.partitions, d)
    requires DayFollows(t, t.job.value, s.files[s.job.value.file], day)
    requires s.job.value.days[day] != Summarised
    requires |Active(t.job.value)| <= t.job.value.workers
    ensures JobFollows(t)
  {
    hide PartitionOf, MergedDay, Active, PartitionsInOrder;
    var packets := s.files[s.job.value.file];
    forall d
      ensures DayFollows(t, t.job.value, packets, d)
    {
      assert DayFollows(s, s.job.value, packets, d);
    }
  }

  lemma ActiveAfter(job: Job, day: U64, step: DayStep)
    requires day in job.days
    ensures Active(job.(days := job.days[day := step])) == if IsActive(step) then Active(job) + {day} else Active(job) - {day}
    ensures |Active(job.(days := job.days[day := step]))| <= |Active(job)| + (if IsActive(step) && !IsActive(job.days[day]) then 1 else 0)
  {
    var after := Active(job.(days := job.days[day := step]));
    assert after == if IsActive(step) then Active(job) + {day} else Active(job) - {day};
    if IsActive(step) && IsActive(job.days[day]) {
      assert after == Active(job);
    } else if !IsActive(step) {
      SubsetSize(after, Active(job));
    }
  }

  lemma TakeKeeps(s: State, day: U64)
    requires Inv(s) && WorkerStep(s, Take(day)).Some?
    ensures Inv(WorkerStep(s, Take(day)).value)
  {
    hide PartitionOf, QueryMissesNothing, NothingLost, PartitionsInOrder, OnDay, Merge, SortPackets, Active;
    var t := WorkerStep(s, Take(day)).value;
    var packets := s.files[s.job.value.file];
    assert DayFollows(s, s.job.value, packets, day);
    ActiveAfter(s.job.value, day, t.job.value.days[day]);
    DayStepFollows(s, t, day);
    ExtendingLosesNothing(s, t);
    ExtendingMissesNothing(s, t);
    AccountsStay(s, t);
  }

  lemma AccountsStay(s: State, t: State)
    requires PartitionsAccounted(s) && Extends(s, t) && t.partitions == s.partitions
    ensures PartitionsAccounted(t)
  {
    hide InReadableFile;
    forall day, p | day in t.partitions && p in t.partitions[day]
      ensures p in t.summarised || InReadableFile(t, p)
    {
      if p !in s.summarised {
        StillInReadableFile(s, t, p);
      }
    }
  }

  lemma FailDayKeeps(s: State, day: U64)
    requires Inv(s) && WorkerStep(s, FailDay(day)).Some?
    ensures Inv(WorkerStep(s, FailDay(day)).value)
  {
    hide PartitionOf, QueryMissesNothing, NothingLost, PartitionsInOrder, MergedDay, Active;
    var t := WorkerStep(s, FailDay(day)).value;
    var packets := s.files[s.job.value.file];
    assert DayFollows(s, s.job.value, packets, day);
    ActiveAfter(s.job.value, day, Failed);
    DayStepFollows(s, t, day);
    ExtendingLosesNothing(s, t);
    ExtendingMissesNothing(s, t);
    AccountsStay(s, t);
  }

  lemma ReplaceKeeps(s: State, day: U64)
    requires Inv(s) && WorkerStep(s, Replace(day)).Some?
    ensures Inv(WorkerStep(s, Replace(day)).value)
  {
    hide QueryMissesNothing, NothingLost, MergedDay, Active, PartitionsAccounted, DaysIn;
    var t := WorkerStep(s, Replace(day)).value;
    var job := s.job.value;
    var packets, merged := s.files[job.file], job.days[day].merged;
    assert DayFollows(s, job, packets, day);
    MergedDayFacts(job.base, packets, day);
    ActiveAfter(job, day, Replaced(merged));
    DayStepFollows(s, t, day);
    ExtendingLosesNothing(s, t);
    ExtendingMissesNothing(s, t);
    ReplacedIsAccounted(s, t, day);
  }

  lemma ReplacedIsAccounted(s: State, t: State, day: U64)
    requires JobFollows(s) && s.job.Some? && day in s.job.value.days && PartitionsAccounted(s) && Extends(s, t)
    requires !AllSummarised(s.job.value)
    requires t.partitions == s.partitions[day := MergedDay(s.job.value.base, s.files[s.job.value.file], day)]
    requires PartitionOf(s.partitions, day) == PartitionOf(s.job.value.base, day)
    ensures PartitionsAccounted(t)
  {
    hide InReadableFile, DayFollows;
    var job := s.job.value;
    MergedDayFacts(job.base, s.files[job.file], day);
    hide MergedDay;
    forall d, p | d in t.partitions && p in t.partitions[d]
      ensures p in t.summarised || InReadableFile(t, p)
    {
      if d in s.partitions && p in s.partitions[d] {
        if p !in s.summarised {
          StillInReadableFile(s, t, p);
        }
      } else {
        assert Readable(t, job.file) && p in t.files[job.file];
        InFileIsReadable(t, job.file, p);
      }
    }
  }

  lemma InFileIsReadable(s: State, file: nat, p: Packet)
    requires Readable(s, file) && p in s.files[file]
    ensures InReadableFile(s, p)
  {
  }

  lemma SummariseKeeps(s: State, day: U64)
    requires Inv(s) && WorkerStep(s, Summarise(day)).Some?
    ensures Inv(WorkerStep(s, Summarise(day)).value)
  {
    hide QueryMissesNothing, NothingLost, MergedDay, Active, PartitionsInOrder;
    var t := WorkerStep(s, Summarise(day)).value;
    var job := s.job.value;
    var packets, merged := s.files[job.file], job.days[day].merged;
    assert DayFollows(s, job, packets, day);
    ActiveAfter(job, day, Summarised);
    DayStepFollows(s, t, day);
    ExtendingLosesNothing(s, t);
    ExtendingMissesNothing(s, t);
    AccountsStay(s, t);
    assert forall p :: p in merged ==> p in s.appended;
  }

  // ----- owner steps keep the invariant -----

  lemma RotateKeeps(s: State, file: nat, workers: nat)
    requires Inv(s) && OwnerStep(s, Rotate(file, workers)).Some?
    ensures Inv(OwnerStep(s, Rotate(file, workers)).value)
  {
    hide PartitionOf, MergedDay, PartitionsInOrder;
    var t := OwnerStep(s, Rotate(file, workers)).value;
    forall p | InReadableFile(s, p) || p in s.hot
      ensures InReadableFile(t, p)
    {
      if p in s.hot {
        InFileIsReadable(t, file, p);
      } else {
        var f :| Readable(s, f) && p in s.files[f];
        InFileIsReadable(t, f, p);
      }
    }
    NewJobFollows(t, s.hot, workers, file);
    assert JobFollows(t) by {
      assert t.job == Some(NewJob(t, file, s.hot, workers));
    }
    forall p | Settled(s, p)
      ensures Settled(t, p)
    {
    }
    hide InReadableFile, Settled, JobFollows, DaysIn;
    assert NothingLost(t) by {
      forall p | p in t.appended
        ensures Covered(t, p)
      {
        assert Covered(s, p);
      }
    }
    assert QueryMissesNothing(t);
  }

  lemma NewJobFollows(s: State, packets: seq<Packet>, workers: nat, file: nat)
    requires file in s.files && s.files[file] == packets && PartitionsInOrder(s.partitions) && workers > 0
    ensures var job := NewJob(s, file, packets, workers);
      && job.days.Keys == DaysIn(packets) && PartitionsInOrder(job.base) && |Active(job)| <= job.workers && !job.unlisted
      && (job.days != map[] ==> job.workers > 0)
      && forall day :: DayFollows(s, job, packets, day)
  {
    hide DaysIn, MergedDay, PartitionsInOrder;
    assert Active(NewJob(s, file, packets, workers)) == {};
    if DaysIn(packets) != {} {
      var day :| day in DaysIn(packets);
      SubsetSize({day}, DaysIn(packets));
    }
  }

  lemma FailJobKeeps(s: State, step: Step)
    requires Inv(s) && (step.FailJob? || step.KeepFile?) && OwnerStep(s, step).Some?
    ensures Inv(OwnerStep(s, step).value)
  {
    hide PartitionOf, MergedDay, PartitionsInOrder, QueryMissesNothing, NothingLost;
    var t := OwnerStep(s, step).value;
    ExtendingLosesNothing(s, t);
    ExtendingMissesNothing(s, t);
    AccountsStay(s, t);
  }

  /** With every day summarised, everything in the file is settled. */
  lemma WholeFileIsSettled(s: State)
    requires JobFollows(s) && s.job.Some? && AllSummarised(s.job.value)
    ensures forall p :: p in s.files[s.job.value.file] ==> Settled(s, p)
  {
    hide PartitionsInOrder;
    var job := s.job.value;
    var packets := s.files[job.file];
    forall p | p in packets
      ensures Settled(s, p)
    {
      hide MergedDay, PartitionOf;
      var i :| 0 <= i < |packets| && packets[i] == p;
      var day := UnixDay(p);
      assert day in DaysIn(packets);
      assert DayFollows(s, job, packets, day);
      MergedDayFacts(job.base, packets, day);
      assert p in Elements(MergedDay(job.base, packets, day));
    }
  }

  lemma UnlistKeeps(s: State)
    requires Inv(s) && OwnerStep(s, Unlist).Some?
    ensures Inv(OwnerStep(s, Unlist).value)
  {
    var t, file := OwnerStep(s, Unlist).value, s.job.value.file;
    RetainMembers(OtherThan(file), s.listed);
    WholeFileIsSettled(s);
    hide PartitionOf, MergedDay, PartitionsInOrder, OnDay, DaysIn, Retain, WorkerCount;
    forall p | InReadableFile(s, p)
      ensures InReadableFile(t, p) || Settled(t, p)
    {
      ReadableUnless(s, t, p);
    }
    forall p | Settled(s, p)
      ensures Settled(t, p)
    {
    }
    assert JobFollows(t) by {
      assert forall day :: DayFollows(s, s.job.value, s.files[file], day) ==> DayFollows(t, t.job.value, t.files[file], day);
      assert Active(t.job.value) == Active(s.job.value);
    }
    hide JobFollows;
    assert PartitionsAccounted(t);
    assert QueryMissesNothing(t) by {
      assert forall p, paths :: InPaths(s, paths, p) ==> InPaths(t, paths, p);
      hide InReadableFile, InPaths, Settled;
    }
    assert NothingLost(t) by {
      hide InReadableFile, Settled;
      forall p | p in t.appended
        ensures Covered(t, p)
      {
        assert Covered(s, p);
      }
    }
  }

  lemma ReadableUnless(s: State, t: State, p: Packet)
    requires s.job.Some? && InReadableFile(s, p) && t.partitions == s.partitions && t.summarised == s.summarised && t.mode == s.mode
    requires forall file :: file != s.job.value.file && Readable(s, file) ==> Readable(t, file) && t.files[file] == s.files[file]
    requires s.job.value.file in s.files && forall q :: q in s.files[s.job.value.file] ==> Settled(s, q)
    ensures InReadableFile(t, p) || Settled(t, p)
  {
    hide PartitionOf;
    var file :| Readable(s, file) && p in s.files[file];
    if file != s.job.value.file {
      InFileIsReadable(t, file, p);
    }
  }

  lemma RemoveFileKeeps(s: State)
    requires Inv(s) && OwnerStep(s, RemoveFile).Some?
    ensures Inv(OwnerStep(s, RemoveFile).value)
  {
    var t, file := OwnerStep(s, RemoveFile).value, s.job.value.file;
    WholeFileIsSettled(s);
    hide PartitionOf, MergedDay, PartitionsInOrder;
    forall p | InReadableFile(s, p)
      ensures InReadableFile(t, p) || Settled(t, p)
    {
      ReadableUnless(s, t, p);
    }
    forall p, paths | InPaths(s, paths, p)
      ensures InPaths(t, paths, p) || Settled(t, p)
    {
    }
    hide InReadableFile, Settled, InPaths, JobFollows;
  }

  // ----- process steps keep the invariant -----

  lemma AppendKeeps(s: State, p: Packet)
    requires Inv(s) && ProcessStep(s, Append(p)).Some?
    ensures Inv(ProcessStep(s, Append(p)).value)
  {
    hide MergedDay, PartitionOf, PartitionsInOrder;
    var t := ProcessStep(s, Append(p)).value;
    assert JobFollows(t) by {
      hide DaysIn;
      assert s.job.Some? ==> (forall day ::
        DayFollows(s, s.job.value, s.files[s.job.value.file], day) ==> DayFollows(t, t.job.value, t.files[t.job.value.file], day));
    }
    hide JobFollows;
    forall q | InReadableFile(s, q)
      ensures InReadableFile(t, q)
    {
      StillInReadableFile(s, t, q);
    }
    forall q | Settled(s, q)
      ensures Settled(t, q)
    {
    }
    hide InReadableFile, Settled;
    assert QueryMissesNothing(t);
    assert NothingLost(t) by {
      forall q | q in t.appended
        ensures Covered(t, q)
      {
        assert q != p ==> Covered(s, q);
      }
    }
  }

  lemma CrashKeeps(s: State)
    requires Inv(s)
    ensures Inv(ProcessStep(s, Crash).value)
  {
    hide MergedDay, PartitionOf, PartitionsInOrder;
    var t := ProcessStep(s, Crash).value;
    forall q | InReadableFile(s, q)
      ensures InReadableFile(t, q)
    {
      var file :| Readable(s, file) && q in s.files[file];
      InFileIsReadable(t, file, q);
    }
    forall q | Settled(s, q)
      ensures Settled(t, q)
    {
    }
    hide InReadableFile, Settled;
    assert NothingLost(t) by {
      forall q | q in t.appended
        ensures Covered(t, q)
      {
        assert Covered(s, q);
      }
    }
  }

  lemma RestartKeeps(s: State, step: Step)
    requires Inv(s) && (step.Restart? || step.Recover? || step.Serve?) && ProcessStep(s, step).Some?
    ensures Inv(ProcessStep(s, step).value)
  {
    hide MergedDay, PartitionOf, PartitionsInOrder;
    var t := ProcessStep(s, step).value;
    forall q | InReadableFile(s, q)
      ensures InReadableFile(t, q)
    {
      var file :| Readable(s, file) && q in s.files[file];
      InFileIsReadable(t, file, q);
    }
    if step.Recover? {
      NewJobFollows(s, s.files[step.file], step.workers, step.file);
      assert forall day :: DayFollows(s, t.job.value, s.files[step.file], day) ==> DayFollows(t, t.job.value, t.files[step.file], day);
      hide DaysIn;
      assert JobFollows(t);
    }
    hide DaysIn, NewJob;
    forall q | Settled(s, q)
      ensures Settled(t, q)
    {
    }
    hide InReadableFile, Settled;
    assert NothingLost(t) by {
      forall q | q in t.appended
        ensures Covered(t, q)
      {
        assert Covered(s, q);
      }
    }
  }

  // ----- query steps keep the invariant -----

  lemma QueryStepKeeps(s: State, step: Step)
    requires Inv(s) && QueryStep(s, step).Some?
    ensures Inv(QueryStep(s, step).value)
  {
    var t := QueryStep(s, step).value;
    assert t == s.(query := t.query);
    OnlyTheQuery(s, t);
    hide JobFollows, NothingLost;
    match step
    case QueryBegin => BeginMissesNothing(s, t);
    case QueryList => ListMissesNothing(s, t);
    case QueryReadFile => ReadFileMissesNothing(s, t);
    case QueryUnlock => UnlockMissesNothing(s, t);
    case QueryListDays(reader) => ListDaysMissesNothing(s, t, reader);
    case QueryReadDay(reader, day) => ReadDayMissesNothing(s, t, reader, day);
  }

  lemma OnlyTheQuery(s: State, t: State)
    requires Inv(s) && t == s.(query := t.query) && s.mode == Opened
    ensures NothingLost(t) && NothingInvented(t) && PartitionsInOrder(t.partitions) && PartitionsAccounted(t) && JobFollows(t)
    ensures ListedAreOnDisk(t)
  {
    hide QueryMissesNothing, MergedDay, PartitionOf, PartitionsInOrder;
    forall q | InReadableFile(s, q)
      ensures InReadableFile(t, q)
    {
      StillInReadableFile(s, t, q);
    }
    assert JobFollows(t) by {
      hide DaysIn;
      assert s.job.Some? ==> (forall day ::
        DayFollows(s, s.job.value, s.files[s.job.value.file], day) ==> DayFollows(t, t.job.value, t.files[t.job.value.file], day));
    }
    hide JobFollows, InReadableFile;
    assert NothingLost(t) by {
      forall q | q in t.appended
        ensures Covered(t, q)
      {
        assert Covered(s, q);
      }
    }
  }

  lemma BeginMissesNothing(s: State, t: State)
    requires NothingLost(s) && NothingInvented(s) && QueryStep(s, QueryBegin) == Some(t)
    ensures QueryMissesNothing(t)
  {
    forall p | p in s.appended
      ensures p in s.hot || InReadableFile(t, p) || Settled(t, p)
    {
      assert Covered(s, p);
      if InReadableFile(s, p) {
        StillInReadableFile(s, t, p);
      }
    }
  }

  lemma ListMissesNothing(s: State, t: State)
    requires QueryMissesNothing(s) && QueryStep(s, QueryList) == Some(t)
    ensures QueryMissesNothing(t)
  {
    hide PartitionOf;
    forall p | InReadableFile(s, p)
      ensures InPaths(t, t.listed, p)
    {
    }
    hide InReadableFile, InPaths;
    assert forall p :: Settled(s, p) ==> Settled(t, p);
  }

  lemma ReadFileMissesNothing(s: State, t: State)
    requires QueryMissesNothing(s) && NothingInvented(s) && QueryStep(s, QueryReadFile) == Some(t)
    ensures QueryMissesNothing(t)
  {
    hide PartitionOf;
    var paths := s.query.paths;
    assert paths == [paths[0]] + paths[1..];
    forall p | InPaths(s, paths, p)
      ensures p in t.query.gathered || InPaths(t, paths[1..], p)
    {
    }
    hide InPaths;
    assert forall p :: Settled(s, p) ==> Settled(t, p);
  }

  lemma UnlockMissesNothing(s: State, t: State)
    requires QueryMissesNothing(s) && QueryStep(s, QueryUnlock) == Some(t)
    ensures QueryMissesNothing(t)
  {
    hide PartitionOf;
    assert forall p :: !InPaths(s, [], p);
    assert forall p :: Settled(s, p) ==> Settled(t, p);
  }

  lemma ListDaysMissesNothing(s: State, t: State, reader: nat)
    requires QueryMissesNothing(s) && QueryStep(s, QueryListDays(reader)) == Some(t)
    ensures QueryMissesNothing(t)
  {
    assert PartitionsInOrder(map[]);
    assert ReaderFollows(t, t.query.readers[reader]);
    hide PartitionsInOrder;
    forall p | Settled(s, p)
      ensures Settled(t, p) && FoundBy(t.query.readers[reader], p)
    {
    }
    ReadersFollow(s, t);
    hide Settled, FoundBy, ReaderFollows;
  }

  lemma ReadersFollow(s: State, t: State)
    requires s.appended <= t.appended && s.summarised <= t.summarised
    ensures forall reader :: ReaderFollows(s, reader) ==> ReaderFollows(t, reader)
  {
    hide PartitionsInOrder;
  }

  lemma ReadDayMissesNothing(s: State, t: State, reader: nat, day: U64)
    requires QueryMissesNothing(s) && NothingInvented(s) && PartitionsInOrder(s.partitions)
    requires QueryStep(s, QueryReadDay(reader, day)) == Some(t)
    ensures QueryMissesNothing(t)
  {
    var before, after := s.query.readers[reader], t.query.readers[reader];
    assert PartitionsInOrder(after.read);
    assert ReaderFollows(t, after);
    hide PartitionsInOrder;
    forall p | Settled(s, p)
      ensures Settled(t, p) && (FoundBy(before, p) ==> FoundBy(after, p))
    {
    }
    ReadersFollow(s, t);
    hide Settled, FoundBy, ReaderFollows;
  }

  // ----- whole runs -----

  lemma NextKeeps(s: State, step: Step)
    requires Inv(s) && Next(s, step).Some?
    ensures Inv(Next(s, step).value)
  {
    hide Inv, WorkerStep, OwnerStep, ProcessStep, QueryStep;
    match step
    case Take(day) => TakeKeeps(s, day);
    case Replace(day) => ReplaceKeeps(s, day);
    case Summarise(day) => SummariseKeeps(s, day);
    case FailDay(day) => FailDayKeeps(s, day);
    case Rotate(file, workers) => RotateKeeps(s, file, workers);
    case FailJob => FailJobKeeps(s, step);
    case Unlist => UnlistKeeps(s);
    case RemoveFile => RemoveFileKeeps(s);
    case KeepFile => FailJobKeeps(s, step);
    case Append(p) => AppendKeeps(s, p);
    case Crash => CrashKeeps(s);
    case Restart => RestartKeeps(s, step);
    case Recover(_, _) => RestartKeeps(s, step);
    case Serve => RestartKeeps(s, step);
    case _ => QueryStepKeeps(s, step);
  }

  lemma {:induction false} RunsKeepInvariant(steps: seq<Step>)
    requires After(Start, steps).Some?
    ensures Inv(After(Start, steps).value)
  {
    if steps != [] {
      RunsKeepInvariant(steps[..|steps| - 1]);
      hide Inv, Next;
      NextKeeps(After(Start, steps[..|steps| - 1]).value, steps[|steps| - 1]);
    }
  }
}
