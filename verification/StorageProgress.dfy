/** That the storage gets on: compactions and recovery can finish, a query can always read everything,
    and a process opens after a crash exactly if no day of its recovery has failed. */
module StorageProgress {
  import opened Events
  import opened Days
  import opened StorageRuns
  import P = CompactionProtocol

  // ----- runs without crashes and failing days -----

  predicate Calm(step: P.Step) {
    !step.Crash? && !step.FailDay?
  }

  ghost predicate Leads(s: P.State, steps: seq<P.Step>, t: P.State) {
    P.After(s, steps) == Some(t) && forall i :: 0 <= i < |steps| ==> Calm(steps[i])
  }

  lemma {:induction false} AfterConcat(s: P.State, first: seq<P.Step>, second: seq<P.Step>)
    requires P.After(s, first).Some?
    ensures P.After(s, first + second) == P.After(P.After(s, first).value, second)
  {
    if second == [] {
      assert first + second == first;
    } else {
      hide P.Next;
      var init := second[..|second| - 1];
      AfterConcat(s, first, init);
      assert (first + second)[..|first + second| - 1] == first + init;
    }
  }

  lemma LeadsOn(s: P.State, first: seq<P.Step>, t: P.State, second: seq<P.Step>, u: P.State)
    requires Leads(s, first, t) && Leads(t, second, u)
    ensures Leads(s, first + second, u)
  {
    AfterConcat(s, first, second);
  }

  lemma OneStep(s: P.State, step: P.Step, t: P.State)
    requires P.Next(s, step) == Some(t) && Calm(step)
    ensures Leads(s, [step], t)
  {
    hide P.Next;
    assert [step][..0] == [];
    assert P.After(s, [step]) == P.Next(s, step);
  }

  lemma NoStep(s: P.State)
    ensures Leads(s, [], s)
  {
  }

  // ----- the workers finish -----

  /** Only workers have moved. */
  predicate OnlyWorkers(s: P.State, t: P.State) {
    && t == s.(partitions := t.partitions, summarised := t.summarised, job := t.job)
    && s.job.Some? && t.job.Some? && t.job.value == s.job.value.(days := t.job.value.days)
  }

  predicate NoneFailed(job: P.Job) {
    forall day :: day in job.days ==> job.days[day] != P.Failed
  }

  function NextOf(job: P.Job, day: U64): P.Step
    requires day in job.days
  {
    match job.days[day]
    case Merging(_) => P.Replace(day)
    case Replaced(_) => P.Summarise(day)
    case _ => P.Take(day)
  }

  /** A day that is waiting while no worker is busy, or is being merged, can take its next step. */
  lemma WorkerGoesOn(s: P.State, day: U64)
    requires P.Inv(s) && s.job.Some? && day in s.job.value.days
    requires P.IsActive(s.job.value.days[day]) || (s.job.value.days[day] == P.Waiting && P.Active(s.job.value) == {})
    ensures P.Next(s, NextOf(s.job.value, day)).Some?
    ensures var t := P.Next(s, NextOf(s.job.value, day)).value;
      && P.Inv(t) && OnlyWorkers(s, t) && day in t.job.value.days
      && t.job.value.days == s.job.value.days[day := t.job.value.days[day]]
      && (match s.job.value.days[day]
          case Merging(_) => t.job.value.days[day].Replaced?
          case Replaced(_) => t.job.value.days[day] == P.Summarised
          case _ => t.job.value.days[day].Merging?)
  {
    hide P.NothingLost, P.NothingInvented, P.PartitionsInOrder, P.PartitionsAccounted, P.QueryMissesNothing, P.DayFollows, P.MergedDay,
         P.ListedAreOnDisk;
    var step := NextOf(s.job.value, day);
    P.NextKeeps(s, step);
  }

  function StepsLeft(step: P.DayStep): nat {
    match step
    case Waiting => 3
    case Merging(_) => 2
    case Replaced(_) => 1
    case _ => 0
  }

  lemma {:induction false} DayFinishes(s: P.State, day: U64) returns (steps: seq<P.Step>, t: P.State)
    requires P.Inv(s) && s.job.Some? && day in s.job.value.days
    requires P.IsActive(s.job.value.days[day]) || (s.job.value.days[day] == P.Waiting && P.Active(s.job.value) == {})
    ensures Leads(s, steps, t) && P.Inv(t) && OnlyWorkers(s, t)
    ensures t.job.value.days == s.job.value.days[day := P.Summarised]
    decreases StepsLeft(s.job.value.days[day])
  {
    var step := NextOf(s.job.value, day);
    WorkerGoesOn(s, day);
    hide P.Inv, P.Next, Leads;
    var next := P.Next(s, step).value;
    OneStep(s, step, next);
    assert next.job.value.days[day := P.Summarised] == s.job.value.days[day := P.Summarised];
    if next.job.value.days[day] == P.Summarised {
      steps, t := [step], next;
    } else {
      var rest;
      rest, t := DayFinishes(next, day);
      LeadsOn(s, [step], next, rest, t);
      steps := [step] + rest;
    }
  }

  function Unfinished(job: P.Job): set<U64> {
    set day | day in job.days && job.days[day] != P.Summarised
  }

  /** Any job without a failed day can be finished. */
  lemma {:induction false} JobFinishes(s: P.State) returns (steps: seq<P.Step>, t: P.State)
    requires P.Inv(s) && s.job.Some? && NoneFailed(s.job.value)
    ensures Leads(s, steps, t) && P.Inv(t) && OnlyWorkers(s, t) && P.AllSummarised(t.job.value)
    decreases |Unfinished(s.job.value)|
  {
    hide P.Inv, P.Next, Leads, OnlyWorkers;
    var job := s.job.value;
    if P.AllSummarised(job) {
      NoStep(s);
      SameWorkers(s);
      steps, t := [], s;
    } else {
      var day :| day in job.days && job.days[day] != P.Summarised;
      if P.Active(job) != {} {
        day :| day in P.Active(job);
      }
      assert day in Unfinished(job);
      var next, first;
      first, next := DayFinishes(s, day);
      WorkersLeaveJob(s, next);
      assert Unfinished(next.job.value) == Unfinished(job) - {day};
      var rest;
      rest, t := JobFinishes(next);
      LeadsOn(s, first, next, rest, t);
      WorkersChain(s, next, t);
      steps := first + rest;
    }
  }

  lemma SameWorkers(s: P.State)
    requires s.job.Some?
    ensures OnlyWorkers(s, s)
  {
  }

  lemma WorkersLeaveJob(s: P.State, t: P.State)
    requires OnlyWorkers(s, t)
    ensures s.job.Some? && t.job.Some? && t.job.value.file == s.job.value.file && t.job.value.unlisted == s.job.value.unlisted
    ensures t.files == s.files && t.listed == s.listed && t.mode == s.mode && t.hot == s.hot && t.appended == s.appended && t.query == s.query
  {
  }

  lemma WorkersChain(s: P.State, t: P.State, u: P.State)
    requires OnlyWorkers(s, t) && OnlyWorkers(t, u)
    ensures OnlyWorkers(s, u)
  {
  }

  // ----- a running compaction finishes -----

  /** In an open process a compaction without a failed day can be finished: its file is merged,
      summarised, taken off the list and removed. */
  lemma CompactionFinishes(s: P.State) returns (steps: seq<P.Step>, t: P.State)
    requires P.Inv(s) && s.mode == P.Opened && s.job.Some? && NoneFailed(s.job.value)
    ensures Leads(s, steps, t) && P.Inv(t) && t.mode == P.Opened && t.job == None
    ensures t.files == s.files - {s.job.value.file} && s.job.value.file !in t.listed
    ensures forall p :: p in s.files[s.job.value.file] ==> P.Settled(t, p)
  {
    var done;
    steps, done := JobFinishes(s);
    WorkersLeaveJob(s, done);
    P.WholeFileIsSettled(done);
    hide P.NothingLost, P.NothingInvented, P.PartitionsInOrder, P.PartitionsAccounted, P.QueryMissesNothing, P.DayFollows, Leads, P.Settled;
    var file := done.job.value.file;
    t := done;
    if !done.job.value.unlisted {
      t := P.Next(done, P.Unlist).value;
      P.NextKeeps(done, P.Unlist);
      RetainMembers(OtherThan(file), done.listed);
      OneStep(done, P.Unlist, t);
      LeadsOn(s, steps, done, [P.Unlist], t);
      steps := steps + [P.Unlist];
    }
    var removed := P.Next(t, P.RemoveFile).value;
    P.NextKeeps(t, P.RemoveFile);
    OneStep(t, P.RemoveFile, removed);
    LeadsOn(s, steps, t, [P.RemoveFile], removed);
    steps := steps + [P.RemoveFile];
    forall p | p in s.files[file]
      ensures P.Settled(removed, p)
    {
      SettledIsStored(done, removed, p);
    }
    t := removed;
  }

  lemma SettledIsStored(s: P.State, t: P.State, p: Packet)
    requires P.Settled(s, p) && t.partitions == s.partitions && t.summarised == s.summarised
    ensures P.Settled(t, p)
  {
  }

  /** One with a failed day can be given up when its busy workers are done; its file stays listed. */
  lemma {:induction false} FailedCompactionEnds(s: P.State) returns (steps: seq<P.Step>, t: P.State)
    requires P.Inv(s) && s.mode == P.Opened && s.job.Some? && !NoneFailed(s.job.value)
    ensures Leads(s, steps, t) && P.Inv(t) && t.mode == P.Opened && t.job == None && t.files == s.files && t.listed == s.listed
    ensures s.job.value.file in t.listed && s.job.value.file in t.files
    decreases |P.Active(s.job.value)|
  {
    hide P.NothingLost, P.NothingInvented, P.PartitionsInOrder, P.PartitionsAccounted, P.QueryMissesNothing, P.DayFollows, Leads;
    var job := s.job.value;
    assert !job.unlisted;
    if P.Active(job) == {} {
      t := P.Next(s, P.FailJob).value;
      P.NextKeeps(s, P.FailJob);
      OneStep(s, P.FailJob, t);
      steps := [P.FailJob];
    } else {
      var day :| day in P.Active(job);
      var first, next := DayFinishes(s, day);
      WorkersLeaveJob(s, next);
      P.ActiveAfter(job, day, P.Summarised);
      assert next.job.value == job.(days := job.days[day := P.Summarised]);
      var failed :| failed in job.days && job.days[failed] == P.Failed;
      assert next.job.value.days[failed] == P.Failed;
      hide P.Inv;
      var rest;
      rest, t := FailedCompactionEnds(next);
      LeadsOn(s, first, next, rest, t);
      steps := first + rest;
    }
  }

  // ----- recovery -----

  /** The leftover file being recovered can be merged and removed. */
  lemma FileIsRecovered(s: P.State) returns (steps: seq<P.Step>, t: P.State)
    requires P.Inv(s) && s.mode == P.Recovering && s.job.Some? && NoneFailed(s.job.value)
    ensures Leads(s, steps, t) && P.Inv(t) && t.mode == P.Recovering && t.job == None
    ensures s.job.value.file in s.files && t.files == s.files - {s.job.value.file} && t.hot == s.hot && t.appended == s.appended
  {
    var done;
    steps, done := JobFinishes(s);
    WorkersLeaveJob(s, done);
    hide P.NothingLost, P.NothingInvented, P.PartitionsInOrder, P.PartitionsAccounted, P.QueryMissesNothing, P.DayFollows, Leads;
    t := P.Next(done, P.RemoveFile).value;
    P.NextKeeps(done, P.RemoveFile);
    OneStep(done, P.RemoveFile, t);
    LeadsOn(s, steps, done, [P.RemoveFile], t);
    steps := steps + [P.RemoveFile];
  }

  lemma RecoveryBegins(s: P.State, file: nat)
    requires P.Inv(s) && s.mode == P.Recovering && s.job == None && file in s.files
    ensures P.Next(s, P.Recover(file, 1)).Some?
    ensures var t := P.Next(s, P.Recover(file, 1)).value;
      P.Inv(t) && t == s.(job := t.job) && t.job.Some? && t.job.value.file == file && NoneFailed(t.job.value)
  {
    P.NextKeeps(s, P.Recover(file, 1));
  }

  /** All leftover files can be recovered, and then the process opens. */
  lemma {:induction false} Recovers(s: P.State) returns (steps: seq<P.Step>, t: P.State)
    requires P.Inv(s) && s.mode == P.Recovering && (s.job.Some? ==> NoneFailed(s.job.value))
    ensures Leads(s, steps, t) && P.Inv(t) && t.mode == P.Opened && t.files == map[] && t.hot == s.hot && t.appended == s.appended
    decreases |s.files|, if s.job.None? then 1 else 0
  {
    var next, rest;
    if s.job.Some? {
      steps, next := FileIsRecovered(s);
      FewerFiles(s.files, s.job.value.file);
      hide Leads, P.Inv;
      rest, t := Recovers(next);
      LeadsOn(s, steps, next, rest, t);
      steps := steps + rest;
    } else if s.files == map[] {
      t := s.(mode := P.Opened);
      P.NextKeeps(s, P.Serve);
      OneStep(s, P.Serve, t);
      steps := [P.Serve];
    } else {
      var file :| file in s.files;
      RecoveryBegins(s, file);
      hide Leads, P.Inv, P.Next;
      next := P.Next(s, P.Recover(file, 1)).value;
      OneStep(s, P.Recover(file, 1), next);
      rest, t := Recovers(next);
      LeadsOn(s, [P.Recover(file, 1)], next, rest, t);
      steps := [P.Recover(file, 1)] + rest;
    }
  }

  lemma FewerFiles(files: map<nat, seq<Packet>>, file: nat)
    requires file in files
    ensures |files - {file}| < |files|
  {
    assert (files - {file}).Keys == files.Keys - {file};
    assert |files.Keys| == |files| && |(files - {file}).Keys| == |files - {file}|;
  }

  /** No day of the recovery under way has failed. */
  predicate Recoverable(s: P.State) {
    s.job.Some? ==> NoneFailed(s.job.value)
  }

  /** From every state a run leads to in which the process is down or recovers, and in which no day
      has failed, it can open without another crash or failure: no file is left over, and every
      packet ever appended is in the hot file or merged and summarised. */
  lemma RecoveryOpens(before: seq<P.Step>) returns (steps: seq<P.Step>, t: P.State)
    requires P.After(P.Start, before).Some? && P.After(P.Start, before).value.mode != P.Opened
    requires Recoverable(P.After(P.Start, before).value)
    ensures Leads(P.After(P.Start, before).value, steps, t) && t.mode == P.Opened && t.files == map[]
    ensures t.appended == P.After(P.Start, before).value.appended && forall p :: p in t.appended ==> p in t.hot || P.Settled(t, p)
  {
    P.RunsKeepInvariant(before);
    hide P.After, P.DayFollows, P.QueryMissesNothing, P.NothingInvented, P.PartitionsAccounted, P.PartitionsInOrder;
    var s := P.After(P.Start, before).value;
    if s.mode == P.Down {
      var up := s.(mode := P.Recovering);
      P.NextKeeps(s, P.Restart);
      OneStep(s, P.Restart, up);
      var rest;
      rest, t := Recovers(up);
      LeadsOn(s, [P.Restart], up, rest, t);
      steps := [P.Restart] + rest;
    } else {
      steps, t := Recovers(s);
    }
    forall p | p in t.appended
      ensures p in t.hot || P.Settled(t, p)
    {
      assert P.Covered(t, p);
    }
  }

  predicate HasFailed(s: P.State, day: U64) {
    s.mode == P.Recovering && s.job.Some? && day in s.job.value.days && s.job.value.days[day] == P.Failed
  }

  lemma FailedStays(s: P.State, step: P.Step, day: U64)
    requires HasFailed(s, day) && P.Next(s, step).Some? && !step.Crash?
    ensures HasFailed(P.Next(s, step).value, day)
  {
    hide P.MergedDay, P.NewJob, P.Active, P.ReadDay;
  }

  lemma {:induction false} FailedStaysFailed(s: P.State, steps: seq<P.Step>, day: U64)
    requires HasFailed(s, day) && P.After(s, steps).Some? && forall i :: 0 <= i < |steps| ==> !steps[i].Crash?
    ensures HasFailed(P.After(s, steps).value, day)
  {
    if steps != [] {
      var init := steps[..|steps| - 1];
      FailedStaysFailed(s, init, day);
      hide P.Next, HasFailed;
      FailedStays(P.After(s, init).value, steps[|steps| - 1], day);
    }
  }

  ghost predicate CanOpen(s: P.State) {
    exists steps :: OpensBy(s, steps)
  }

  ghost predicate OpensBy(s: P.State, steps: seq<P.Step>) {
    (forall i :: 0 <= i < |steps| ==> !steps[i].Crash?) && P.After(s, steps).Some? && P.After(s, steps).value.mode == P.Opened
  }

  /** A process that is down or recovers can open without another crash if and only if no day of its
      recovery has failed. */
  lemma RecoveryOpensIff(before: seq<P.Step>)
    requires P.After(P.Start, before).Some? && P.After(P.Start, before).value.mode != P.Opened
    ensures CanOpen(P.After(P.Start, before).value) <==> Recoverable(P.After(P.Start, before).value)
  {
    P.RunsKeepInvariant(before);
    var s := P.After(P.Start, before).value;
    if Recoverable(s) {
      var steps, t := RecoveryOpens(before);
      assert OpensBy(s, steps);
    } else {
      assert s.mode == P.Recovering;
      hide P.After, P.Inv;
      var day :| day in s.job.value.days && s.job.value.days[day] == P.Failed;
      forall steps | OpensBy(s, steps)
        ensures false
      {
        FailedStaysFailed(s, steps, day);
      }
    }
  }

  // ----- queries -----

  /** A snapshot that has begun can be completed, whatever its paths lead to. */
  lemma {:induction false} FilesAreGathered(s: P.State) returns (steps: seq<P.Step>, t: P.State)
    requires s.mode == P.Opened && s.query.Gathering?
    ensures Leads(s, steps, t) && t == s.(query := t.query) && t.query.Reading? && t.query.base == s.query.base && t.query.readers == map[]
    decreases |s.query.paths|
  {
    hide Leads;
    if s.query.paths == [] {
      t := P.Next(s, P.QueryUnlock).value;
      OneStep(s, P.QueryUnlock, t);
      steps := [P.QueryUnlock];
    } else {
      var next, rest := P.Next(s, P.QueryReadFile).value, [];
      OneStep(s, P.QueryReadFile, next);
      rest, t := FilesAreGathered(next);
      LeadsOn(s, [P.QueryReadFile], next, rest, t);
      steps := [P.QueryReadFile] + rest;
    }
  }

  lemma {:induction false} DaysAreRead(s: P.State, r: nat) returns (steps: seq<P.Step>, t: P.State)
    requires s.mode == P.Opened && s.query.Reading? && r in s.query.readers
    ensures Leads(s, steps, t) && t == s.(query := t.query) && t.query.Reading? && t.query.base == s.query.base && t.query.snapshot == s.query.snapshot
    ensures r in t.query.readers && t.query.readers[r].days == s.query.readers[r].days <= t.query.readers[r].read.Keys
    decreases |s.query.readers[r].days - s.query.readers[r].read.Keys|
  {
    hide Leads;
    var reader := s.query.readers[r];
    var left := reader.days - reader.read.Keys;
    if left == {} {
      NoStep(s);
      assert forall day :: day in reader.days ==> day in reader.read.Keys || day in left;
      steps, t := [], s;
    } else {
      var day :| day in left;
      var next := DayIsRead(s, r, day);
      var rest;
      rest, t := DaysAreRead(next, r);
      LeadsOn(s, [P.QueryReadDay(r, day)], next, rest, t);
      steps := [P.QueryReadDay(r, day)] + rest;
    }
  }

  lemma DayIsRead(s: P.State, r: nat, day: U64) returns (t: P.State)
    requires s.mode == P.Opened && s.query.Reading? && r in s.query.readers
    requires day in s.query.readers[r].days && day !in s.query.readers[r].read
    ensures Leads(s, [P.QueryReadDay(r, day)], t) && t == s.(query := t.query) && t.query.Reading?
    ensures t.query.base == s.query.base && t.query.snapshot == s.query.snapshot
    ensures r in t.query.readers && t.query.readers[r].days == s.query.readers[r].days
    ensures t.query.readers[r].days - t.query.readers[r].read.Keys == (s.query.readers[r].days - s.query.readers[r].read.Keys) - {day}
  {
    t := P.Next(s, P.QueryReadDay(r, day)).value;
    OneStep(s, P.QueryReadDay(r, day), t);
  }

  /** In an open process a query can begin unless another one takes its snapshot, and can read all
      that is stored. */
  lemma QueryCanRead(s: P.State, r: nat) returns (steps: seq<P.Step>, t: P.State)
    requires s.mode == P.Opened && !P.LockHeld(s)
    ensures Leads(s, steps, t) && t == s.(query := t.query) && t.query.Reading? && t.query.base == s.appended
    ensures forall f :: HasReadFor(t, r, f)
  {
    hide Leads;
    var begun := P.Next(s, P.QueryBegin).value;
    OneStep(s, P.QueryBegin, begun);
    var listed := P.Next(begun, P.QueryList).value;
    OneStep(begun, P.QueryList, listed);
    LeadsOn(s, [P.QueryBegin], begun, [P.QueryList], listed);
    var gathering, reading := FilesAreGathered(listed);
    LeadsOn(s, [P.QueryBegin] + [P.QueryList], listed, gathering, reading);
    var ready := P.Next(reading, P.QueryListDays(r)).value;
    OneStep(reading, P.QueryListDays(r), ready);
    LeadsOn(s, [P.QueryBegin] + [P.QueryList] + gathering, reading, [P.QueryListDays(r)], ready);
    var days;
    days, t := DaysAreRead(ready, r);
    steps := [P.QueryBegin] + [P.QueryList] + gathering + [P.QueryListDays(r)] + days;
    LeadsOn(s, [P.QueryBegin] + [P.QueryList] + gathering + [P.QueryListDays(r)], ready, days, t);
  }
}
