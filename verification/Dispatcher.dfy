/** The snapshot dispatcher: requests queue up, are split into batches and handed to idle workers. */
module Dispatcher {
  import opened Events

  datatype Message<T> = Enqueue(request: T) | WorkerCompleted(worker: nat) | Shutdown

  /** A batch sent to a worker; `done` once the dispatcher has heard that the worker completed it. */
  datatype Dispatch<T> = Dispatch(worker: nat, batch: seq<T>, done: bool)

  function Flatten<T>(batches: seq<seq<T>>): seq<T> {
    if batches == [] then [] else batches[0] + Flatten(batches[1..])
  }

  lemma {:induction false} FlattenConcat<T>(a: seq<seq<T>>, b: seq<seq<T>>)
    ensures Flatten(a + b) == Flatten(a) + Flatten(b)
  {
    if a == [] {
      assert a + b == b;
    } else {
      FlattenConcat(a[1..], b);
      var head, tail, more := a[0], Flatten(a[1..]), Flatten(b);
      assert (a + b)[1..] == a[1..] + b && (a + b)[0] == head;
      assert head + (tail + more) == (head + tail) + more;
    }
  }

  function Batches<T>(log: seq<Dispatch<T>>): seq<seq<T>> {
    seq(|log|, i requires 0 <= i < |log| => log[i].batch)
  }

  // ----- splitting -----

  function DivCeil(a: nat, b: nat): nat
    requires b > 0
  {
    (a + b - 1) / b
  }

  /** Sizes never grow and differ by at most one. */
  predicate Balanced<T>(batches: seq<seq<T>>) {
    forall i, j :: 0 <= i < j < |batches| ==> |batches[j]| <= |batches[i]| <= |batches[j]| + 1
  }

  lemma Scaled(a: int, b: int, c: nat)
    ensures a <= b ==> a * c <= b * c
  {
    if a <= b {
      assert (b - a) * c >= 0;
      assert (b - a) * c == b * c - a * c;
    }
  }

  lemma QuotientIs(x: nat, b: nat, q: nat)
    requires b > 0 && q * b <= x < q * b + b
    ensures x / b == q
  {
    var d := x / b;
    assert x == d * b + x % b;
    Scaled(q + 1, d, b);
    Scaled(d + 1, q, b);
    assert (q + 1) * b == q * b + b && (d + 1) * b == d * b + b;
  }

  lemma CeilIs(p: nat, b: nat, q: nat)
    requires b > 0 && q > 0 && (q - 1) * b < p <= q * b
    ensures DivCeil(p, b) == q
  {
    assert (q - 1) * b == q * b - b;
    QuotientIs(p + b - 1, b, q);
  }

  /** When `p` requests are left for `b` batches of `q` or `q - 1`, the next share is one of the
      two, and as much is left for the others. */
  lemma NextShare(p: nat, b: nat, q: nat)
    requires b > 0 && q > 0 && SharesLeft(p, b, q) && p >= b
    ensures DivCeil(p, b) == if p == Product(q - 1, b) then q - 1 else q
    ensures 0 < DivCeil(p, b) <= p && p - DivCeil(p, b) >= b - 1
    ensures p == Product(q - 1, b) ==> p - DivCeil(p, b) == Product(q - 1, b - 1)
    ensures SharesLeft(p - DivCeil(p, b), b - 1, q)
  {
    assert (q - 1) * (b - 1) == (q - 1) * b - (q - 1);
    assert q * (b - 1) == q * b - q;
    assert (q - 1) * b == q * b - b;
    if p == (q - 1) * b {
      assert (q - 2) * b == (q - 1) * b - b;
      Scaled(q - 1, 0, b);
      CeilIs(p, b, q - 1);
      Enough(q - 1, b);
    } else {
      CeilIs(p, b, q);
      if q == 1 {
        assert p - 1 >= b - 1;
      } else {
        Enough(q - 1, b);
      }
    }
  }

  lemma Enough(q: nat, b: nat)
    requires q > 0 && b > 0
    ensures q * b - q >= b - 1 && q * (b - 1) >= b - 1
  {
    assert q * b - q == q * (b - 1);
    Scaled(1, q, b - 1);
  }

  function Min(a: nat, b: nat): nat {
    if a < b then a else b
  }

  /** Everything pending, in order, in as many batches as there are requests but no more than asked
      for; the batches are not empty and balanced. */
  method SplitPending<T>(pending: seq<T>, maxBatches: nat) returns (batches: seq<seq<T>>, rest: seq<T>)
    ensures |batches| == Min(|pending|, maxBatches)
    ensures Flatten(batches) + rest == pending && (maxBatches > 0 ==> rest == [])
    ensures Balanced(batches) && forall i :: 0 <= i < |batches| ==> batches[i] != []
  {
    var batchCount := Min(|pending|, maxBatches);
    batches, rest := [], pending;
    ghost var q := if batchCount > 0 then DivCeil(|pending|, batchCount) else 1;
    if batchCount > 0 {
      FirstShare(|pending|, batchCount);
    }
    hide DivCeil, Splitting, SharesLeft, Balanced, Flatten;
    NothingSplit(pending, batchCount, q);
    for batchIndex := 0 to batchCount
      invariant |batches| == batchIndex && q > 0 && Splitting(pending, batches, rest, batchCount - batchIndex, q)
      invariant batchCount == 0 ==> rest == pending
    {
      SplitNext(pending, batches, rest, batchCount - batchIndex, q);
      var batchSize := DivCeil(|rest|, batchCount - batchIndex);
      batches, rest := batches + [rest[..batchSize]], rest[batchSize..];
    }
    EverythingSplit(pending, batches, rest, q);
  }

  /** `left` more batches take what is left; those taken so far are the pending requests in front. */
  ghost predicate Splitting<T>(pending: seq<T>, batches: seq<seq<T>>, rest: seq<T>, left: nat, q: nat)
    requires q > 0
  {
    && Flatten(batches) + rest == pending
    && |rest| >= left && (left > 0 || batches != [] ==> SharesLeft(|rest|, left, q))
    && BalancedSoFar(batches, q, |rest| == Product(q - 1, left))
  }

  lemma NothingSplit<T>(pending: seq<T>, batchCount: nat, q: nat)
    requires q > 0 && batchCount <= |pending| && (batchCount > 0 ==> SharesLeft(|pending|, batchCount, q))
    ensures Splitting(pending, [], pending, batchCount, q)
  {
    NoBatches<T>(q);
  }

  lemma SplitNext<T>(pending: seq<T>, batches: seq<seq<T>>, rest: seq<T>, left: nat, q: nat)
    requires left > 0 && q > 0 && Splitting(pending, batches, rest, left, q)
    ensures var batchSize := DivCeil(|rest|, left);
      batchSize <= |rest| && Splitting(pending, batches + [rest[..batchSize]], rest[batchSize..], left - 1, q)
  {
    hide Balanced, BalancedSoFar, DivCeil, Product, SharesLeft, Flatten;
    NextShare(|rest|, left, q);
    var batchSize := DivCeil(|rest|, left);
    var batch, more := rest[..batchSize], rest[batchSize..];
    AnotherBatch(batches, q, |rest| == Product(q - 1, left), batch);
    FlattenConcat(batches, [batch]);
    FlattenOne(batch);
    assert rest == batch + more;
    assert (Flatten(batches) + batch) + more == Flatten(batches) + (batch + more);
  }

  lemma EverythingSplit<T>(pending: seq<T>, batches: seq<seq<T>>, rest: seq<T>, q: nat)
    requires q > 0 && Splitting(pending, batches, rest, 0, q)
    ensures Flatten(batches) + rest == pending && Balanced(batches) && (batches != [] ==> rest == [])
    ensures forall i :: 0 <= i < |batches| ==> batches[i] != []
  {
    hide Balanced, BalancedSoFar;
    AllBalanced(batches, q, |rest| == Product(q - 1, 0));
    NothingLeft(|rest|, q);
  }

  lemma NothingLeft(p: nat, q: nat)
    ensures SharesLeft(p, 0, q) ==> p == 0
  {
  }

  lemma FlattenNone<T>()
    ensures Flatten<T>([]) == []
  {
  }

  lemma FlattenOne<T>(batch: seq<T>)
    ensures Flatten([batch]) == batch
  {
    assert Flatten([batch][1..]) == [];
  }

  function Product(a: int, b: int): int {
    a * b
  }

  predicate SharesLeft(p: nat, b: nat, q: nat) {
    (q - 1) * b <= p <= q * b
  }

  lemma NoBatches<T>(q: nat)
    requires q > 0
    ensures BalancedSoFar<T>([], q, false) && BalancedSoFar<T>([], q, true)
  {
  }

  lemma AnotherBatch<T>(batches: seq<seq<T>>, q: nat, small: bool, batch: seq<T>)
    requires q > 0 && BalancedSoFar(batches, q, small) && batch != [] && |batch| == if small then q - 1 else q
    ensures BalancedSoFar(batches + [batch], q, small)
    ensures BalancedSoFar(batches + [batch], q, true)
  {
  }

  lemma AllBalanced<T>(batches: seq<seq<T>>, q: nat, small: bool)
    requires q > 0 && BalancedSoFar(batches, q, small)
    ensures Balanced(batches) && forall i :: 0 <= i < |batches| ==> batches[i] != []
  {
  }

  lemma FirstShare(n: nat, b: nat)
    requires n >= b > 0
    ensures DivCeil(n, b) > 0 && SharesLeft(n, b, DivCeil(n, b))
  {
    var q := DivCeil(n, b);
    assert n + b - 1 == q * b + (n + b - 1) % b;
    assert (q - 1) * b == q * b - b;
    Scaled(q, 0, b);
  }

  /** Batches of `q`, and, once `small` holds, of `q - 1` behind them. */
  ghost predicate BalancedSoFar<T>(batches: seq<seq<T>>, q: nat, small: bool)
    requires q > 0
  {
    && Balanced(batches)
    && (forall i :: 0 <= i < |batches| ==> batches[i] != [] && q - 1 <= |batches[i]| <= q)
    && (!small ==> forall i :: 0 <= i < |batches| ==> |batches[i]| == q)
  }

  // ----- the dispatcher's state -----

  ghost predicate Distinct(s: seq<nat>) {
    forall i, j :: 0 <= i < j < |s| ==> s[i] != s[j]
  }

  ghost predicate WorksOn<T>(log: seq<Dispatch<T>>, k: nat, worker: nat) {
    k < |log| && log[k].worker == worker && !log[k].done
  }

  ghost predicate Busy<T>(log: seq<Dispatch<T>>, worker: nat) {
    exists k: nat :: WorksOn(log, k, worker)
  }

  /** Every worker is idle or busy, never both, and busy with one batch. */
  ghost predicate Partitioned<T>(idleWorkers: seq<nat>, log: seq<Dispatch<T>>, workerCount: nat) {
    && Distinct(idleWorkers)
    && (forall w :: w in idleWorkers ==> w < workerCount)
    && (forall w: nat :: w < workerCount ==> (w in idleWorkers <==> !Busy(log, w)))
    && (forall k: nat, l: nat, w :: WorksOn(log, k, w) && WorksOn(log, l, w) ==> k == l)
  }

  /** The batches handed out by popping the idle stack and the queue of ready batches `m` times. */
  function Handed<T>(idleWorkers: seq<nat>, readyBatches: seq<seq<T>>, m: nat): seq<Dispatch<T>>
    requires m <= |idleWorkers| && m <= |readyBatches|
  {
    seq(m, k requires 0 <= k < m => Dispatch(idleWorkers[|idleWorkers| - 1 - k], readyBatches[k], false))
  }

  /** `m` pops of both, each to a worker that listens. */
  ghost predicate HandedOut<T>(idle: seq<nat>, ready: seq<seq<T>>, log: seq<Dispatch<T>>, listening: set<nat>, m: nat,
                               idleAfter: seq<nat>, readyAfter: seq<seq<T>>, logAfter: seq<Dispatch<T>>)
  {
    && m <= |idle| && m <= |ready|
    && (forall w :: w in idle[|idle| - m..] ==> w in listening)
    && idleAfter == idle[..|idle| - m] && readyAfter == ready[m..] && logAfter == log + Handed(idle, ready, m)
  }

  lemma HandOutNext<T>(idle: seq<nat>, ready: seq<seq<T>>, log: seq<Dispatch<T>>, listening: set<nat>, m: nat,
                       idleNow: seq<nat>, readyNow: seq<seq<T>>, logNow: seq<Dispatch<T>>)
    requires HandedOut(idle, ready, log, listening, m, idleNow, readyNow, logNow) && idleNow != [] && readyNow != []
    requires idleNow[|idleNow| - 1] in listening
    ensures var n := |idleNow| - 1;
      HandedOut(idle, ready, log, listening, m + 1, idleNow[..n], readyNow[1..], logNow + [Dispatch(idleNow[n], readyNow[0], false)])
  {
    var n := |idleNow| - 1;
    assert idle[|idle| - (m + 1)..] == [idleNow[n]] + idle[|idle| - m..];
    assert Handed(idle, ready, m + 1) == Handed(idle, ready, m) + [Dispatch(idleNow[n], readyNow[0], false)];
  }

  /** Popping on with other batches when the first are gone. */
  lemma HandOutMore<T>(idle: seq<nat>, ready: seq<seq<T>>, log: seq<Dispatch<T>>, listening: set<nat>, m: nat,
                       idleNow: seq<nat>, logNow: seq<Dispatch<T>>, split: seq<seq<T>>, more: nat,
                       idleAfter: seq<nat>, readyAfter: seq<seq<T>>, logAfter: seq<Dispatch<T>>)
    requires HandedOut(idle, ready, log, listening, m, idleNow, [], logNow)
    requires HandedOut(idleNow, split, logNow, listening, more, idleAfter, readyAfter, logAfter)
    ensures HandedOut(idle, ready + split, log, listening, m + more, idleAfter, readyAfter, logAfter)
    ensures idleNow != [] ==> |ready| < |idle|
  {
    assert |ready| == m;
    assert idle[|idle| - (m + more)..] == idleNow[|idleNow| - more..] + idle[|idle| - m..];
    assert Handed(idle, ready + split, m + more) == Handed(idle, ready, m) + Handed(idleNow, split, more);
    assert (ready + split)[m + more..] == split[more..];
  }

  lemma HandedOutBatches<T>(idle: seq<nat>, ready: seq<seq<T>>, split: seq<seq<T>>, log: seq<Dispatch<T>>, listening: set<nat>,
                            m: nat, idleAfter: seq<nat>, readyAfter: seq<seq<T>>, logAfter: seq<Dispatch<T>>)
    requires HandedOut(idle, ready + split, log, listening, m, idleAfter, readyAfter, logAfter)
    ensures HandedBehind(log, ready, split, logAfter, readyAfter)
  {
    HandedParts(idle, ready + split, log, listening, m, idleAfter, readyAfter, logAfter);
    assert Batches(log) + (ready + split) == Batches(log) + ready + split;
  }

  /** Batches keep their places: those handed out, then the ready ones, then those of a new split. */
  ghost predicate HandedBehind<T>(log: seq<Dispatch<T>>, ready: seq<seq<T>>, split: seq<seq<T>>,
                                  logAfter: seq<Dispatch<T>>, readyAfter: seq<seq<T>>)
  {
    Batches(logAfter) + readyAfter == Batches(log) + ready + split
  }

  lemma SameBatches<T>(before: seq<Dispatch<T>>, log: seq<Dispatch<T>>, ready: seq<seq<T>>, split: seq<seq<T>>,
                       logAfter: seq<Dispatch<T>>, readyAfter: seq<seq<T>>)
    requires Batches(before) == Batches(log) && HandedBehind(log, ready, split, logAfter, readyAfter)
    ensures HandedBehind(before, ready, split, logAfter, readyAfter)
  {
  }

  /** A request joins those that wait. */
  function Joined<T>(waiting: seq<T>, message: Message<T>): seq<T> {
    if message.Enqueue? then waiting + [message.request] else waiting
  }

  /** Nothing is split off, or all that was pending, in balanced batches, one for each worker if there
      are as many requests. */
  ghost predicate Splits<T>(split: seq<seq<T>>, pending: seq<T>, rest: seq<T>, workerCount: nat) {
    if split == [] then rest == pending
    else |split| == Min(|pending|, workerCount) && Balanced(split) && Flatten(split) == pending && rest == []
  }

  lemma NotSplit<T>(pending: seq<T>, workerCount: nat)
    ensures Splits([], pending, pending, workerCount)
  {
  }

  lemma IsSplit<T>(split: seq<seq<T>>, pending: seq<T>, rest: seq<T>, workerCount: nat)
    requires |split| == Min(|pending|, workerCount) && workerCount > 0 && Balanced(split)
    requires Flatten(split) + rest == pending && rest == []
    ensures Splits(split, pending, rest, workerCount)
  {
    assert Flatten(split) + rest == Flatten(split);
  }

  lemma HandOutKeepsPartition<T>(idleWorkers: seq<nat>, log: seq<Dispatch<T>>, workerCount: nat, batch: seq<T>)
    requires Partitioned(idleWorkers, log, workerCount) && idleWorkers != []
    ensures var n := |idleWorkers| - 1;
      Partitioned(idleWorkers[..n], log + [Dispatch(idleWorkers[n], batch, false)], workerCount)
  {
    var n := |idleWorkers| - 1;
    var worker, after := idleWorkers[n], log + [Dispatch(idleWorkers[n], batch, false)];
    assert worker in idleWorkers && !Busy(log, worker);
    assert forall w :: w in idleWorkers[..n] ==> w in idleWorkers;
    assert WorksOn(after, |log|, worker);
    assert forall k: nat, w :: k < |log| ==> (WorksOn(after, k, w) <==> WorksOn(log, k, w));
    assert forall w :: WorksOn(after, |log|, w) <==> w == worker;
    forall w: nat | w < workerCount
      ensures w in idleWorkers[..n] <==> !Busy(after, w)
    {
      assert w in idleWorkers <==> w in idleWorkers[..n] || w == worker;
      if Busy(log, w) {
        var k: nat :| WorksOn(log, k, w);
        assert WorksOn(after, k, w);
      }
    }
  }

  lemma CompletionKeepsPartition<T>(idleWorkers: seq<nat>, log: seq<Dispatch<T>>, workerCount: nat, k: nat)
    requires Partitioned(idleWorkers, log, workerCount) && k < |log| && !log[k].done && log[k].worker < workerCount
    ensures Partitioned(idleWorkers + [log[k].worker], log[k := log[k].(done := true)], workerCount)
  {
    var worker, after := log[k].worker, log[k := log[k].(done := true)];
    assert WorksOn(log, k, worker) && Busy(log, worker);
    assert worker !in idleWorkers;
    assert forall l: nat, w :: WorksOn(after, l, w) <==> WorksOn(log, l, w) && l != k;
    forall w: nat | w < workerCount
      ensures w in idleWorkers + [worker] <==> !Busy(after, w)
    {
      if w != worker && Busy(log, w) {
        var l: nat :| WorksOn(log, l, w);
        assert WorksOn(after, l, w);
      }
    }
  }

  class Dispatcher<T> {
    const workerCount: nat
    var pending: seq<T>
    var readyBatches: seq<seq<T>>
    var idleWorkers: seq<nat>
    /** Workers whose channel still accepts batches. */
    var listening: set<nat>
    ghost var log: seq<Dispatch<T>>
    ghost var received: seq<T>
    ghost var unregistered: seq<T>

    /** Nothing lost, nothing overtaken: the requests received are those handed out, in the order
        of the batches, then the ready ones, then the pending ones. */
    ghost predicate Valid()
      reads this
    {
      && Partitioned(idleWorkers, log, workerCount)
      && received == Flatten(Batches(log)) + Flatten(readyBatches) + pending
      && unregistered == []
    }

    constructor (workerCount: nat)
      requires workerCount > 0
      ensures Valid() && received == [] && this.workerCount == workerCount && idleWorkers != []
    {
      this.workerCount := workerCount;
      pending, readyBatches, listening := [], [], {};
      idleWorkers := seq(workerCount, i requires 0 <= i < workerCount => workerCount - 1 - i);
      log, received, unregistered := [], [], [];
      new;
      forall w: nat | w < workerCount
        ensures w in idleWorkers
      {
        assert idleWorkers[workerCount - 1 - w] == w;
      }
      listening := Elements(idleWorkers);
    }

    method HandleMessage(message: Message<T>) returns (shutdown: bool)
      requires Valid()
      requires message.WorkerCompleted? ==> message.worker < workerCount && Busy(log, message.worker)
      modifies this`pending, this`idleWorkers, this`log, this`received
      ensures Valid() && shutdown == message.Shutdown?
      ensures received == Joined(old(received), message)
      ensures pending == Joined(old(pending), message)
      ensures idleWorkers == if message.WorkerCompleted? then old(idleWorkers) + [message.worker] else old(idleWorkers)
      ensures Batches(log) == old(Batches(log))
      ensures if message.WorkerCompleted?
              then exists k: nat :: old(WorksOn(log, k, message.worker)) && log == old(log)[k := old(log)[k].(done := true)]
              else log == old(log)
    {
      match message
      case Enqueue(request) =>
        pending, received := pending + [request], received + [request];
        shutdown := false;
      case WorkerCompleted(worker) =>
        ghost var k: nat :| WorksOn(log, k, worker);
        CompletionKeepsPartition(idleWorkers, log, workerCount, k);
        idleWorkers := idleWorkers + [worker];
        log := log[k := log[k].(done := true)];
        assert Batches(log) == old(Batches(log));
        shutdown := false;
      case Shutdown =>
        shutdown := true;
    }

    /** Hands ready batches to idle workers until one of them runs out; a batch that its worker
        does not take comes back, and the worker stays idle. */
    method DispatchReadyBatches() returns (failed: Option<seq<T>>, ghost m: nat)
      requires Partitioned(idleWorkers, log, workerCount)
      modifies this`readyBatches, this`idleWorkers, this`log
      ensures Partitioned(idleWorkers, log, workerCount)
      ensures HandedOut(old(idleWorkers), old(readyBatches), old(log), listening, m,
                        idleWorkers, if failed.None? then readyBatches else [failed.value] + readyBatches, log)
      ensures if failed.None? then idleWorkers == [] || readyBatches == []
              else idleWorkers != [] && idleWorkers[|idleWorkers| - 1] !in listening
    {
      hide Partitioned, HandedOut;
      m := 0;
      NothingHandedOut(idleWorkers, readyBatches, log, listening);
      while idleWorkers != [] && readyBatches != []
        invariant Partitioned(idleWorkers, log, workerCount)
        invariant HandedOut(old(idleWorkers), old(readyBatches), old(log), listening, m, idleWorkers, readyBatches, log)
        decreases |readyBatches|
      {
        var n := |idleWorkers| - 1;
        var worker, batch := idleWorkers[n], readyBatches[0];
        assert readyBatches == [batch] + readyBatches[1..];
        if worker !in listening {
          readyBatches := readyBatches[1..];
          return Some(batch), m;
        }
        HandOutNext(old(idleWorkers), old(readyBatches), old(log), listening, m, idleWorkers, readyBatches, log);
        HandOutKeepsPartition(idleWorkers, log, workerCount, batch);
        idleWorkers, readyBatches, log := idleWorkers[..n], readyBatches[1..], log + [Dispatch(worker, batch, false)];
        m := m + 1;
      }
      failed := None;
    }

    /** Splits the pending requests only when nothing is ready and a worker is idle, and hands out the
        ready batches and then those of the split. Afterwards an idle worker means that nothing waits. */
    method DispatchAvailable() returns (failed: Option<seq<T>>, ghost split: seq<seq<T>>, ghost m: nat)
      requires Valid() && workerCount > 0
      modifies this`pending, this`readyBatches, this`idleWorkers, this`log
      ensures Partitioned(idleWorkers, log, workerCount) && old(log) <= log
      ensures HandedOut(old(idleWorkers), old(readyBatches) + split, old(log), listening, m,
                        idleWorkers, if failed.None? then readyBatches else [failed.value] + readyBatches, log)
      ensures Splits(split, old(pending), pending, workerCount) && (split != [] ==> |old(readyBatches)| < |old(idleWorkers)|)
      ensures if failed.None? then Valid() && (idleWorkers == [] || (readyBatches == [] && pending == []))
              else && received == Flatten(Batches(log)) + failed.value + Flatten(readyBatches) + pending
                   && idleWorkers != [] && idleWorkers[|idleWorkers| - 1] !in listening
    {
      hide Partitioned, Flatten, HandedOut, Balanced, DivCeil, Batches, Splits;
      failed, m := DispatchReadyBatches();
      split := [];
      NotSplit(pending, workerCount);
      assert readyBatches + [] == readyBatches && old(readyBatches) + [] == old(readyBatches);
      HandingOutKeepsOrder(old(idleWorkers), old(readyBatches), old(log), listening, m, idleWorkers, readyBatches, log, failed);
      if failed.None? && idleWorkers != [] && readyBatches == [] {
        ghost var idle, sent, waiting := idleWorkers, log, pending;
        readyBatches, pending := SplitPending(pending, workerCount);
        split := readyBatches;
        IsSplit(split, waiting, pending, workerCount);
        FlattenNone<T>();
        ghost var more;
        failed, more := DispatchReadyBatches();
        HandingOutKeepsOrder(idle, split, sent, listening, more, idleWorkers, readyBatches, log, failed);
        assert received == Flatten(Batches(sent)) + Flatten(split) + pending;
        HandOutMore(old(idleWorkers), old(readyBatches), old(log), listening, m, idle, sent, split, more,
                    idleWorkers, if failed.None? then readyBatches else [failed.value] + readyBatches, log);
        m := m + more;
      }
    }

    /** One turn of the dispatcher loop. It stops at the end, or when the next worker no longer listens;
        whatever was not handed out is then unregistered. */
    method Turn(message: Message<T>) returns (running: bool, ghost split: seq<seq<T>>)
      requires Valid() && workerCount > 0
      requires message.WorkerCompleted? ==> message.worker < workerCount && Busy(log, message.worker)
      modifies this
      ensures received == Joined(old(received), message)
      ensures running ==> Valid() && (idleWorkers == [] || (readyBatches == [] && pending == []))
      ensures running ==> HandedBehind(old(log), old(readyBatches), split, log, readyBatches)
      ensures running ==> Splits(split, Joined(old(pending), message), pending, workerCount)
      ensures !running ==> message.Shutdown? || (idleWorkers != [] && idleWorkers[|idleWorkers| - 1] !in listening)
      ensures !running ==>
        multiset(received) == multiset(Flatten(Batches(log))) + multiset(unregistered) && readyBatches == [] && pending == []
      ensures message.Shutdown? ==> !running && log == old(log)
    {
      hide Partitioned, Flatten, HandedOut, HandedBehind, Splits, Batches, Joined;
      var shutdown := HandleMessage(message);
      var failed: Option<seq<T>> := None;
      split := [];
      if !shutdown {
        ghost var idle, sent, m := idleWorkers, log, 0;
        failed, split, m := DispatchAvailable();
        if failed.None? {
          HandedOutBatches(idle, old(readyBatches), split, sent, listening, m, idleWorkers, readyBatches, log);
          SameBatches(old(log), sent, old(readyBatches), split, log, readyBatches);
          return true, split;
        }
      }
      Stop(failed);
      running := false;
    }

    /** Unregisters a batch that came back and everything that still waits. */
    method Stop(failed: Option<seq<T>>)
      requires received == Flatten(Batches(log)) + (if failed.Some? then failed.value else []) + Flatten(readyBatches) + pending
      modifies this`pending, this`readyBatches, this`unregistered
      ensures multiset(received) == multiset(Flatten(Batches(log))) + multiset(unregistered) && readyBatches == [] && pending == []
    {
      hide Flatten;
      ghost var returned := if failed.Some? then failed.value else [];
      NothingDropped(Flatten(Batches(log)), returned, Flatten(readyBatches), pending);
      unregistered := returned + pending + Flatten(readyBatches);
      readyBatches, pending := [], [];
    }
  }

  lemma NothingDropped<T>(sent: seq<T>, returned: seq<T>, ready: seq<T>, pending: seq<T>)
    ensures multiset(sent + returned + ready + pending) == multiset(sent) + multiset(returned + pending + ready)
    ensures sent + [] + ready + pending == sent + ready + pending
  {
  }

  lemma NothingHandedOut<T>(idle: seq<nat>, ready: seq<seq<T>>, log: seq<Dispatch<T>>, listening: set<nat>)
    ensures HandedOut(idle, ready, log, listening, 0, idle, ready, log)
  {
  }

  lemma HandingOutKeepsOrder<T>(idle: seq<nat>, ready: seq<seq<T>>, log: seq<Dispatch<T>>, listening: set<nat>, m: nat,
                                idleAfter: seq<nat>, readyAfter: seq<seq<T>>, logAfter: seq<Dispatch<T>>, failed: Option<seq<T>>)
    requires HandedOut(idle, ready, log, listening, m, idleAfter, if failed.None? then readyAfter else [failed.value] + readyAfter, logAfter)
    ensures log <= logAfter
    ensures Flatten(Batches(log)) + Flatten(ready) ==
      Flatten(Batches(logAfter)) + (if failed.None? then [] else failed.value) + Flatten(readyAfter)
  {
    hide Flatten, HandedOut, Batches;
    var left := if failed.None? then readyAfter else [failed.value] + readyAfter;
    HandedParts(idle, ready, log, listening, m, idleAfter, left, logAfter);
    var sent := ready[..m];
    FlattenConcat(sent, left);
    FlattenConcat(Batches(log), sent);
    if failed.Some? {
      FlattenConcat([failed.value], readyAfter);
      FlattenOne(failed.value);
    }
    Regroup(Flatten(Batches(log)), Flatten(sent), if failed.None? then [] else failed.value, Flatten(readyAfter));
  }

  lemma HandedParts<T>(idle: seq<nat>, ready: seq<seq<T>>, log: seq<Dispatch<T>>, listening: set<nat>, m: nat,
                       idleAfter: seq<nat>, left: seq<seq<T>>, logAfter: seq<Dispatch<T>>)
    requires HandedOut(idle, ready, log, listening, m, idleAfter, left, logAfter)
    ensures m <= |ready| && ready == ready[..m] + left && log <= logAfter && Batches(logAfter) == Batches(log) + ready[..m]
  {
    HandedBatches(idle, ready, m);
  }

  lemma HandedBatches<T>(idle: seq<nat>, ready: seq<seq<T>>, m: nat)
    requires m <= |idle| && m <= |ready|
    ensures |Handed(idle, ready, m)| == m && Batches(Handed(idle, ready, m)) == ready[..m]
  {
  }

  lemma Regroup<T>(a: seq<T>, b: seq<T>, c: seq<T>, d: seq<T>)
    ensures a + (b + (c + d)) == (a + b) + c + d
    ensures c == [] ==> c + d == d
  {
  }
}
