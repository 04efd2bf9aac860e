/** The batched query engine's bookkeeping and what it means: the source it reads, the answer it
    owes each query, and the progress invariant that ties limits, emitted sets and the delivery
    log to the packets settled so far. */
module BatchedSpec {
  import opened Events
  import opened Answer

  /** What one query run reads: the hot snapshot, the partition version read for each day, the
      two visibility tests and the Bloom test of a day for a group of terms. */
  datatype Source = Source(
    hot: seq<Packet>,
    partitions: map<U64, seq<Packet>>,
    hotVisible: Packet -> bool,
    storeVisible: Packet -> bool,
    bloom: (U64, set<Term>) -> bool
  )
  {
    function All(): set<Packet> {
      Elements(hot) + set day, p | day in partitions && p in partitions[day] :: p
    }

    /** Partitions are sorted and hold only their own day, and an id names one packet. */
    ghost predicate Valid() {
      && (forall day :: day in partitions ==> Sorted(partitions[day]))
      && (forall day, p :: day in partitions && p in partitions[day] ==> UnixDay(p) == day)
      && IdsDetermine(All())
    }
  }

  /** What the batched engine counts as an answer to a filter: a packet from the hot snapshot is
      judged by the hot visibility index, one from a partition by the store as well, and search
      terms in a partition are looked for only where the Bloom test lets the day through. */
  predicate Eligible(src: Source, f: Filter, p: Packet) {
    && MatchesWithoutSearch(f, p)
    && (f.terms != [] ==>
          && HasTerms(p.text, Elements(f.terms))
          && src.hotVisible(p)
          && (p in src.hot || (src.bloom(UnixDay(p), Elements(f.terms)) && src.storeVisible(p))))
  }

  function Wanted(src: Source, f: Filter): set<Packet> {
    set p | p in src.All() && Eligible(src, f, p)
  }

  /** The declarative answer of a query: the union of its filters' first-`limit` matches. */
  ghost function Target(src: Source, filters: seq<Filter>): set<Packet> {
    set p | p in src.All() && exists f :: f in filters && p in Cut(Wanted(src, f), f.limit)
  }

  /** The Bloom test never hides a partition packet that contains all the terms. */
  ghost predicate BloomTruthful(src: Source, terms: set<Term>) {
    forall day, p :: day in src.partitions && p in src.partitions[day] && HasTerms(p.text, terms) ==> src.bloom(day, terms)
  }

  /** Then the answer mentions neither days nor Bloom tests: matching and visible packets. */
  lemma BloomOnlyPrunes(src: Source, f: Filter)
    requires src.Valid() && (f.terms != [] ==> BloomTruthful(src, Elements(f.terms)))
    ensures Wanted(src, f) == set p | p in src.All() && MatchesWithoutSearch(f, p)
                                   && (f.terms != [] ==> HasTerms(p.text, Elements(f.terms)) && src.hotVisible(p) && (p in src.hot || src.storeVisible(p)))
  {
    forall p | p in src.All() && p !in src.hot && f.terms != [] && HasTerms(p.text, Elements(f.terms))
      ensures src.bloom(UnixDay(p), Elements(f.terms))
    {
      var day :| day in src.partitions && p in src.partitions[day];
      assert UnixDay(p) == day;
    }
  }

  // ----- the engine's state -----

  datatype FilterState = FilterState(queryIndex: nat, filter: Filter, remaining: Option<nat>, searchGroup: Option<nat>)

  datatype QueryState = QueryState(active: bool, emitted: set<Id>)

  /** One call of `emit`: a packet and the queries it is sent to. */
  datatype Delivery = Delivery(packet: Packet, queries: seq<nat>)

  datatype Candidate = Candidate(packet: Packet, searchGroups: seq<nat>, fromPartition: bool)

  datatype Run = Run(states: seq<FilterState>, queryStates: seq<QueryState>, log: seq<Delivery>)

  /** What query `q` has received. */
  function Received(log: seq<Delivery>, q: nat): seq<Packet> {
    if log == [] then []
    else
      var last := log[|log| - 1];
      Received(log[..|log| - 1], q) + (if q in last.queries then [last.packet] else [])
  }

  /** The filter states are those of the queries: nothing lost, nothing invented, and each
      filter's group is the group of exactly its terms. */
  ghost predicate StatesFor(states: seq<FilterState>, queries: seq<seq<Filter>>, groups: seq<set<Term>>) {
    && (forall j :: 0 <= j < |states| ==>
          states[j].queryIndex < |queries| && states[j].filter in queries[states[j].queryIndex])
    && (forall q, f :: 0 <= q < |queries| && f in queries[q] ==> Represented(states, q, f))
    && (forall j :: 0 <= j < |states| ==> GroupFor(states[j], groups))
  }

  ghost predicate Represented(states: seq<FilterState>, q: nat, f: Filter) {
    exists j :: 0 <= j < |states| && states[j].queryIndex == q && states[j].filter == f
  }

  predicate GroupFor(state: FilterState, groups: seq<set<Term>>) {
    if state.filter.terms == [] then state.searchGroup == None
    else state.searchGroup.Some? && state.searchGroup.value < |groups| && groups[state.searchGroup.value] == Elements(state.filter.terms)
  }

  predicate Active(run: Run, j: nat)
    requires j < |run.states|
  {
    var q := run.states[j].queryIndex;
    q < |run.queryStates| && run.queryStates[q].active
  }

  /** Filter `j` can still be answered by a packet of `day`. */
  predicate Live(run: Run, j: nat, day: U64)
    requires j < |run.states|
  {
    run.states[j].remaining != Some(0) && Active(run, j) && DayOverlapsFilter(day, run.states[j].filter)
  }

  ghost predicate FilterProgress(src: Source, state: FilterState, done: set<Packet>) {
    state.remaining == Rest(state.filter.limit, |Wanted(src, state.filter) * done|)
  }

  /** Whatever happens, a query holds a prefix of its answer; while it is active, it holds all
      of its answer among the settled packets. */
  ghost predicate QueryProgress(src: Source, filters: seq<Filter>, state: QueryState, received: seq<Packet>, done: set<Packet>) {
    && Elements(received) <= done
    && ListsPrefix(received, Target(src, filters))
    && (state.active ==>
          && Elements(received) == Target(src, filters) * done
          && state.emitted == IdsOf(Elements(received)))
  }

  ghost predicate FiltersProgress(src: Source, run: Run, done: set<Packet>) {
    forall j :: 0 <= j < |run.states| && Active(run, j) ==> FilterProgress(src, run.states[j], done)
  }

  ghost predicate Progress(src: Source, queries: seq<seq<Filter>>, run: Run, done: set<Packet>) {
    && |run.queryStates| == |queries|
    && DownClosed(src.All(), done)
    && FiltersProgress(src, run, done)
    && (forall q :: 0 <= q < |queries| ==>
          QueryProgress(src, queries[q], run.queryStates[q], Received(run.log, q), done))
  }

  // ----- progress is kept -----

  /** A filter whose limit is spent, or which wants none of the newly settled packets, is
      owed nothing new. */
  lemma FilterSkips(src: Source, state: FilterState, done: set<Packet>, done': set<Packet>)
    requires src.Valid() && DownClosed(src.All(), done) && DownClosed(src.All(), done') && done <= done'
    requires FilterProgress(src, state, done)
    requires state.remaining != Some(0) ==> Wanted(src, state.filter) * (done' - done) == {}
    ensures FilterProgress(src, state, done')
    ensures Cut(Wanted(src, state.filter), state.filter.limit) * done' == Cut(Wanted(src, state.filter), state.filter.limit) * done
  {
    SkipKeepsRest(src.All(), Wanted(src, state.filter), state.filter.limit, done, done');
  }

  lemma FilterTakes(src: Source, state: FilterState, done: set<Packet>, done': set<Packet>, p: Packet)
    requires src.Valid() && DownClosed(src.All(), done) && DownClosed(src.All(), done') && done <= done'
    requires FilterProgress(src, state, done)
    requires state.remaining != Some(0) && Wanted(src, state.filter) * (done' - done) == {p}
    ensures FilterProgress(src, state.(remaining := Spend(state.remaining)), done')
    ensures Cut(Wanted(src, state.filter), state.filter.limit) * done' == Cut(Wanted(src, state.filter), state.filter.limit) * done + {p}
  {
    TakeSpendsOne(src.All(), Wanted(src, state.filter), state.filter.limit, done, done', p);
  }

  /** The packets of `extra` that filter `j` takes when the settled set grows. */
  ghost predicate TakesOnly(src: Source, run: Run, done: set<Packet>, done': set<Packet>, p: Packet, takes: seq<bool>) {
    && |takes| == |run.states|
    && (forall j :: 0 <= j < |takes| && takes[j] ==> Active(run, j) && run.states[j].remaining != Some(0))
    && (forall j :: 0 <= j < |takes| && Active(run, j) && run.states[j].remaining != Some(0) ==>
          Wanted(src, run.states[j].filter) * (done' - done) == (if takes[j] then {p} else {}))
  }

  ghost predicate WantedBy(run: Run, takes: seq<bool>, q: nat)
    requires |takes| == |run.states|
  {
    exists j :: 0 <= j < |takes| && takes[j] && run.states[j].queryIndex == q
  }

  /** What an active query is owed by the newly settled packets is `p` or nothing. */
  lemma NewlyOwed(src: Source, queries: seq<seq<Filter>>, groups: seq<set<Term>>, run: Run, done: set<Packet>, done': set<Packet>, p: Packet, takes: seq<bool>, q: nat, x: Packet)
    requires src.Valid() && StatesFor(run.states, queries, groups) && FiltersProgress(src, run, done)
    requires |run.queryStates| == |queries|
    requires DownClosed(src.All(), done) && DownClosed(src.All(), done') && done <= done'
    requires TakesOnly(src, run, done, done', p, takes)
    requires q < |queries| && run.queryStates[q].active
    requires x in Target(src, queries[q]) && x in done' && x !in done
    ensures x == p && WantedBy(run, takes, q)
  {
    var f :| f in queries[q] && x in Cut(Wanted(src, f), f.limit);
    assert Represented(run.states, q, f);
    var j :| 0 <= j < |run.states| && run.states[j].queryIndex == q && run.states[j].filter == f;
    assert Active(run, j);
    assert x in Cut(Wanted(src, f), f.limit) * done';
    if takes[j] {
      FilterTakes(src, run.states[j], done, done', p);
    } else {
      FilterSkips(src, run.states[j], done, done');
    }
  }

  lemma OwedWhenWanted(src: Source, queries: seq<seq<Filter>>, groups: seq<set<Term>>, run: Run, done: set<Packet>, done': set<Packet>, p: Packet, takes: seq<bool>, q: nat)
    requires src.Valid() && StatesFor(run.states, queries, groups) && FiltersProgress(src, run, done)
    requires |run.queryStates| == |queries|
    requires DownClosed(src.All(), done) && DownClosed(src.All(), done') && done <= done'
    requires TakesOnly(src, run, done, done', p, takes)
    requires q < |queries| && WantedBy(run, takes, q)
    ensures p in Target(src, queries[q]) && p in done'
  {
    var j :| 0 <= j < |takes| && takes[j] && run.states[j].queryIndex == q;
    var f := run.states[j].filter;
    FilterTakes(src, run.states[j], done, done', p);
    assert p in Cut(Wanted(src, f), f.limit) * done';
  }

  lemma TargetOfActive(src: Source, queries: seq<seq<Filter>>, groups: seq<set<Term>>, run: Run, done: set<Packet>, done': set<Packet>, p: Packet, takes: seq<bool>, q: nat)
    requires src.Valid() && StatesFor(run.states, queries, groups) && FiltersProgress(src, run, done)
    requires |run.queryStates| == |queries|
    requires DownClosed(src.All(), done) && DownClosed(src.All(), done') && done <= done'
    requires TakesOnly(src, run, done, done', p, takes)
    requires q < |queries| && run.queryStates[q].active
    ensures Target(src, queries[q]) * done' == Target(src, queries[q]) * done + (if WantedBy(run, takes, q) then {p} else {})
  {
    var target := Target(src, queries[q]);
    forall x | x in target && x in done' && x !in done
      ensures x == p && WantedBy(run, takes, q)
    {
      NewlyOwed(src, queries, groups, run, done, done', p, takes, q, x);
    }
    if WantedBy(run, takes, q) {
      OwedWhenWanted(src, queries, groups, run, done, done', p, takes, q);
    }
  }

  /** The step every emission takes: the filters that want `p` spend one of their limit, and
      each active query one of whose filters wants it receives it, once. */
  ghost predicate Emitted(run: Run, run': Run, takes: seq<bool>, p: Packet) {
    && |takes| == |run.states| == |run'.states|
    && |run'.queryStates| == |run.queryStates|
    && (forall j :: 0 <= j < |takes| ==>
          run'.states[j] == if takes[j] then run.states[j].(remaining := Spend(run.states[j].remaining)) else run.states[j])
    && (forall q :: 0 <= q < |run.queryStates| ==>
          && (run'.queryStates[q].active ==> run.queryStates[q].active)
          && run'.queryStates[q].emitted == run.queryStates[q].emitted + (if WantedBy(run, takes, q) then {p.id} else {})
          && Received(run'.log, q) == Received(run.log, q) +
             (if WantedBy(run, takes, q) && p.id !in run.queryStates[q].emitted then [p] else []))
  }

  lemma EmitKeepsQuery(src: Source, queries: seq<seq<Filter>>, groups: seq<set<Term>>, run: Run, run': Run,
                       done: set<Packet>, done': set<Packet>, p: Packet, takes: seq<bool>, q: nat)
    requires src.Valid() && StatesFor(run.states, queries, groups) && Progress(src, queries, run, done)
    requires DownClosed(src.All(), done') && done <= done' && p in done' - done
    requires TakesOnly(src, run, done, done', p, takes) && Emitted(run, run', takes, p)
    requires q < |queries|
    ensures QueryProgress(src, queries[q], run'.queryStates[q], Received(run'.log, q), done')
  {
    if run.queryStates[q].active {
      TargetOfActive(src, queries, groups, run, done, done', p, takes, q);
      var received := Received(run.log, q);
      assert p.id !in IdsOf(Elements(received));
      if WantedBy(run, takes, q) {
        ListingGrows(src.All(), done, received, p);
        assert Received(run'.log, q) == received + [p];
      } else {
        assert Received(run'.log, q) == received;
      }
      assert InitialPart(Target(src, queries[q]) * done', Target(src, queries[q]));
    } else {
      assert forall j :: 0 <= j < |takes| && takes[j] ==> Active(run, j);
      assert Received(run'.log, q) == Received(run.log, q);
    }
  }

  /** Handling a fresh candidate keeps the progress invariant, whatever `emit` answered. */
  lemma EmitKeepsProgress(src: Source, queries: seq<seq<Filter>>, groups: seq<set<Term>>, run: Run, run': Run,
                          done: set<Packet>, done': set<Packet>, p: Packet, takes: seq<bool>)
    requires src.Valid() && StatesFor(run.states, queries, groups) && Progress(src, queries, run, done)
    requires DownClosed(src.All(), done') && done <= done' && p in done' - done
    requires TakesOnly(src, run, done, done', p, takes) && Emitted(run, run', takes, p)
    ensures Progress(src, queries, run', done')
  {
    forall q | 0 <= q < |queries|
      ensures QueryProgress(src, queries[q], run'.queryStates[q], Received(run'.log, q), done')
    {
      EmitKeepsQuery(src, queries, groups, run, run', done, done', p, takes, q);
    }
    forall j | 0 <= j < |run'.states| && Active(run', j)
      ensures FilterProgress(src, run'.states[j], done')
    {
      assert Active(run, j);
      if takes[j] {
        FilterTakes(src, run.states[j], done, done', p);
      } else {
        FilterSkips(src, run.states[j], done, done');
      }
    }
  }

  /** Settling packets no live filter wants keeps the progress invariant. */
  lemma SkipKeepsProgress(src: Source, queries: seq<seq<Filter>>, groups: seq<set<Term>>, run: Run, done: set<Packet>, done': set<Packet>)
    requires src.Valid() && StatesFor(run.states, queries, groups) && Progress(src, queries, run, done)
    requires DownClosed(src.All(), done') && done <= done'
    requires forall j :: 0 <= j < |run.states| && Active(run, j) && run.states[j].remaining != Some(0) ==>
               Wanted(src, run.states[j].filter) * (done' - done) == {}
    ensures Progress(src, queries, run, done')
  {
    forall j | 0 <= j < |run.states| && Active(run, j)
      ensures FilterProgress(src, run.states[j], done')
    {
      FilterSkips(src, run.states[j], done, done');
    }
    var takes := seq(|run.states|, _ => false);
    forall q | 0 <= q < |queries|
      ensures QueryProgress(src, queries[q], run.queryStates[q], Received(run.log, q), done')
    {
      if run.queryStates[q].active {
        forall x | x in Target(src, queries[q]) && x in done' && x !in done
          ensures false
        {
          NewlyOwed(src, queries, groups, run, done, done', x, takes, q, x);
        }
        assert Target(src, queries[q]) * done' == Target(src, queries[q]) * done;
      }
    }
  }
}
