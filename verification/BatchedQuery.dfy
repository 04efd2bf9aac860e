/** The batched query engine: one newest-first pass over the days answers many queries. */
module BatchedQuery {
  import opened Events
  import opened Answer
  import opened Days
  import opened SearchMatching
  import opened BatchedSpec

  /** What `emit` answers: an error that stops the run, or the queries to drop. */
  datatype Reply = Failed | Dropped(queries: seq<nat>)

  /** The callbacks: any functions of the deliveries made so far. */
  datatype Client = Client(
    isActive: (seq<Delivery>, U64, nat) -> bool,
    emit: seq<Delivery> -> Reply
  )

  /** The days a run has asked `isActive` about, each with the number of deliveries made before. */
  type Rounds = seq<(nat, U64)>

  /** After delivery `n` the client named query `q` to be dropped. */
  predicate DroppedAfter(client: Client, log: seq<Delivery>, n: nat, q: nat)
    requires n <= |log|
  {
    client.emit(log[..n]).Dropped? && q in client.emit(log[..n]).queries
  }

  /** The client has taken every delivery, or, when the run is not `ok`, every one but the last. */
  ghost predicate Answered(client: Client, log: seq<Delivery>, ok: bool) {
    && (forall n: nat :: 0 < n < |log| ==> client.emit(log[..n]).Dropped?)
    && (if ok then log == [] || client.emit(log).Dropped? else log != [] && client.emit(log).Failed?)
  }

  lemma AnsweredNext(client: Client, log: seq<Delivery>, d: Delivery)
    requires Answered(client, log, true)
    ensures Answered(client, log + [d], client.emit(log + [d]).Dropped?)
  {
    forall n: nat | 0 < n < |log + [d]|
      ensures client.emit((log + [d])[..n]).Dropped?
    {
      assert (log + [d])[..n] == log[..n];
      assert log[..|log|] == log;
    }
  }

  /** So `ok` tells whether the client has taken everything. */
  lemma AnsweredMeans(client: Client, log: seq<Delivery>, ok: bool)
    requires Answered(client, log, ok)
    ensures ok <==> forall n: nat :: 0 < n <= |log| ==> client.emit(log[..n]).Dropped?
  {
    assert log[..|log|] == log;
  }

  /** After `n` deliveries the run asked, and the client found query `q` inactive. */
  ghost predicate FoundInactive(client: Client, rounds: Rounds, log: seq<Delivery>, n: nat, q: nat)
    requires n <= |log|
  {
    exists day :: (n, day) in rounds && !client.isActive(log[..n], day, q)
  }

  /** The client has dropped query `q`, in one way or the other, when `n` deliveries were made. */
  ghost predicate DroppedAt(client: Client, rounds: Rounds, log: seq<Delivery>, n: nat, q: nat)
    requires n <= |log|
  {
    (n > 0 && DroppedAfter(client, log, n, q)) || FoundInactive(client, rounds, log, n, q)
  }

  /** A query is inactive exactly when the client has dropped it. */
  ghost predicate OnlyDropsDeactivate(client: Client, rounds: Rounds, queryStates: seq<QueryState>, log: seq<Delivery>) {
    forall q :: 0 <= q < |queryStates| && !queryStates[q].active ==> exists n: nat :: n <= |log| && DroppedAt(client, rounds, log, n, q)
  }

  /** A dropped query is inactive and has received nothing since it was dropped. */
  ghost predicate DropsAreFinal(client: Client, rounds: Rounds, queryStates: seq<QueryState>, log: seq<Delivery>) {
    forall n: nat, q: nat :: n <= |log| && q < |queryStates| && DroppedAt(client, rounds, log, n, q) ==>
      !queryStates[q].active && Received(log, q) == Received(log[..n], q)
  }

  function DaysAsked(rounds: Rounds): set<U64> {
    set round | round in rounds :: round.1
  }

  /** The run asked once about each day, newest first: after every delivery of a newer day, and
      before every other delivery. */
  ghost predicate OneRoundPerDay(rounds: Rounds, log: seq<Delivery>) {
    && (forall a, b :: 0 <= a < b < |rounds| ==> rounds[a].1 > rounds[b].1)
    && (forall a :: 0 <= a < |rounds| ==> rounds[a].0 <= |log|)
    && (forall i :: 0 <= i < |log| ==> UnixDay(log[i].packet) in DaysAsked(rounds))
    && (forall a, i :: 0 <= a < |rounds| && 0 <= i < |log| ==> (i < rounds[a].0 <==> UnixDay(log[i].packet) > rounds[a].1))
  }

  /** Only packets of `day` were delivered since. */
  predicate Continues(before: seq<Delivery>, log: seq<Delivery>, day: U64) {
    before <= log && forall i :: |before| <= i < |log| ==> UnixDay(log[i].packet) == day
  }

  lemma RoundOfDay(rounds: Rounds, before: seq<Delivery>, log: seq<Delivery>, day: U64)
    requires OneRoundPerDay(rounds, before) && Continues(before, log, day)
    requires forall later :: later in DaysAsked(rounds) ==> later > day
    ensures OneRoundPerDay(rounds + [(|before|, day)], log)
    ensures DaysAsked(rounds + [(|before|, day)]) == DaysAsked(rounds) + {day}
  {
    var more := rounds + [(|before|, day)];
    assert (|before|, day) in more;
    forall later
      ensures later in DaysAsked(more) <==> later in DaysAsked(rounds) + {day}
    {
      if later in DaysAsked(rounds) {
        var round :| round in rounds && round.1 == later;
        assert round in more;
      }
    }
    forall a | 0 <= a < |rounds|
      ensures rounds[a].1 in DaysAsked(rounds)
    {
      assert rounds[a] in rounds;
    }
    forall i | 0 <= i < |before|
      ensures log[i] == before[i]
    {
    }
  }

  lemma ContinuesFurther(before: seq<Delivery>, between: seq<Delivery>, log: seq<Delivery>, day: U64)
    ensures Continues(before, before, day)
    ensures Continues(before, between, day) && Continues(between, log, day) ==> Continues(before, log, day)
  {
  }

  predicate NoDuplicates<T(==)>(s: seq<T>) {
    forall i, k :: 0 <= i < k < |s| ==> s[i] != s[k]
  }

  lemma DropsStayFinal(client: Client, rounds: Rounds, before: seq<QueryState>, after: seq<QueryState>, log: seq<Delivery>)
    requires DropsAreFinal(client, rounds, before, log) && |after| == |before|
    requires forall q :: 0 <= q < |after| && after[q].active ==> before[q].active
    ensures DropsAreFinal(client, rounds, after, log)
  {
  }

  /** Asking about a day and switching off what the client finds inactive. */
  lemma RoundKeepsDrops(client: Client, rounds: Rounds, before: seq<QueryState>, after: seq<QueryState>, log: seq<Delivery>, day: U64)
    requires DropsAreFinal(client, rounds, before, log) && OnlyDropsDeactivate(client, rounds, before, log) && |after| == |before|
    requires forall q: nat :: q < |after| ==> after[q].active == (before[q].active && client.isActive(log, day, q))
    ensures DropsAreFinal(client, rounds + [(|log|, day)], after, log)
    ensures OnlyDropsDeactivate(client, rounds + [(|log|, day)], after, log)
  {
    var more := rounds + [(|log|, day)];
    assert log[..|log|] == log && (|log|, day) in more;
    forall n: nat, q: nat | n <= |log| && q < |after| && DroppedAt(client, more, log, n, q)
      ensures !after[q].active && Received(log, q) == Received(log[..n], q)
    {
      assert DroppedAt(client, rounds, log, n, q) || n == |log|;
    }
    forall q | 0 <= q < |after| && !after[q].active
      ensures exists n: nat :: n <= |log| && DroppedAt(client, more, log, n, q)
    {
      if before[q].active {
        assert FoundInactive(client, more, log, |log|, q);
        assert DroppedAt(client, more, log, |log|, q);
      } else {
        var n: nat :| n <= |log| && DroppedAt(client, rounds, log, n, q);
        assert DroppedAt(client, more, log, n, q);
      }
    }
  }

  /** What was dropped before a delivery was dropped there in the longer log too. */
  lemma DroppedBefore(client: Client, rounds: Rounds, log: seq<Delivery>, d: Delivery, n: nat, q: nat)
    requires n <= |log|
    ensures (log + [d])[..n] == log[..n]
    ensures DroppedAt(client, rounds, log + [d], n, q) <==> DroppedAt(client, rounds, log, n, q)
  {
    assert (log + [d])[..n] == log[..n];
  }

  /** A delivery to active queries, dropping what the client then names. */
  lemma DeliveryKeepsDrops(client: Client, rounds: Rounds, before: seq<QueryState>, after: seq<QueryState>, log: seq<Delivery>, p: Packet, queries: seq<nat>)
    requires DropsAreFinal(client, rounds, before, log) && OnlyDropsDeactivate(client, rounds, before, log) && |after| == |before|
    requires forall round :: round in rounds ==> round.0 <= |log|
    requires forall q :: q in queries ==> q < |before| && before[q].active
    requires forall q: nat :: q < |after| ==>
               after[q].active == (before[q].active && !DroppedAfter(client, log + [Delivery(p, queries)], |log| + 1, q))
    ensures DropsAreFinal(client, rounds, after, log + [Delivery(p, queries)])
    ensures OnlyDropsDeactivate(client, rounds, after, log + [Delivery(p, queries)])
  {
    var d := Delivery(p, queries);
    var longer := log + [d];
    DeliveryLogged(log, p, queries);
    assert longer[..|longer|] == longer;
    forall n: nat, q: nat | n <= |longer| && q < |after| && DroppedAt(client, rounds, longer, n, q)
      ensures !after[q].active && Received(longer, q) == Received(longer[..n], q)
    {
      if n <= |log| {
        DroppedBefore(client, rounds, log, d, n, q);
      }
    }
    forall q | 0 <= q < |after| && !after[q].active
      ensures exists n: nat :: n <= |longer| && DroppedAt(client, rounds, longer, n, q)
    {
      if before[q].active {
        assert DroppedAt(client, rounds, longer, |longer|, q);
      } else {
        var n: nat :| n <= |log| && DroppedAt(client, rounds, log, n, q);
        DroppedBefore(client, rounds, log, d, n, q);
      }
    }
  }

  // ----- filter states and search groups -----

  /** One state per filter, in order; filters with the same set of terms share one group. */
  method BuildFilterStates(queries: seq<seq<Filter>>) returns (states: seq<FilterState>, groups: seq<set<Term>>)
    ensures StatesFor(states, queries, groups)
    ensures forall j :: 0 <= j < |states| ==> states[j].remaining == states[j].filter.limit
    ensures forall g :: 0 <= g < |groups| ==> groups[g] != {}
    ensures forall g, h :: 0 <= g < h < |groups| ==> groups[g] != groups[h]
  {
    var groupIndexes: map<set<Term>, nat> := map[];
    states, groups := [], [];
    for q := 0 to |queries|
      invariant GroupsIndexed(groups, groupIndexes)
      invariant StatesBuilt(states, queries, groups, q, 0)
    {
      for k := 0 to |queries[q]|
        invariant GroupsIndexed(groups, groupIndexes)
        invariant StatesBuilt(states, queries, groups, q, k)
      {
        var f := queries[q][k];
        var terms := Elements(f.terms);
        var group: Option<nat> := None;
        ghost var before := groups;
        if f.terms != [] {
          if terms !in groupIndexes {
            assert f.terms[0] in terms;
            groupIndexes := groupIndexes[terms := |groups|];
            groups := groups + [terms];
          }
          group := Some(groupIndexes[terms]);
        }
        StateBuilt(states, queries, before, groups, q, k, FilterState(q, f, f.limit, group));
        states := states + [FilterState(q, f, f.limit, group)];
      }
    }
  }

  ghost predicate GroupsIndexed(groups: seq<set<Term>>, groupIndexes: map<set<Term>, nat>) {
    && (forall terms :: terms in groupIndexes ==> groupIndexes[terms] < |groups| && groups[groupIndexes[terms]] == terms)
    && (forall g :: 0 <= g < |groups| ==> groups[g] != {} && groups[g] in groupIndexes && groupIndexes[groups[g]] == g)
  }

  /** The states of the queries before `q`, and of the first `k` filters of query `q`. */
  ghost predicate StatesBuilt(states: seq<FilterState>, queries: seq<seq<Filter>>, groups: seq<set<Term>>, q: nat, k: nat) {
    && (forall j :: 0 <= j < |states| ==> StateBuiltFor(states[j], queries, groups))
    && (forall q', k' :: 0 <= q' < |queries| && 0 <= k' < |queries[q']| && (q' < q || (q' == q && k' < k)) ==>
          Represented(states, q', queries[q'][k']))
  }

  ghost predicate StateBuiltFor(state: FilterState, queries: seq<seq<Filter>>, groups: seq<set<Term>>) {
    && state.queryIndex < |queries| && state.filter in queries[state.queryIndex]
    && state.remaining == state.filter.limit
    && GroupFor(state, groups)
  }

  lemma StateBuilt(states: seq<FilterState>, queries: seq<seq<Filter>>, groups: seq<set<Term>>, groups': seq<set<Term>>, q: nat, k: nat, state: FilterState)
    requires q < |queries| && k < |queries[q]|
    requires StatesBuilt(states, queries, groups, q, k) && groups <= groups'
    requires state.queryIndex == q && state.filter == queries[q][k] && StateBuiltFor(state, queries, groups')
    ensures StatesBuilt(states + [state], queries, groups', q, k + 1)
  {
    var states' := states + [state];
    assert states'[|states|] == state;
    forall q', k' | 0 <= q' < |queries| && 0 <= k' < |queries[q']| && (q' < q || (q' == q && k' < k + 1))
      ensures Represented(states', q', queries[q'][k'])
    {
      if q' < q || k' < k {
        assert Represented(states, q', queries[q'][k']);
        var j :| 0 <= j < |states| && states[j].queryIndex == q' && states[j].filter == queries[q'][k'];
        assert states'[j] == states[j];
      }
    }
  }

  // ----- a day's hot candidates -----

  predicate SortedCandidates(s: seq<Candidate>) {
    forall i, j :: 0 <= i < j < |s| ==> !Before(s[j].packet, s[i].packet)
  }

  function SortCandidates(s: seq<Candidate>): (r: seq<Candidate>)
    ensures SortedCandidates(r) && multiset(r) == multiset(s)
  {
    SortBy((c: Candidate) => c.packet, s)
  }

  // ----- a day's partition candidates -----

  datatype SourceKind = Indexed | Scan | Empty

  /** Neither the scan nor any reported group asks for a packet with this text. */
  ghost predicate Unwanted(groups: seq<set<Term>>, text: Text, enabled: seq<bool>, requested: seq<bool>, includeNonSearch: bool) {
    !includeNonSearch && forall g: nat :: !Reported(groups, text, enabled, requested, g)
  }

  /** The open partition of one day, read forward from `position`. Record `i` of its search
      index describes packet `i`. */
  class PartitionCandidateSource {
    const kind: SourceKind
    const packets: seq<Packet>
    var position: nat

    ghost predicate Valid()
      reads this
    {
      position <= |packets| && (kind == Empty ==> packets == [])
    }

    constructor (kind: SourceKind, packets: seq<Packet>)
      requires kind == Empty ==> packets == []
      ensures Valid() && this.kind == kind && this.packets == packets && position == 0
    {
      this.kind := kind;
      this.packets := packets;
      position := 0;
    }

    /** The next packet somebody asks for; everything passed over is asked for by nobody.
        A plain scan is opened only when no group is enabled. */
    method NextCandidate(enabled: seq<bool>, requested: seq<bool>, includeNonSearch: bool, matcher: SearchMatcher)
      returns (candidate: Option<Candidate>)
      requires Valid() && matcher.Valid()
      requires kind == Scan ==> forall g: nat :: !Flag(enabled, g)
      modifies this`position, matcher
      ensures Valid() && matcher.Valid()
      ensures old(position) <= position
      ensures candidate.Some? ==>
                && old(position) < position
                && candidate.value.packet == packets[position - 1]
                && candidate.value.fromPartition
                && IsReport(candidate.value.searchGroups, matcher.groups, packets[position - 1].text, enabled, requested)
      ensures forall i :: old(position) <= i < (if candidate.Some? then position - 1 else |packets|) ==>
                Unwanted(matcher.groups, packets[i].text, enabled, requested, includeNonSearch)
    {
      match kind
      case Indexed =>
        while position < |packets|
          invariant old(position) <= position <= |packets| && matcher.Valid()
          invariant forall i :: old(position) <= i < position ==>
                      Unwanted(matcher.groups, packets[i].text, enabled, requested, includeNonSearch)
        {
          var eventIndex := position;
          position := position + 1;
          var searchGroups := matcher.MatchingGroups(packets[eventIndex].text, enabled, requested);
          if !includeNonSearch && searchGroups == [] {
            assert forall g: nat :: g !in searchGroups;
            continue;
          }
          return Some(Candidate(packets[eventIndex], searchGroups, true));
        }
        candidate := None;
      case Scan =>
        if !includeNonSearch || position == |packets| {
          candidate := None;
        } else {
          position := position + 1;
          candidate := Some(Candidate(packets[position - 1], [], true));
        }
      case Empty =>
        candidate := None;
    }
  }

  // ----- what a candidate means to the filters that are still live -----

  /** The tests `EmitCandidate` applies to a live filter. */
  predicate Selected(src: Source, state: FilterState, c: Candidate) {
    && (state.searchGroup.Some? ==> state.searchGroup.value in c.searchGroups)
    && MatchesWithoutSearch(state.filter, c.packet)
    && (state.searchGroup.Some? ==> src.hotVisible(c.packet) && (!c.fromPartition || src.storeVisible(c.packet)))
  }

  predicate Takes(src: Source, run: Run, c: Candidate, day: U64, j: nat)
    requires j < |run.states|
  {
    Live(run, j, day) && Selected(src, run.states[j], c)
  }

  ghost function TakesOf(src: Source, run: Run, c: Candidate, day: U64): seq<bool> {
    seq(|run.states|, j requires 0 <= j < |run.states| => Takes(src, run, c, day, j))
  }

  /** For every live filter, the tests applied to the candidate decide whether the packet
      counts as an answer. */
  ghost predicate FitsLive(src: Source, run: Run, day: U64, c: Candidate) {
    forall j :: 0 <= j < |run.states| && Live(run, j, day) ==>
      (Selected(src, run.states[j], c) <==> c.packet in Wanted(src, run.states[j].filter))
  }

  /** No live filter can match a packet with this text by search, and none matches without. */
  ghost predicate OutOfReach(run: Run, groups: seq<set<Term>>, day: U64, text: Text) {
    forall j :: 0 <= j < |run.states| && Live(run, j, day) ==>
      GroupFor(run.states[j], groups) && run.states[j].searchGroup.Some? && !HasTerms(text, groups[run.states[j].searchGroup.value])
  }

  /** Requests cover every live filter. */
  ghost predicate Serves(run: Run, day: U64, requested: seq<bool>, includeNonSearch: bool) {
    forall j :: 0 <= j < |run.states| && Live(run, j, day) ==>
      if run.states[j].searchGroup.Some? then Flag(requested, run.states[j].searchGroup.value) else includeNonSearch
  }

  /** For every live filter, its group is enabled in the day's partition exactly when the
      Bloom test lets it through. */
  ghost predicate EnabledByBloom(src: Source, run: Run, groups: seq<set<Term>>, day: U64, enabled: seq<bool>) {
    forall j :: day in src.partitions && 0 <= j < |run.states| && Live(run, j, day) && run.states[j].searchGroup.Some? ==>
      GroupFor(run.states[j], groups) && (Flag(enabled, run.states[j].searchGroup.value) <==> src.bloom(day, groups[run.states[j].searchGroup.value]))
  }

  /** Filters only ever stop being live during a day; nothing else about them changes. */
  ghost predicate OnlyShrinks(run: Run, run': Run, day: U64) {
    && |run'.states| == |run.states|
    && forall j :: 0 <= j < |run.states| ==>
         && run'.states[j].(remaining := None) == run.states[j].(remaining := None)
         && (Live(run', j, day) ==> Live(run, j, day))
  }

  lemma EmittedOnlyShrinks(run: Run, run': Run, takes: seq<bool>, p: Packet, day: U64)
    requires Emitted(run, run', takes, p)
    ensures OnlyShrinks(run, run', day)
  {
  }

  lemma HotCandidateFits(src: Source, run: Run, groups: seq<set<Term>>, day: U64, c: Candidate, requested: seq<bool>, includeNonSearch: bool)
    requires Serves(run, day, requested, includeNonSearch)
    requires forall j :: 0 <= j < |run.states| ==> GroupFor(run.states[j], groups)
    requires c.packet in src.hot && !c.fromPartition
    requires IsReport(c.searchGroups, groups, c.packet.text, requested, requested)
    ensures FitsLive(src, run, day, c)
  {
  }

  lemma PartitionCandidateFits(src: Source, run: Run, groups: seq<set<Term>>, day: U64, c: Candidate, enabled: seq<bool>, requested: seq<bool>, includeNonSearch: bool)
    requires src.Valid() && day in src.partitions && c.packet in src.partitions[day]
    requires Serves(run, day, requested, includeNonSearch) && EnabledByBloom(src, run, groups, day, enabled)
    requires forall j :: 0 <= j < |run.states| ==> GroupFor(run.states[j], groups)
    requires c.packet in src.hot ==> OutOfReach(run, groups, day, c.packet.text)
    requires c.fromPartition && IsReport(c.searchGroups, groups, c.packet.text, enabled, requested)
    ensures FitsLive(src, run, day, c)
  {
    assert UnixDay(c.packet) == day;
  }

  /** A packet the partition source passed over is wanted by no live filter, unless the hot
      snapshot offers it too. */
  lemma PassedOverIsUnwanted(src: Source, run: Run, groups: seq<set<Term>>, day: U64, p: Packet, enabled: seq<bool>, requested: seq<bool>, includeNonSearch: bool, j: nat)
    requires src.Valid() && day in src.partitions && p in src.partitions[day]
    requires Serves(run, day, requested, includeNonSearch) && EnabledByBloom(src, run, groups, day, enabled)
    requires j < |run.states| && Live(run, j, day) && GroupFor(run.states[j], groups)
    requires p in src.hot ==> OutOfReach(run, groups, day, p.text)
    requires Unwanted(groups, p.text, enabled, requested, includeNonSearch)
    ensures p !in Wanted(src, run.states[j].filter)
  {
    assert UnixDay(p) == day;
    var g := run.states[j].searchGroup.value;
    assert !Reported(groups, p.text, enabled, requested, g);
  }

  // ----- the streams of one day -----

  function PacketsOf(s: seq<Candidate>): set<Packet> {
    set i | 0 <= i < |s| :: s[i].packet
  }

  /** Settled once the merge has handled `last`: the later days, and today's packets up to it. */
  function SettledUpTo(later: set<Packet>, today: set<Packet>, last: Option<Packet>): set<Packet> {
    later + if last.None? then {} else set p | p in today && !Before(last.value, p)
  }

  /** The look-ahead of one day's merge. */
  datatype Streams = Streams(hot: seq<Candidate>, part: Option<Candidate>, rest: seq<Packet>)
  {
    ghost predicate Offers(p: Packet) {
      p in PacketsOf(hot) || (part.Some? && part.value.packet == p) || p in rest
    }

    /** Every stream is sorted and starts no earlier than `p`. */
    ghost predicate StartAt(p: Packet) {
      && (forall i :: 0 <= i < |hot| ==> !Before(hot[i].packet, p))
      && (part.Some? ==> !Before(part.value.packet, p))
      && (forall i :: 0 <= i < |rest| ==> !Before(rest[i], p))
    }

    ghost predicate InOrder() {
      && SortedCandidates(hot) && Sorted(rest)
      && (part.Some? ==> forall i :: 0 <= i < |rest| ==> !Before(rest[i], part.value.packet))
    }
  }

  /** Whatever a live filter still wants today is offered by a stream. */
  ghost predicate WantedOffered(src: Source, run: Run, day: U64, done: set<Packet>, s: Streams) {
    forall j, p :: 0 <= j < |run.states| && Live(run, j, day) && p in Wanted(src, run.states[j].filter) && UnixDay(p) == day && p !in done ==>
      s.Offers(p)
  }

  /** A packet of the hot snapshot is still ahead, or settled, or of no use to a live filter. */
  ghost predicate HotListed(src: Source, run: Run, groups: seq<set<Term>>, day: U64, done: set<Packet>, hot: seq<Candidate>) {
    forall p :: p in src.hot && UnixDay(p) == day && p !in done && p !in PacketsOf(hot) ==> OutOfReach(run, groups, day, p.text)
  }

  ghost predicate HotFits(src: Source, run: Run, day: U64, hot: seq<Candidate>) {
    forall i :: 0 <= i < |hot| ==>
      hot[i].packet in src.hot && UnixDay(hot[i].packet) == day && FitsLive(src, run, day, hot[i])
  }

  /** The fetched partition candidate means what its tests say, unless the hot copy of the same
      packet comes first. */
  ghost predicate PartFits(src: Source, run: Run, day: U64, done: set<Packet>, hot: seq<Candidate>, c: Candidate) {
    && day in src.partitions && c.packet in src.partitions[day]
    && (c.packet in done || c.packet in PacketsOf(hot) || FitsLive(src, run, day, c))
  }

  ghost predicate Covers(src: Source, run: Run, groups: seq<set<Term>>, day: U64, done: set<Packet>, s: Streams) {
    && WantedOffered(src, run, day, done, s)
    && HotListed(src, run, groups, day, done, s.hot)
    && HotFits(src, run, day, s.hot)
    && (s.part.Some? ==> PartFits(src, run, day, done, s.hot, s.part.value))
  }

  lemma CoversShrinks(src: Source, run: Run, run': Run, groups: seq<set<Term>>, day: U64, done: set<Packet>, s: Streams)
    requires Covers(src, run, groups, day, done, s) && OnlyShrinks(run, run', day)
    ensures Covers(src, run', groups, day, done, s)
  {
  }

  lemma EnabledShrinks(src: Source, run: Run, run': Run, groups: seq<set<Term>>, day: U64, enabled: seq<bool>)
    requires EnabledByBloom(src, run, groups, day, enabled) && OnlyShrinks(run, run', day)
    ensures EnabledByBloom(src, run', groups, day, enabled)
  {
  }

  /** The chosen candidate is the first packet of the streams, and taking it settles nothing
      else that a live filter wants. */
  lemma ChosenSettlesItself(src: Source, run: Run, groups: seq<set<Term>>, day: U64, later: set<Packet>, last: Option<Packet>, s: Streams, c: Candidate, j: nat)
    requires src.Valid() && j < |run.states| && Live(run, j, day)
    requires Covers(src, run, groups, day, SettledUpTo(later, Today(src.All(), day), last), s)
    requires s.StartAt(c.packet) && c.packet in Today(src.All(), day)
    requires c.packet !in SettledUpTo(later, Today(src.All(), day), last)
    requires last.Some? ==> !Before(c.packet, last.value)
    requires FitsLive(src, run, day, c)
    ensures Wanted(src, run.states[j].filter)
            * (SettledUpTo(later, Today(src.All(), day), Some(c.packet)) - SettledUpTo(later, Today(src.All(), day), last))
            == if Takes(src, run, c, day, j) then {c.packet} else {}
  {
    var done := SettledUpTo(later, Today(src.All(), day), last);
    var done' := SettledUpTo(later, Today(src.All(), day), Some(c.packet));
    forall p | p in Wanted(src, run.states[j].filter) && p in done' && p !in done
      ensures p == c.packet
    {
      assert UnixDay(p) == day;
      assert s.Offers(p);
      assert !Before(p, c.packet) && !Before(c.packet, p);
    }
  }

  // ----- opening a day -----

  /** The hot candidates of a day, together with the whole partition, cover the day. */
  lemma HotCandidatesCover(src: Source, run: Run, groups: seq<set<Term>>, day: U64, done: set<Packet>, hot: seq<Packet>, candidates: seq<Candidate>,
                           requested: seq<bool>, includeNonSearch: bool, queries: seq<seq<Filter>>)
    requires src.Valid() && StatesFor(run.states, queries, groups)
    requires forall p :: p in hot <==> p in src.hot && UnixDay(p) == day
    requires Serves(run, day, requested, includeNonSearch)
    requires forall i :: 0 <= i < |candidates| ==> IsHotCandidate(candidates[i], hot, groups, requested)
    requires forall k :: 0 <= k < |hot| ==>
               hot[k] in PacketsOf(candidates) || Unwanted(groups, hot[k].text, requested, requested, includeNonSearch)
    ensures Covers(src, run, groups, day, done, Streams(candidates, None, PartitionOf(src.partitions, day)))
  {
    forall i | 0 <= i < |candidates|
      ensures FitsLive(src, run, day, candidates[i])
    {
      HotCandidateFits(src, run, groups, day, candidates[i], requested, includeNonSearch);
    }
    forall p | p in src.hot && UnixDay(p) == day && p !in PacketsOf(candidates)
      ensures OutOfReach(run, groups, day, p.text)
    {
      assert p in hot;
      UnwantedIsOutOfReach(run, groups, day, p.text, requested, includeNonSearch);
    }
    forall j, p | 0 <= j < |run.states| && Live(run, j, day) && p in Wanted(src, run.states[j].filter) && UnixDay(p) == day
      ensures p in PacketsOf(candidates) || p in PartitionOf(src.partitions, day)
    {
      if p !in PartitionOf(src.partitions, day) {
        assert p in src.hot;
      }
    }
  }

  lemma SortKeepsCover(src: Source, run: Run, groups: seq<set<Term>>, day: U64, done: set<Packet>, a: seq<Candidate>, b: seq<Candidate>, rest: seq<Packet>)
    requires multiset(a) == multiset(b)
    requires Covers(src, run, groups, day, done, Streams(a, None, rest))
    ensures Covers(src, run, groups, day, done, Streams(b, None, rest))
  {
    assert forall c :: c in a <==> c in multiset(a);
    assert forall c :: c in b <==> c in multiset(b);
    assert forall i :: 0 <= i < |b| ==> b[i] in a;
    forall p | p in PacketsOf(a)
      ensures p in PacketsOf(b)
    {
      var i :| 0 <= i < |a| && a[i].packet == p;
      assert a[i] in b;
      var k :| 0 <= k < |b| && b[k] == a[i];
    }
    forall j, p | 0 <= j < |run.states| && Live(run, j, day) && p in Wanted(src, run.states[j].filter) && UnixDay(p) == day && p !in done
      ensures Streams(b, None, rest).Offers(p)
    {
      assert Streams(a, None, rest).Offers(p);
    }
  }

  lemma OpenedByBloom(src: Source, run: Run, groups: seq<set<Term>>, day: U64, requested: seq<bool>, includeNonSearch: bool, enabled: seq<bool>)
    requires forall j :: 0 <= j < |run.states| ==> GroupFor(run.states[j], groups)
    requires Serves(run, day, requested, includeNonSearch) && |requested| == |enabled| == |groups|
    requires day in src.partitions ==> forall g :: 0 <= g < |groups| ==> enabled[g] == (requested[g] && src.bloom(day, groups[g]))
    ensures EnabledByBloom(src, run, groups, day, enabled)
  {
  }

  // ----- steps of the merge -----

  /** Advancing the partition source keeps the cover: the candidate it found is offered, and
      what it passed over nobody needs. */
  lemma FetchKeepsCover(src: Source, run: Run, groups: seq<set<Term>>, day: U64, done: set<Packet>, hot: seq<Candidate>,
                        packets: seq<Packet>, start: nat, next: nat, c: Option<Candidate>,
                        enabled: seq<bool>, requested: seq<bool>, includeNonSearch: bool, queries: seq<seq<Filter>>)
    requires src.Valid() && packets == PartitionOf(src.partitions, day) && StatesFor(run.states, queries, groups)
    requires Serves(run, day, requested, includeNonSearch) && EnabledByBloom(src, run, groups, day, enabled)
    requires start <= next <= |packets|
    requires Covers(src, run, groups, day, done, Streams(hot, None, packets[start..]))
    requires c.Some? ==>
               && start < next && c.value.packet == packets[next - 1] && c.value.fromPartition
               && IsReport(c.value.searchGroups, groups, packets[next - 1].text, enabled, requested)
    requires forall i :: start <= i < (if c.Some? then next - 1 else |packets|) ==>
               Unwanted(groups, packets[i].text, enabled, requested, includeNonSearch)
    ensures Covers(src, run, groups, day, done, Streams(hot, c, if c.Some? then packets[next..] else []))
  {
    hide Wanted, Live, HotFits, Serves, EnabledByBloom, Unwanted, IsReport, GroupFor, OutOfReach, FitsLive;
    var s := Streams(hot, None, packets[start..]);
    var s' := Streams(hot, c, if c.Some? then packets[next..] else []);
    forall j, p | 0 <= j < |run.states| && Live(run, j, day) && p in Wanted(src, run.states[j].filter) && UnixDay(p) == day && p !in done
      ensures s'.Offers(p)
    {
      assert s.Offers(p);
      if p !in PacketsOf(hot) {
        var i :| start <= i < |packets| && packets[i] == p;
        if i < (if c.Some? then next - 1 else |packets|) {
          PassedOverIsUnwanted(src, run, groups, day, p, enabled, requested, includeNonSearch, j);
        } else if next <= i {
          assert packets[next..][i - next] == p;
        }
      }
    }
    if c.Some? && c.value.packet !in done && c.value.packet !in PacketsOf(hot) {
      PartitionCandidateFits(src, run, groups, day, c.value, enabled, requested, includeNonSearch);
    }
  }

  /** The streams without the candidate the merge has just taken. */
  function After(s: Streams, takeHot: bool): Streams
    requires if takeHot then s.hot != [] else s.part.Some?
  {
    if takeHot then s.(hot := s.hot[1..]) else s.(part := None)
  }

  function Chosen(s: Streams, takeHot: bool): Candidate
    requires if takeHot then s.hot != [] else s.part.Some?
  {
    if takeHot then s.hot[0] else s.part.value
  }

  /** The hot candidate wins ties, so a partition copy of a hot packet comes second. */
  predicate TakeHot(s: Streams)
    requires s.hot != [] || s.part.Some?
  {
    s.hot != [] && (s.part.None? || ComparePackets(s.hot[0].packet, s.part.value.packet) != Greater)
  }

  lemma FetchedInOrder(hot: seq<Candidate>, packets: seq<Packet>, start: nat, next: nat, c: Option<Candidate>, last: Option<Packet>)
    requires Sorted(packets) && start <= next <= |packets|
    requires Streams(hot, None, packets[start..]).InOrder()
    requires last.Some? ==> Streams(hot, None, packets[start..]).StartAt(last.value)
    requires c.Some? ==> start < next && c.value.packet == packets[next - 1]
    ensures Streams(hot, c, if c.Some? then packets[next..] else []).InOrder()
    ensures last.Some? ==> Streams(hot, c, if c.Some? then packets[next..] else []).StartAt(last.value)
  {
    assert forall i :: 0 <= i < |packets| - next ==> packets[next..][i] == packets[start..][i + next - start];
    if c.Some? {
      assert c.value.packet == packets[start..][next - 1 - start];
    }
  }

  /** The chosen candidate is a packet of today; it was handled before exactly when its id was
      seen, and a fresh one means to the live filters what its tests say. */
  lemma ChosenIsToday(src: Source, run: Run, groups: seq<set<Term>>, day: U64, done: set<Packet>, s: Streams, last: Option<Packet>, seen: set<Id>)
    requires src.Valid() && (s.hot != [] || s.part.Some?)
    requires Covers(src, run, groups, day, done, s) && s.InOrder()
    requires forall p :: p in done && p in Today(src.All(), day) ==> last.Some? && !Before(last.value, p)
    requires last.Some? ==> last.value in done && last.value in Today(src.All(), day) && last.value.id in seen && s.StartAt(last.value)
    requires forall id :: id in seen ==> exists p :: p in done && p in Today(src.All(), day) && p.id == id
    ensures var c := Chosen(s, TakeHot(s));
            && c.packet in Today(src.All(), day)
            && (c.packet.id in seen <==> c.packet in done)
            && (c.packet !in done ==> FitsLive(src, run, day, c))
            && (last.Some? ==> !Before(c.packet, last.value))
  {
    var c := Chosen(s, TakeHot(s));
    if c.packet in done {
      assert c.packet.createdAt == last.value.createdAt && c.packet.id == last.value.id;
    }
    assert !TakeHot(s) && s.hot != [] ==> forall i :: 0 <= i < |s.hot| ==> !Before(s.hot[i].packet, s.hot[0].packet);
  }

  lemma ChosenIsFirst(s: Streams)
    requires s.InOrder() && (s.hot != [] || s.part.Some?)
    requires s.part.None? ==> s.rest == []
    ensures s.StartAt(Chosen(s, TakeHot(s)).packet)
    ensures After(s, TakeHot(s)).InOrder() && After(s, TakeHot(s)).StartAt(Chosen(s, TakeHot(s)).packet)
  {
  }

  /** What the merge settles by taking a candidate no longer needs to be offered. */
  lemma TakeKeepsCover(src: Source, run: Run, groups: seq<set<Term>>, day: U64, done: set<Packet>, done': set<Packet>, s: Streams, takeHot: bool)
    requires if takeHot then s.hot != [] else s.part.Some?
    requires Covers(src, run, groups, day, done, s)
    requires done <= done' && Chosen(s, takeHot).packet in done'
    ensures Covers(src, run, groups, day, done', After(s, takeHot))
  {
    var s' := After(s, takeHot);
    var c := Chosen(s, takeHot);
    forall p | p != c.packet && p in PacketsOf(s.hot)
      ensures p in PacketsOf(s'.hot)
    {
      var i :| 0 <= i < |s.hot| && s.hot[i].packet == p;
      if takeHot {
        assert s'.hot[i - 1].packet == p;
      }
    }
    forall j, p | 0 <= j < |run.states| && Live(run, j, day) && p in Wanted(src, run.states[j].filter) && UnixDay(p) == day && p !in done'
      ensures s'.Offers(p)
    {
      assert s.Offers(p);
    }
  }

  /** No live filter wants anything of the day that is not settled. */
  ghost predicate DaySettled(src: Source, run: Run, day: U64, done: set<Packet>) {
    forall j, p :: 0 <= j < |run.states| && Live(run, j, day) && p in Wanted(src, run.states[j].filter) && UnixDay(p) == day ==> p in done
  }

  predicate NobodyAsks(requested: seq<bool>, includeNonSearch: bool) {
    !includeNonSearch && forall g :: 0 <= g < |requested| ==> !requested[g]
  }

  lemma NobodyAsksSettles(src: Source, run: Run, day: U64, done: set<Packet>, requested: seq<bool>, includeNonSearch: bool)
    requires Serves(run, day, requested, includeNonSearch) && NobodyAsks(requested, includeNonSearch)
    ensures DaySettled(src, run, day, done)
  {
  }

  lemma ExhaustionSettles(src: Source, run: Run, groups: seq<set<Term>>, day: U64, done: set<Packet>)
    requires Covers(src, run, groups, day, done, Streams([], None, []))
    ensures DaySettled(src, run, day, done)
  {
  }

  /** At the end of a day, or when nobody asks for more of it, the whole day is settled. */
  lemma DayEnds(src: Source, queries: seq<seq<Filter>>, groups: seq<set<Term>>, run: Run, day: U64, done: set<Packet>, later: set<Packet>)
    requires src.Valid() && StatesFor(run.states, queries, groups) && Progress(src, queries, run, done)
    requires later <= done <= later + Today(src.All(), day)
    requires DownClosed(src.All(), later + Today(src.All(), day))
    requires DaySettled(src, run, day, done)
    ensures Progress(src, queries, run, later + Today(src.All(), day))
  {
    var done' := later + Today(src.All(), day);
    forall j | 0 <= j < |run.states| && Active(run, j) && run.states[j].remaining != Some(0)
      ensures Wanted(src, run.states[j].filter) * (done' - done) == {}
    {
      forall p | p in Wanted(src, run.states[j].filter) && p in done' && p !in done
        ensures false
      {
        PruningIsSound(run.states[j].filter, p);
      }
    }
    SkipKeepsProgress(src, queries, groups, run, done, done');
  }

  /** The packets settled up to some packet of the day, after all later days. */
  lemma SettledIsDownClosed(src: Source, later: set<Packet>, day: U64, last: Option<Packet>)
    requires DownClosed(src.All(), later) && DownClosed(src.All(), later + Today(src.All(), day))
    requires last.Some? ==> last.value in Today(src.All(), day)
    ensures DownClosed(src.All(), SettledUpTo(later, Today(src.All(), day), last))
  {
  }

  lemma ReceivedAppend(log: seq<Delivery>, d: Delivery, q: nat)
    ensures Received(log + [d], q) == Received(log, q) + (if q in d.queries then [d.packet] else [])
  {
    assert (log + [d])[..|log|] == log;
  }

  // ----- requests of a day -----

  /** Which groups some live filter asks for, and whether one asks for packets without search. */
  method RequestedSearchesForDay(day: U64, run: Run, groupCount: nat) returns (requested: seq<bool>, includeNonSearch: bool)
    requires forall j :: 0 <= j < |run.states| ==> run.states[j].queryIndex < |run.queryStates|
    requires forall j :: 0 <= j < |run.states| && run.states[j].searchGroup.Some? ==> run.states[j].searchGroup.value < groupCount
    ensures Serves(run, day, requested, includeNonSearch)
    ensures |requested| == groupCount
    ensures forall g :: 0 <= g < |requested| && requested[g] ==> Asked(run, day, Some(g))
    ensures includeNonSearch ==> Asked(run, day, None)
  {
    requested := seq(groupCount, _ => false);
    includeNonSearch := false;
    for j := 0 to |run.states|
      invariant |requested| == groupCount
      invariant forall i :: 0 <= i < j && Live(run, i, day) ==>
                  if run.states[i].searchGroup.Some? then Flag(requested, run.states[i].searchGroup.value) else includeNonSearch
      invariant forall g :: 0 <= g < |requested| && requested[g] ==> Asked(run, day, Some(g))
      invariant includeNonSearch ==> Asked(run, day, None)
    {
      var state := run.states[j];
      if state.remaining == Some(0) || !run.queryStates[state.queryIndex].active || !DayOverlapsFilter(day, state.filter) {
        continue;
      }
      assert Live(run, j, day);
      match state.searchGroup
      case Some(g) => requested := requested[g := true];
      case None => includeNonSearch := true;
    }
  }

  ghost predicate Asked(run: Run, day: U64, group: Option<nat>) {
    exists j :: 0 <= j < |run.states| && Live(run, j, day) && run.states[j].searchGroup == group
  }

  method HotCandidates(hot: seq<Packet>, requested: seq<bool>, includeNonSearch: bool, matcher: SearchMatcher) returns (candidates: seq<Candidate>)
    requires matcher.Valid()
    modifies matcher
    ensures matcher.Valid()
    ensures forall i :: 0 <= i < |candidates| ==> IsHotCandidate(candidates[i], hot, matcher.groups, requested)
    ensures forall k :: 0 <= k < |hot| ==>
              hot[k] in PacketsOf(candidates) || Unwanted(matcher.groups, hot[k].text, requested, requested, includeNonSearch)
  {
    candidates := [];
    for i := 0 to |hot|
      invariant matcher.Valid()
      invariant forall i :: 0 <= i < |candidates| ==> IsHotCandidate(candidates[i], hot, matcher.groups, requested)
      invariant forall k :: 0 <= k < i ==>
                  hot[k] in PacketsOf(candidates) || Unwanted(matcher.groups, hot[k].text, requested, requested, includeNonSearch)
    {
      var searchGroups := matcher.MatchingGroups(hot[i].text, requested, requested);
      if includeNonSearch || searchGroups != [] {
        ghost var before := candidates;
        candidates := candidates + [Candidate(hot[i], searchGroups, false)];
        assert candidates[|before|].packet == hot[i];
        assert forall k :: 0 <= k < |before| ==> candidates[k] == before[k];
        assert PacketsOf(before) <= PacketsOf(candidates);
      } else {
        assert forall g: nat :: g !in searchGroups;
      }
    }
  }

  ghost predicate IsHotCandidate(c: Candidate, hot: seq<Packet>, groups: seq<set<Term>>, requested: seq<bool>) {
    c.packet in hot && !c.fromPartition && IsReport(c.searchGroups, groups, c.packet.text, requested, requested)
  }

  /** A text no requested group reports is out of reach of every live filter. */
  lemma UnwantedIsOutOfReach(run: Run, groups: seq<set<Term>>, day: U64, text: Text, requested: seq<bool>, includeNonSearch: bool)
    requires Serves(run, day, requested, includeNonSearch)
    requires forall j :: 0 <= j < |run.states| ==> GroupFor(run.states[j], groups)
    requires Unwanted(groups, text, requested, requested, includeNonSearch)
    ensures OutOfReach(run, groups, day, text)
  {
    forall j | 0 <= j < |run.states| && Live(run, j, day)
      ensures run.states[j].searchGroup.Some? && !HasTerms(text, groups[run.states[j].searchGroup.value])
    {
      assert run.states[j].searchGroup.Some?;
      assert !Reported(groups, text, requested, requested, run.states[j].searchGroup.value);
    }
  }

  /** Asks the day's Bloom filter once per requested group; the index is read only if some
      group passes. */
  method ReadBatchedSearchIndex(source: Source, day: U64, groups: seq<set<Term>>, requested: seq<bool>) returns (kind: SourceKind, enabled: seq<bool>)
    requires |requested| == |groups|
    ensures |enabled| == |groups|
    ensures forall g :: 0 <= g < |groups| ==> enabled[g] == (requested[g] && source.bloom(day, groups[g]))
    ensures kind == if exists g: nat :: Flag(enabled, g) then Indexed else Scan
  {
    enabled := requested;
    for g := 0 to |requested|
      invariant |enabled| == |requested|
      invariant forall h :: g <= h < |requested| ==> enabled[h] == requested[h]
      invariant forall h :: 0 <= h < g ==> enabled[h] == (requested[h] && source.bloom(day, groups[h]))
    {
      if enabled[g] && !source.bloom(day, groups[g]) {
        enabled := enabled[g := false];
      }
    }
    if g :| 0 <= g < |enabled| && enabled[g] {
      assert Flag(enabled, g);
      kind := Indexed;
    } else {
      kind := Scan;
    }
  }

  // ----- the run -----

  class BatchRun {
    const source: Source
    const queries: seq<seq<Filter>>
    const client: Client
    const matcher: SearchMatcher
    var states: seq<FilterState>
    var queryStates: seq<QueryState>
    var log: seq<Delivery>
    ghost var done: set<Packet>
    ghost var rounds: Rounds
    ghost var storeAsked: seq<Packet>

    ghost function View(): Run
      reads this
    {
      Run(states, queryStates, log)
    }

    ghost predicate Consistent()
      reads this, matcher
    {
      && source.Valid()
      && matcher.Valid()
      && StatesFor(states, queries, matcher.groups)
      && Progress(source, queries, View(), done)
      && OnlyClientDrops()
      && AskedOnce()
    }

    /** The visibility store was asked about settled packets only, and about none of them twice. */
    ghost predicate AskedOnce()
      reads this
    {
      NoDuplicates(storeAsked) && forall p :: p in storeAsked ==> p in done
    }

    /** The rounds of asking so far, and what came of them and of the client's replies. */
    ghost predicate OnlyClientDrops()
      reads this
    {
      && (forall round :: round in rounds ==> round.0 <= |log|)
      && OnlyDropsDeactivate(client, rounds, queryStates, log)
      && DropsAreFinal(client, rounds, queryStates, log)
    }

    constructor (source: Source, queries: seq<seq<Filter>>, client: Client, states: seq<FilterState>, matcher: SearchMatcher)
      requires source.Valid() && matcher.Valid()
      requires StatesFor(states, queries, matcher.groups)
      requires forall j :: 0 <= j < |states| ==> states[j].remaining == states[j].filter.limit
      ensures Consistent() && done == {} && log == [] && rounds == [] && storeAsked == []
      ensures this.source == source && this.queries == queries && this.client == client && this.matcher == matcher
      ensures forall q :: 0 <= q < |queries| ==> queryStates[q].active
    {
      this.source := source;
      this.queries := queries;
      this.client := client;
      this.matcher := matcher;
      this.states := states;
      this.queryStates := seq(|queries|, _ => QueryState(true, {}));
      this.log := [];
      this.done := {};
      this.rounds := [];
      this.storeAsked := [];
      new;
      NothingSettled(source, queries, View());
    }

    method RefreshActiveQueries(day: U64)
      requires Consistent()
      modifies this`queryStates, this`rounds
      ensures Consistent() && |queryStates| == |old(queryStates)| && rounds == old(rounds) + [(|log|, day)]
      ensures forall q: nat :: q < |queryStates| ==>
                queryStates[q] == old(queryStates)[q].(active := old(queryStates)[q].active && client.isActive(log, day, q))
    {
      hide DropsAreFinal, OnlyDropsDeactivate;
      ghost var run := View();
      for q := 0 to |queryStates|
        invariant |queryStates| == |run.queryStates| && rounds == old(rounds)
        invariant forall i: nat :: i < |queryStates| ==>
                    queryStates[i] == run.queryStates[i].(active := run.queryStates[i].active && (i < q ==> client.isActive(log, day, i)))
      {
        if queryStates[q].active && !client.isActive(log, day, q) {
          queryStates := queryStates[q := queryStates[q].(active := false)];
        }
      }
      RoundKeepsDrops(client, rounds, run.queryStates, queryStates, log, day);
      rounds := rounds + [(|log|, day)];
      DropsKeepProgress(source, queries, run, View(), done);
    }

    /** Whether a filter takes the candidate; visibility is looked up at most once. */
    method Test(c: Candidate, day: U64, state: FilterState, active: bool, known: Option<bool>) returns (took: bool, visible: Option<bool>)
      requires known.Some? ==> known.value == (source.hotVisible(c.packet) && (!c.fromPartition || source.storeVisible(c.packet)))
      modifies this`storeAsked
      ensures storeAsked == old(storeAsked) || (known.None? && visible.Some? && storeAsked == old(storeAsked) + [c.packet])
      ensures known.Some? ==> visible.Some?
      ensures took == (state.remaining != Some(0) && active && DayOverlapsFilter(day, state.filter) && Selected(source, state, c))
      ensures visible.Some? ==> visible.value == (source.hotVisible(c.packet) && (!c.fromPartition || source.storeVisible(c.packet)))
    {
      visible := known;
      if state.remaining == Some(0) || !active || !DayOverlapsFilter(day, state.filter) {
        return false, visible;
      }
      if state.searchGroup.Some? && state.searchGroup.value !in c.searchGroups {
        return false, visible;
      }
      if !MatchesWithoutSearch(state.filter, c.packet) {
        return false, visible;
      }
      if state.searchGroup.Some? {
        if visible.None? {
          visible := Some(source.hotVisible(c.packet) && (!c.fromPartition || source.storeVisible(c.packet)));
          storeAsked := if source.hotVisible(c.packet) && c.fromPartition then storeAsked + [c.packet] else storeAsked;
        }
        if !visible.value {
          return false, visible;
        }
      }
      return true, visible;
    }

    /** Walks the filters in order: each live one that selects the candidate spends one of its
        limit; a query is listed once, by the first of its filters. */
    method SelectQueries(c: Candidate, day: U64) returns (queryIndexes: seq<nat>)
      requires forall j :: 0 <= j < |states| ==> states[j].queryIndex < |queryStates|
      modifies this`states, this`queryStates, this`storeAsked
      ensures storeAsked == old(storeAsked) || storeAsked == old(storeAsked) + [c.packet]
      ensures NoDuplicates(queryIndexes)
      ensures |states| == |old(states)| && |queryStates| == |old(queryStates)|
      ensures forall j :: 0 <= j < |states| ==>
                states[j] == Spent(old(states)[j], Takes(source, old(View()), c, day, j))
      ensures forall q :: 0 <= q < |queryStates| ==>
                queryStates[q] == Marked(old(queryStates)[q], c.packet.id, WantedBy(old(View()), TakesOf(source, old(View()), c, day), q))
      ensures forall q: nat :: q in queryIndexes <==>
                q < |queryStates| && WantedBy(old(View()), TakesOf(source, old(View()), c, day), q) && c.packet.id !in old(queryStates)[q].emitted
    {
      hide Selected, DayOverlapsFilter, SelectedUpTo;
      ghost var run := View();
      ghost var takes := TakesOf(source, run, c, day);
      var visible: Option<bool> := None;
      queryIndexes := [];
      var k := 0;
      NoneSelected(run, takes, c.packet.id);
      while k < |states|
        invariant k <= |states| == |run.states| && |queryStates| == |run.queryStates|
        invariant visible.Some? ==> visible.value == (source.hotVisible(c.packet) && (!c.fromPartition || source.storeVisible(c.packet)))
        invariant storeAsked == old(storeAsked) || (visible.Some? && storeAsked == old(storeAsked) + [c.packet])
        invariant SelectedUpTo(run, takes, c.packet.id, k, states, queryStates, queryIndexes)
      {
        SelectStep(run, takes, c.packet.id, k, states, queryStates, queryIndexes);
        var state := states[k];
        var query := queryStates[state.queryIndex];
        var took;
        took, visible := Test(c, day, state, query.active, visible);
        k := k + 1;
        if !took {
          continue;
        }
        states := states[k - 1 := state.(remaining := Spend(state.remaining))];
        if c.packet.id !in query.emitted {
          queryStates := queryStates[state.queryIndex := query.(emitted := query.emitted + {c.packet.id})];
          queryIndexes := queryIndexes + [state.queryIndex];
        }
      }
      AllSelected(run, takes, c.packet.id, states, queryStates, queryIndexes);
    }

    method Deactivate(queryIndexes: seq<nat>)
      modifies this`queryStates
      ensures |queryStates| == |old(queryStates)|
      ensures forall q :: 0 <= q < |queryStates| ==>
                queryStates[q] == old(queryStates)[q].(active := old(queryStates)[q].active && q !in queryIndexes)
    {
      for i := 0 to |queryIndexes|
        invariant |queryStates| == |old(queryStates)|
        invariant forall q :: 0 <= q < |queryStates| ==>
                    queryStates[q] == old(queryStates)[q].(active := old(queryStates)[q].active && q !in queryIndexes[..i])
      {
        var q := queryIndexes[i];
        if q < |queryStates| {
          queryStates := queryStates[q := queryStates[q].(active := false)];
        }
      }
    }

    /** Sends a candidate to every query one of whose live filters selects it. */
    method EmitCandidate(c: Candidate, day: U64) returns (ok: bool)
      requires Consistent()
      requires Answered(client, log, true)
      modifies this`states, this`queryStates, this`log, this`storeAsked
      ensures storeAsked == old(storeAsked) || storeAsked == old(storeAsked) + [c.packet]
      ensures log == old(log) || (|log| == |old(log)| + 1 && log[..|old(log)|] == old(log) && log[|old(log)|].packet == c.packet)
      ensures Emitted(old(View()), View(), TakesOf(source, old(View()), c, day), c.packet)
      ensures OnlyClientDrops()
      ensures Answered(client, log, ok)
    {
      hide DropsAreFinal, Emitted, Received, Selected, DayOverlapsFilter, WantedBy, Answered, Progress, StatesFor, NoDuplicates;
      ghost var run, takes := View(), TakesOf(source, View(), c, day);
      StatesHaveQueries(source, queries, matcher.groups, run, done);
      WantedIsActive(source, run, c, day);
      var queryIndexes := SelectQueries(c, day);
      DropsStayFinal(client, rounds, old(queryStates), queryStates, log);
      ghost var marked := queryStates;
      ok := true;
      if queryIndexes != [] {
        ok := Send(c.packet, queryIndexes);
        AnsweredNext(client, old(log), Delivery(c.packet, queryIndexes));
      }
      EmissionIs(run, takes, c.packet, states, marked, queryStates, log, queryIndexes);
    }

    /** Calls `emit` and deactivates the queries it names. */
    method Send(packet: Packet, queryIndexes: seq<nat>) returns (ok: bool)
      requires OnlyClientDrops()
      requires forall q :: q in queryIndexes ==> q < |queryStates| && queryStates[q].active
      modifies this`queryStates, this`log
      ensures OnlyClientDrops()
      ensures log == old(log) + [Delivery(packet, queryIndexes)] && |queryStates| == |old(queryStates)|
      ensures ok == client.emit(log).Dropped?
      ensures forall q: nat :: q < |queryStates| ==>
                queryStates[q] == old(queryStates)[q].(active := old(queryStates)[q].active && !DroppedAfter(client, log, |log|, q))
    {
      hide DropsAreFinal, OnlyDropsDeactivate;
      log := log + [Delivery(packet, queryIndexes)];
      var reply := client.emit(log);
      assert log[..|log|] == log;
      ok := reply.Dropped?;
      if ok {
        Deactivate(reply.queries);
      }
      DeliveryKeepsDrops(client, rounds, old(queryStates), queryStates, old(log), packet, queryIndexes);
    }

    /** Handles one candidate of today's merge: a packet already handled today is dropped,
        a fresh one is settled and emitted. */
    method Handle(c: Candidate, day: U64, unseen: bool, ghost later: set<Packet>, ghost last: Option<Packet>, ghost s: Streams) returns (ok: bool)
      requires Consistent() && done == SettledUpTo(later, Today(source.All(), day), last)
      requires DownClosed(source.All(), later) && DownClosed(source.All(), later + Today(source.All(), day)) && later !! Today(source.All(), day)
      requires last.Some? ==> last.value in Today(source.All(), day) && !Before(c.packet, last.value)
      requires Covers(source, View(), matcher.groups, day, done, s) && s.StartAt(c.packet)
      requires c.packet in Today(source.All(), day)
      requires unseen <==> c.packet !in done
      requires unseen ==> FitsLive(source, View(), day, c)
      requires Answered(client, log, true)
      modifies this`states, this`queryStates, this`log, this`storeAsked, this`done
      ensures Consistent() && done == SettledUpTo(later, Today(source.All(), day), Some(c.packet))
      ensures OnlyShrinks(old(View()), View(), day) && Continues(old(log), log, day)
      ensures Answered(client, log, ok)
    {
      hide Progress, Emitted, NoDuplicates, OnlyDropsDeactivate, DropsAreFinal, StatesFor, DownClosed, Covers, Wanted, TakesOf, Answered;
      ghost var run := View();
      ghost var done' := SettledUpTo(later, Today(source.All(), day), Some(c.packet));
      if !unseen {
        assert done' == done;
        return true;
      }
      ghost var takes := TakesOf(source, run, c, day);
      SettledIsDownClosed(source, later, day, Some(c.packet));
      ChosenIsTaken(source, queries, run, matcher.groups, day, later, last, s, c);
      ghost var asked := storeAsked;
      ok := EmitCandidate(c, day);
      StillAskedOnce(asked, storeAsked, done, done', c.packet);
      EmitKeepsProgress(source, queries, matcher.groups, run, View(), done, done', c.packet, takes);
      EmittedOnlyShrinks(run, View(), takes, c.packet, day);
      done := done';
      EmittedStatesStay(run, View(), takes, c.packet, queries, matcher.groups);
    }

    method Requests(day: U64) returns (requested: seq<bool>, includeNonSearch: bool)
      requires Consistent()
      ensures Serves(View(), day, requested, includeNonSearch) && |requested| == |matcher.groups|
    {
      requested, includeNonSearch := RequestedSearchesForDay(day, Run(states, queryStates, log), |matcher.groups|);
    }

    /** One day: the hot candidates merged with the partition's, while somebody asks for more. */
    method ProcessDay(day: U64, hot: seq<Packet>) returns (ok: bool)
      requires Consistent() && DownClosed(source.All(), done)
      requires forall p :: p in hot <==> p in source.hot && UnixDay(p) == day
      requires done !! Today(source.All(), day) && DownClosed(source.All(), done + Today(source.All(), day))
      requires Answered(client, log, true)
      modifies this`states, this`queryStates, this`log, this`storeAsked, this`done, this`rounds, matcher
      ensures Consistent() && rounds == old(rounds) + [(|old(log)|, day)]
      ensures ok ==> done == old(done) + Today(source.All(), day)
      ensures Continues(old(log), log, day)
      ensures Answered(client, log, ok)
    {
      hide Progress, Covers, DownClosed, EnabledByBloom, Serves, DaySettled, IsReport, Answered;
      ghost var later := done;
      RefreshActiveQueries(day);
      var requested, includeNonSearch := Requests(day);
      if NobodyAsks(requested, includeNonSearch) {
        NobodyAsksSettles(source, View(), day, done, requested, includeNonSearch);
        EndDay(day, later);
        return true;
      }
      var candidates := HotCandidates(hot, requested, includeNonSearch, matcher);
      HotCandidatesCover(source, View(), matcher.groups, day, done, hot, candidates, requested, includeNonSearch, queries);
      var sorted := SortCandidates(candidates);
      SortKeepsCover(source, View(), matcher.groups, day, done, candidates, sorted, PartitionOf(source.partitions, day));
      var partition, enabled := OpenPartition(day, requested, includeNonSearch);
      ok := MergeDay(day, sorted, partition, enabled);
    }

    method OpenPartition(day: U64, requested: seq<bool>, ghost includeNonSearch: bool) returns (partition: PartitionCandidateSource, enabled: seq<bool>)
      requires StatesFor(states, queries, matcher.groups)
      requires Serves(View(), day, requested, includeNonSearch) && |requested| == |matcher.groups|
      ensures fresh(partition) && partition.Valid() && partition.packets == PartitionOf(source.partitions, day) && partition.position == 0
      ensures partition.kind == Scan ==> forall g: nat :: !Flag(enabled, g)
      ensures EnabledByBloom(source, View(), matcher.groups, day, enabled)
    {
      var kind := Empty;
      enabled := requested;
      if day in source.partitions {
        kind, enabled := ReadBatchedSearchIndex(source, day, matcher.groups, requested);
      }
      OpenedByBloom(source, View(), matcher.groups, day, requested, includeNonSearch, enabled);
      partition := new PartitionCandidateSource(kind, PartitionOf(source.partitions, day));
    }

    /** Between two candidates of a day's merge: `last` was handled last, the ids in `seen` were
        handled today, and the streams cover what live filters still want. */
    ghost predicate Merging(day: U64, later: set<Packet>, last: Option<Packet>, seen: set<Id>, s: Streams, enabled: seq<bool>)
      reads this, matcher
    {
      && Consistent()
      && DownClosed(source.All(), later) && DownClosed(source.All(), later + Today(source.All(), day)) && later !! Today(source.All(), day)
      && done == SettledUpTo(later, Today(source.All(), day), last)
      && EnabledByBloom(source, View(), matcher.groups, day, enabled)
      && Covers(source, View(), matcher.groups, day, done, s) && s.InOrder()
      && (last.Some? ==> last.value in Today(source.All(), day) && last.value.id in seen && s.StartAt(last.value))
      && (forall id :: id in seen ==> exists p :: p in done && p in Today(source.All(), day) && p.id == id)
    }

    method FetchNext(day: U64, hot: seq<Candidate>, partition: PartitionCandidateSource, enabled: seq<bool>, requested: seq<bool>, includeNonSearch: bool,
                     ghost later: set<Packet>, ghost last: Option<Packet>, ghost seen: set<Id>) returns (candidate: Option<Candidate>)
      requires partition.Valid() && partition.packets == PartitionOf(source.partitions, day)
      requires partition.kind == Scan ==> forall g: nat :: !Flag(enabled, g)
      requires Merging(day, later, last, seen, LookAhead(hot, None, partition, false), enabled)
      requires Serves(View(), day, requested, includeNonSearch)
      modifies matcher, partition`position
      ensures partition.Valid() && old(partition.position) + (if candidate.Some? then 1 else 0) <= partition.position
      ensures Merging(day, later, last, seen, LookAhead(hot, candidate, partition, candidate.None?), enabled)
      ensures Serves(View(), day, requested, includeNonSearch)
    {
      hide Progress, EnabledByBloom, Serves, Covers;
      ghost var start := partition.position;
      candidate := partition.NextCandidate(enabled, requested, includeNonSearch, matcher);
      FetchedInOrder(hot, partition.packets, start, partition.position, candidate, last);
      FetchKeepsCover(source, View(), matcher.groups, day, done, hot, partition.packets, start, partition.position, candidate,
                      enabled, requested, includeNonSearch, queries);
    }

    method TakeNext(day: U64, c: Candidate, seen: set<Id>, ghost later: set<Packet>, ghost last: Option<Packet>, ghost s: Streams, ghost enabled: seq<bool>)
      returns (ok: bool)
      requires Merging(day, later, last, seen, s, enabled)
      requires (s.hot != [] || s.part.Some?) && (s.part.None? ==> s.rest == []) && c == Chosen(s, TakeHot(s))
      requires Answered(client, log, true)
      modifies this`states, this`queryStates, this`log, this`storeAsked, this`done
      ensures Merging(day, later, Some(c.packet), seen + {c.packet.id}, After(s, TakeHot(s)), enabled)
      ensures Continues(old(log), log, day)
      ensures Answered(client, log, ok)
    {
      hide Progress, EnabledByBloom, Covers, StatesFor, Answered;
      ChosenIsFirst(s);
      ChosenIsToday(source, View(), matcher.groups, day, done, s, last, seen);
      ghost var run, before := View(), done;
      ok := Handle(c, day, c.packet.id !in seen, later, last, s);
      CoversShrinks(source, run, View(), matcher.groups, day, before, s);
      EnabledShrinks(source, run, View(), matcher.groups, day, enabled);
      TakeKeepsCover(source, View(), matcher.groups, day, before, done, s, TakeHot(s));
    }

    /** The whole day is settled when live filters want nothing more of it. */
    ghost method EndDay(day: U64, later: set<Packet>)
      requires Consistent() && later <= done <= later + Today(source.All(), day)
      requires DownClosed(source.All(), later + Today(source.All(), day))
      requires DaySettled(source, View(), day, done)
      modifies this`done
      ensures Consistent() && done == later + Today(source.All(), day)
    {
      hide Progress, StatesFor, DownClosed, DaySettled, DropsAreFinal, OnlyDropsDeactivate, NoDuplicates;
      DayEnds(source, queries, matcher.groups, View(), day, done, later);
      done := later + Today(source.All(), day);
    }

    method MergeDay(day: U64, hot: seq<Candidate>, partition: PartitionCandidateSource, enabled: seq<bool>) returns (ok: bool)
      requires Consistent() && DownClosed(source.All(), done)
      requires done !! Today(source.All(), day) && DownClosed(source.All(), done + Today(source.All(), day))
      requires partition.Valid() && partition.packets == PartitionOf(source.partitions, day) && partition.position == 0
      requires partition.kind == Scan ==> forall g: nat :: !Flag(enabled, g)
      requires EnabledByBloom(source, View(), matcher.groups, day, enabled)
      requires SortedCandidates(hot)
      requires Covers(source, View(), matcher.groups, day, done, Streams(hot, None, partition.packets))
      requires Answered(client, log, true)
      modifies this`states, this`queryStates, this`log, this`storeAsked, this`done, matcher, partition`position
      ensures Consistent()
      ensures ok ==> done == old(done) + Today(source.All(), day)
      ensures Continues(old(log), log, day)
      ensures Answered(client, log, ok)
    {
      hide Progress, EnabledByBloom, Serves, Covers, StatesFor, DownClosed, NobodyAsks, DaySettled, Continues, Answered;
      ghost var later := done;
      ContinuesFurther(log, log, log, day);
      ghost var last: Option<Packet> := None;
      var hotRest, candidate, finished := hot, None, false;
      var seen: set<Id> := {};
      assert partition.packets[0..] == partition.packets;
      while true
        invariant partition.Valid() && (finished ==> candidate.None?)
        invariant Merging(day, later, last, seen, LookAhead(hotRest, candidate, partition, finished), enabled)
        invariant Continues(old(log), log, day) && Answered(client, log, true)
        decreases |hotRest| + |partition.packets| - partition.position + (if candidate.Some? then 1 else 0)
      {
        var requested, includeNonSearch := Requests(day);
        if NobodyAsks(requested, includeNonSearch) {
          NobodyAsksSettles(source, View(), day, done, requested, includeNonSearch);
          break;
        }
        if candidate.None? && !finished {
          candidate := FetchNext(day, hotRest, partition, enabled, requested, includeNonSearch, later, last, seen);
          finished := candidate.None?;
        }
        if hotRest == [] && candidate.None? {
          ExhaustionSettles(source, View(), matcher.groups, day, done);
          break;
        }
        ghost var s := LookAhead(hotRest, candidate, partition, finished);
        var takeHot := hotRest != [] && (candidate.None? || ComparePackets(hotRest[0].packet, candidate.value.packet) != Greater);
        var c := if takeHot then hotRest[0] else candidate.value;
        if takeHot {
          hotRest := hotRest[1..];
        } else {
          candidate := None;
        }
        ghost var sent := log;
        ok := TakeNext(day, c, seen, later, last, s, enabled);
        ContinuesFurther(old(log), sent, log, day);
        seen := seen + {c.packet.id};
        last := Some(c.packet);
        if !ok {
          return false;
        }
      }
      EndDay(day, later);
      return true;
    }

    // ----- the days -----

    /** With `days` left, the client was asked about each of the other days, all of them newer. */
    ghost predicate AtDays(days: set<U64>)
      reads this
    {
      && OldestLeft(days, DaysOf(source))
      && OneRoundPerDay(rounds, log) && DaysAsked(rounds) == DaysOf(source) - days
    }

    lemma BeforeDays()
      requires log == [] && rounds == []
      ensures AtDays(DaysOf(source))
    {
    }

    lemma AfterDays(days: set<U64>)
      requires AtDays(days)
      ensures OneRoundPerDay(rounds, log) && (days == {} ==> DaysAsked(rounds) == DaysOf(source))
    {
    }

    method ProcessLatestDay(days: set<U64>, hotByDay: map<U64, seq<Packet>>) returns (ok: bool, left: set<U64>)
      requires Consistent() && AtDays(days) && days != {} && done == SettledDays(source.All(), days)
      requires forall day :: (if day in hotByDay then hotByDay[day] else []) == OnDay(source.hot, day)
      requires Answered(client, log, true)
      modifies this`states, this`queryStates, this`log, this`storeAsked, this`done, this`rounds, matcher
      ensures Consistent() && AtDays(left) && left < days
      ensures ok ==> done == SettledDays(source.All(), left)
      ensures Answered(client, log, ok)
    {
      hide Progress, StatesFor, SettledDays, DownClosed, Continues, OneRoundPerDay, DaysAsked, OnlyDropsDeactivate, DropsAreFinal, NoDuplicates, OnDay, DaysOf;
      var day := LatestDay(days);
      DaysAreListed(source);
      LatestDayNext(source.All(), days, DaysOf(source), day);
      OnDayMembers(source.hot, day);
      ghost var sent, asked := log, rounds;
      ok := ProcessDay(day, if day in hotByDay then hotByDay[day] else []);
      RoundOfDay(asked, sent, log, day);
      left := days - {day};
    }
  }

  ghost function LookAhead(hot: seq<Candidate>, part: Option<Candidate>, partition: PartitionCandidateSource, finished: bool): Streams
    requires partition.position <= |partition.packets|
    reads partition
  {
    Streams(hot, part, if finished then [] else partition.packets[partition.position..])
  }

  lemma StatesStay(states: seq<FilterState>, states': seq<FilterState>, queries: seq<seq<Filter>>, groups: seq<set<Term>>)
    requires StatesFor(states, queries, groups) && |states'| == |states|
    requires forall j :: 0 <= j < |states| ==> states'[j].(remaining := None) == states[j].(remaining := None)
    ensures StatesFor(states', queries, groups)
  {
    forall j | 0 <= j < |states|
      ensures states'[j].queryIndex == states[j].queryIndex && states'[j].filter == states[j].filter && states'[j].searchGroup == states[j].searchGroup
    {
      assert states'[j].(remaining := None).filter == states[j].(remaining := None).filter;
      assert states'[j].(remaining := None).queryIndex == states[j].(remaining := None).queryIndex;
      assert states'[j].(remaining := None).searchGroup == states[j].(remaining := None).searchGroup;
    }
    forall q, f | 0 <= q < |queries| && f in queries[q]
      ensures Represented(states', q, f)
    {
      assert Represented(states, q, f);
    }
  }

  lemma StatesHaveQueries(src: Source, queries: seq<seq<Filter>>, groups: seq<set<Term>>, run: Run, done: set<Packet>)
    requires StatesFor(run.states, queries, groups) && Progress(src, queries, run, done)
    ensures forall j :: 0 <= j < |run.states| ==> run.states[j].queryIndex < |run.queryStates|
  {
    hide FiltersProgress, QueryProgress, DownClosed;
  }

  lemma WantedIsActive(src: Source, run: Run, c: Candidate, day: U64)
    requires forall j :: 0 <= j < |run.states| ==> run.states[j].queryIndex < |run.queryStates|
    ensures forall q: nat :: WantedBy(run, TakesOf(src, run, c, day), q) ==> q < |run.queryStates| && run.queryStates[q].active
  {
    hide Selected, DayOverlapsFilter;
  }

  /** Selecting, marking and logging are the emission of the packet. */
  lemma EmissionIs(run: Run, takes: seq<bool>, p: Packet, states: seq<FilterState>, marked: seq<QueryState>, after: seq<QueryState>,
                   log: seq<Delivery>, queries: seq<nat>)
    requires |takes| == |run.states| == |states| && |marked| == |run.queryStates| == |after|
    requires forall j :: 0 <= j < |states| ==> states[j] == Spent(run.states[j], takes[j])
    requires forall q :: 0 <= q < |marked| ==> marked[q] == Marked(run.queryStates[q], p.id, WantedBy(run, takes, q))
    requires forall q: nat :: q in queries <==> q < |marked| && WantedBy(run, takes, q) && p.id !in run.queryStates[q].emitted
    requires forall q: nat :: q < |after| ==> after[q] == marked[q] || after[q] == marked[q].(active := false)
    requires log == if queries == [] then run.log else run.log + [Delivery(p, queries)]
    ensures Emitted(run, Run(states, after, log), takes, p)
  {
    hide WantedBy;
    DeliveryLogged(run.log, p, queries);
    assert queries == [] ==> forall q: nat :: q !in queries;
  }

  lemma EmittedStatesStay(run: Run, run': Run, takes: seq<bool>, p: Packet, queries: seq<seq<Filter>>, groups: seq<set<Term>>)
    requires StatesFor(run.states, queries, groups) && Emitted(run, run', takes, p)
    ensures StatesFor(run'.states, queries, groups)
  {
    StatesStay(run.states, run'.states, queries, groups);
  }

  /** Asking about a packet that was not settled, and settling it. */
  lemma StillAskedOnce(asked: seq<Packet>, asked': seq<Packet>, done: set<Packet>, done': set<Packet>, p: Packet)
    requires NoDuplicates(asked) && (forall q :: q in asked ==> q in done)
    requires asked' == asked || asked' == asked + [p]
    requires done <= done' && p in done' - done
    ensures NoDuplicates(asked') && forall q :: q in asked' ==> q in done'
  {
    forall i | 0 <= i < |asked|
      ensures asked[i] != p
    {
      assert asked[i] in asked;
    }
  }

  /** Of the packets the chosen candidate settles, the live filters want itself or nothing. */
  lemma ChosenIsTaken(src: Source, queries: seq<seq<Filter>>, run: Run, groups: seq<set<Term>>, day: U64, later: set<Packet>, last: Option<Packet>, s: Streams, c: Candidate)
    requires src.Valid() && StatesFor(run.states, queries, groups)
    requires Progress(src, queries, run, SettledUpTo(later, Today(src.All(), day), last))
    requires Covers(src, run, groups, day, SettledUpTo(later, Today(src.All(), day), last), s)
    requires s.StartAt(c.packet) && c.packet in Today(src.All(), day)
    requires c.packet !in SettledUpTo(later, Today(src.All(), day), last)
    requires last.Some? ==> !Before(c.packet, last.value)
    requires FitsLive(src, run, day, c)
    ensures TakesOnly(src, run, SettledUpTo(later, Today(src.All(), day), last), SettledUpTo(later, Today(src.All(), day), Some(c.packet)),
                      c.packet, TakesOf(src, run, c, day))
  {
    hide Covers, FitsLive, Wanted, SettledUpTo;
    var takes := TakesOf(src, run, c, day);
    forall j | 0 <= j < |takes| && Active(run, j) && run.states[j].remaining != Some(0)
      ensures Wanted(src, run.states[j].filter)
              * (SettledUpTo(later, Today(src.All(), day), Some(c.packet)) - SettledUpTo(later, Today(src.All(), day), last))
              == if takes[j] then {c.packet} else {}
    {
      WantedOfChosen(src, run, groups, day, later, last, s, c, j);
    }
  }

  lemma WantedOfChosen(src: Source, run: Run, groups: seq<set<Term>>, day: U64, later: set<Packet>, last: Option<Packet>, s: Streams, c: Candidate, j: nat)
    requires src.Valid() && j < |run.states| && Active(run, j) && run.states[j].remaining != Some(0)
    requires Covers(src, run, groups, day, SettledUpTo(later, Today(src.All(), day), last), s)
    requires s.StartAt(c.packet) && c.packet in Today(src.All(), day)
    requires c.packet !in SettledUpTo(later, Today(src.All(), day), last)
    requires last.Some? ==> !Before(c.packet, last.value)
    requires FitsLive(src, run, day, c)
    ensures Wanted(src, run.states[j].filter)
            * (SettledUpTo(later, Today(src.All(), day), Some(c.packet)) - SettledUpTo(later, Today(src.All(), day), last))
            == if Takes(src, run, c, day, j) then {c.packet} else {}
  {
    if Live(run, j, day) {
      ChosenSettlesItself(src, run, groups, day, later, last, s, c, j);
    } else {
      forall p | p in Wanted(src, run.states[j].filter) && UnixDay(p) == day
        ensures false
      {
        PruningIsSound(run.states[j].filter, p);
      }
    }
  }

  lemma DeliveryLogged(log: seq<Delivery>, p: Packet, queries: seq<nat>)
    ensures forall q: nat :: Received(log + [Delivery(p, queries)], q) == Received(log, q) + (if q in queries then [p] else [])
  {
    forall q: nat {
      ReceivedAppend(log, Delivery(p, queries), q);
    }
  }

  /** A filter state after a candidate it took, or did not take. */
  function Spent(state: FilterState, took: bool): FilterState {
    if took then state.(remaining := Spend(state.remaining)) else state
  }

  function Marked(query: QueryState, id: Id, wanted: bool): QueryState {
    if wanted then query.(emitted := query.emitted + {id}) else query
  }

  lemma NothingSettled(src: Source, queries: seq<seq<Filter>>, run: Run)
    requires |run.queryStates| == |queries| && run.log == []
    requires forall q :: 0 <= q < |queries| ==> run.queryStates[q] == QueryState(true, {})
    requires forall j :: 0 <= j < |run.states| ==> run.states[j].remaining == run.states[j].filter.limit
    ensures Progress(src, queries, run, {})
  {
    forall j | 0 <= j < |run.states|
      ensures FilterProgress(src, run.states[j], {})
    {
      assert Wanted(src, run.states[j].filter) * {} == {};
    }
  }

  lemma DropsKeepProgress(src: Source, queries: seq<seq<Filter>>, run: Run, run': Run, done: set<Packet>)
    requires Progress(src, queries, run, done)
    requires run'.states == run.states && run'.log == run.log && |run'.queryStates| == |run.queryStates|
    requires forall i :: 0 <= i < |run.queryStates| ==>
               run'.queryStates[i] == run.queryStates[i] || run'.queryStates[i] == run.queryStates[i].(active := false)
    ensures Progress(src, queries, run', done)
  {
    forall j | 0 <= j < |run.states| && Active(run', j)
      ensures FilterProgress(src, run.states[j], done)
    {
      assert Active(run, j);
    }
  }

  /** The queries some filter among the first `k` takes the packet for. */
  ghost function WantedUpTo(run: Run, takes: seq<bool>, k: nat): set<nat>
    requires k <= |takes| == |run.states|
  {
    set j | 0 <= j < k && takes[j] :: run.states[j].queryIndex
  }

  /** The loop of `SelectQueries` after `k` filters. */
  ghost predicate SelectedUpTo(run: Run, takes: seq<bool>, id: Id, k: nat, states: seq<FilterState>, queryStates: seq<QueryState>, queryIndexes: seq<nat>) {
    && k <= |takes| == |run.states| == |states| && |queryStates| == |run.queryStates|
    && (forall j :: k <= j < |states| ==> states[j] == run.states[j])
    && (forall j :: 0 <= j < k ==> states[j] == Spent(run.states[j], takes[j]))
    && (forall q :: 0 <= q < |queryStates| ==>
          queryStates[q] == Marked(run.queryStates[q], id, q in WantedUpTo(run, takes, k)))
    && (forall q: nat :: q in queryIndexes <==>
          q < |queryStates| && q in WantedUpTo(run, takes, k) && id !in run.queryStates[q].emitted)
    && NoDuplicates(queryIndexes)
  }

  lemma NoneSelected(run: Run, takes: seq<bool>, id: Id)
    requires |takes| == |run.states|
    ensures SelectedUpTo(run, takes, id, 0, run.states, run.queryStates, [])
  {
  }

  lemma AllSelected(run: Run, takes: seq<bool>, id: Id, states: seq<FilterState>, queryStates: seq<QueryState>, queryIndexes: seq<nat>)
    requires |takes| == |run.states| && SelectedUpTo(run, takes, id, |run.states|, states, queryStates, queryIndexes)
    ensures |states| == |run.states| && |queryStates| == |run.queryStates|
    ensures forall j :: 0 <= j < |states| ==> states[j] == Spent(run.states[j], takes[j])
    ensures forall q :: 0 <= q < |queryStates| ==> queryStates[q] == Marked(run.queryStates[q], id, WantedBy(run, takes, q))
    ensures forall q: nat :: q in queryIndexes <==>
              q < |queryStates| && WantedBy(run, takes, q) && id !in run.queryStates[q].emitted
    ensures NoDuplicates(queryIndexes)
  {
    assert forall q: nat :: q in WantedUpTo(run, takes, |takes|) <==> WantedBy(run, takes, q);
  }

  lemma SelectStep(run: Run, takes: seq<bool>, id: Id, k: nat, states: seq<FilterState>, queryStates: seq<QueryState>, queryIndexes: seq<nat>)
    requires k < |states| == |run.states| && SelectedUpTo(run, takes, id, k, states, queryStates, queryIndexes)
    requires run.states[k].queryIndex < |run.queryStates|
    ensures |takes| == |run.states| && |queryStates| == |run.queryStates| && states[k] == run.states[k]
    ensures queryStates[states[k].queryIndex].active == run.queryStates[states[k].queryIndex].active
    ensures var state := states[k];
            var query := queryStates[state.queryIndex];
            if !takes[k] then SelectedUpTo(run, takes, id, k + 1, states, queryStates, queryIndexes)
            else
              var states' := states[k := Spent(state, true)];
              if id in query.emitted then SelectedUpTo(run, takes, id, k + 1, states', queryStates, queryIndexes)
              else SelectedUpTo(run, takes, id, k + 1, states', queryStates[state.queryIndex := Marked(query, id, true)], queryIndexes + [state.queryIndex])
  {
    var before := WantedUpTo(run, takes, k);
    assert WantedUpTo(run, takes, k + 1) == before + (if takes[k] then {states[k].queryIndex} else {});
    assert forall q: nat :: q in queryIndexes + [states[k].queryIndex] <==> q in queryIndexes || q == states[k].queryIndex;
  }

  // ----- the whole run -----

  /** The days of a source: those of its partitions and of its hot packets. */
  function DaysOf(src: Source): set<U64> {
    src.partitions.Keys + DaysIn(src.hot)
  }

  lemma DaysAreListed(src: Source)
    requires src.Valid()
    ensures forall p :: p in src.All() ==> UnixDay(p) in DaysOf(src)
    ensures SettledDays(src.All(), DaysOf(src)) == {} && SettledDays(src.All(), {}) == src.All()
  {
    forall p | p in src.All()
      ensures UnixDay(p) in DaysOf(src)
    {
      if p in src.hot {
        var i :| 0 <= i < |src.hot| && src.hot[i] == p;
      }
    }
  }

  /** With everything settled, progress is the answer. */
  lemma ProgressAtEnd(src: Source, queries: seq<seq<Filter>>, run: Run)
    requires Progress(src, queries, run, src.All())
    ensures forall q :: 0 <= q < |queries| && run.queryStates[q].active ==> Lists(Received(run.log, q), Target(src, queries[q]))
  {
    forall q | 0 <= q < |queries| && run.queryStates[q].active
      ensures Lists(Received(run.log, q), Target(src, queries[q]))
    {
      assert Target(src, queries[q]) * src.All() == Target(src, queries[q]);
    }
  }

  /** Answers every query in one pass. Each query receives a prefix of its answer; a query the
      client never dropped receives, when the run ends normally, exactly its answer. The client
      is asked about its queries once for each day, between the deliveries of the newer days and
      all others; a query is dropped exactly if it was found inactive then or named in a reply to
      a delivery, and receives nothing from that point on. What one query receives does not
      depend on how the client treats the others. The visibility store is asked about no packet
      twice, so `storeVisible` may stand for a store that changes while the run reads it. */
  method QueryStreamingBatch(source: Source, queries: seq<seq<Filter>>, client: Client)
    returns (ok: bool, log: seq<Delivery>, active: seq<bool>, ghost rounds: Rounds, ghost storeAsked: seq<Packet>)
    requires source.Valid()
    ensures |active| == |queries|
    ensures forall q :: 0 <= q < |queries| ==> ListsPrefix(Received(log, q), Target(source, queries[q]))
    ensures ok ==> forall q :: 0 <= q < |queries| && active[q] ==> Lists(Received(log, q), Target(source, queries[q]))
    ensures forall q :: 0 <= q < |queries| ==> (!active[q] <==> exists n: nat :: n <= |log| && DroppedAt(client, rounds, log, n, q))
    ensures forall n: nat, q: nat :: n <= |log| && q < |queries| && DroppedAt(client, rounds, log, n, q) ==>
              Received(log, q) == Received(log[..n], q)
    ensures OneRoundPerDay(rounds, log)
    ensures ok ==> DaysAsked(rounds) == DaysOf(source)
    ensures NoDuplicates(storeAsked)
    ensures ok <==> forall n: nat :: 0 < n <= |log| ==> client.emit(log[..n]).Dropped?
    ensures !ok ==> log != [] && forall n: nat :: 0 < n < |log| ==> client.emit(log[..n]).Dropped?
  {
    hide Elements, StatesFor, StatesBuilt, Target, DownClosed, SettledDays, FiltersProgress, DaysIn, DroppedAt, OneRoundPerDay, DaysAsked, BatchRun.AtDays;
    var states, groups := BuildFilterStates(queries);
    var matcher := new SearchMatcher(groups);
    var run := new BatchRun(source, queries, client, states, matcher);
    var hotByDay := GroupByDay(source.hot);
    var days := source.partitions.Keys + hotByDay.Keys;
    DaysAreListed(source);
    run.BeforeDays();
    ok := true;
    while days != {} && ok
      invariant fresh(run) && fresh(matcher)
      invariant run.source == source && run.queries == queries && run.client == client && run.matcher == matcher
      invariant run.Consistent() && run.AtDays(days)
      invariant ok ==> run.done == SettledDays(source.All(), days)
      invariant Answered(client, run.log, ok)
      decreases days
    {
      ok, days := run.ProcessLatestDay(days, hotByDay);
    }
    run.AfterDays(days);
    AnsweredMeans(client, run.log, ok);
    log, rounds, storeAsked := run.log, run.rounds, run.storeAsked;
    active := seq(|queries|, q requires 0 <= q < |run.queryStates| reads run => run.queryStates[q].active);
    if ok {
      ProgressAtEnd(source, queries, run.View());
    }
  }
}
