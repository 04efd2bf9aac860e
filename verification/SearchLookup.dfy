/** Term lookup over concatenated record texts: a non-overlapping scan of the whole text, each
    hit mapped to its record by binary search over the offset table. Elements are abstract; the
    source scans UTF-8 bytes. */
module SearchLookup {
  import opened Events

  function Below(n: nat): (s: set<nat>)
    ensures forall i: nat :: i in s <==> i < n
  {
    if n == 0 then {} else Below(n - 1) + {n - 1}
  }

  /** Record `i` owns `text[offsets[i]..offsets[i + 1]]`; records may be empty. */
  datatype TextIndex<T> = TextIndex(offsets: seq<nat>, text: seq<T>)
  {
    ghost predicate Valid() {
      && |offsets| > 0 && offsets[0] == 0 && offsets[|offsets| - 1] == |text|
      && forall i, j :: 0 <= i <= j < |offsets| ==> offsets[i] <= offsets[j]
    }

    function Records(): nat {
      if |offsets| == 0 then 0 else |offsets| - 1
    }

    function RecordText(i: nat): seq<T>
      requires Valid() && i < Records()
    {
      text[offsets[i]..offsets[i + 1]]
    }
  }

  /** The records whose own text contains the term. */
  function Containing<T(==)>(index: TextIndex<T>, term: seq<T>): set<nat>
    requires index.Valid()
  {
    set i | i in Below(index.Records()) && Contains(index.RecordText(i), term)
  }

  // ----- from a position to its record -----

  predicate Owns(offsets: seq<nat>, i: nat, position: nat) {
    i + 1 < |offsets| && offsets[i] <= position < offsets[i + 1]
  }

  /** Binary search for the first offset beyond the position; empty records own nothing. */
  method EventAt(offsets: seq<nat>, position: nat) returns (record: Option<nat>)
    requires forall i, j :: 0 <= i <= j < |offsets| ==> offsets[i] <= offsets[j]
    ensures record.Some? ==> Owns(offsets, record.value, position)
    ensures record.None? ==> forall i: nat :: !Owns(offsets, i, position)
  {
    if |offsets| < 2 {
      return None;
    }
    var low, high := 0, |offsets|;
    while low < high
      invariant 0 <= low <= high <= |offsets|
      invariant forall i :: 0 <= i < low ==> offsets[i] <= position
      invariant forall i :: high <= i < |offsets| ==> position < offsets[i]
    {
      var middle := low + (high - low) / 2;
      if offsets[middle] <= position {
        low := middle + 1;
      } else {
        high := middle;
      }
    }
    if low == 0 || low == |offsets| {
      return None;
    }
    return Some(low - 1);
  }

  // ----- the scan -----

  /** The leftmost occurrence at or after `from`. */
  function Next<T(==)>(text: seq<T>, term: seq<T>, from: nat): (r: Option<nat>)
    ensures r.Some? ==> from <= r.value && OccursAt(text, term, r.value)
    ensures forall at: nat :: from <= at && OccursAt(text, term, at) ==> r.Some? && r.value <= at
    decreases if from <= |text| then |text| - from + 1 else 0
  {
    if from > |text| then None
    else if OccursAt(text, term, from) then Some(from)
    else Next(text, term, from + 1)
  }

  /** The occurrences a scan finds when it resumes behind each one. */
  function Scan<T(==)>(text: seq<T>, term: seq<T>, from: nat): set<nat>
    requires term != []
    decreases if from <= |text| then |text| - from + 1 else 0
  {
    match Next(text, term, from)
    case None => {}
    case Some(at) => {at} + Scan(text, term, at + |term|)
  }

  /** What the lookup of a term returns. */
  function Found<T(==)>(index: TextIndex<T>, term: seq<T>): set<nat> {
    if term == [] then Below(index.Records()) else Owners(index, Scan(index.text, term, 0), |term|)
  }

  /** The records that hold one of the occurrences entirely. */
  function Owners<T>(index: TextIndex<T>, positions: set<nat>, length: nat): set<nat> {
    set i | i in Below(index.Records()) && exists at :: at in positions && Within(index, i, at, length)
  }

  /** An occurrence lies inside record `i`. */
  predicate Within<T>(index: TextIndex<T>, i: nat, at: nat, length: nat)
    requires i < index.Records()
  {
    index.offsets[i] <= at && at + length <= index.offsets[i + 1]
  }

  method TermMatches<T(==)>(index: TextIndex<T>, term: seq<T>) returns (matches: set<nat>)
    requires index.Valid()
    ensures matches == Found(index, term)
  {
    if term == [] {
      return Below(index.Records());
    }
    hide Scanned, Owns, Next;
    matches := {};
    var from := 0;
    ghost var done: set<nat> := {};
    NothingScanned(index, term);
    while true
      invariant Scanned(index, term, from, done, matches)
      decreases if from <= |index.text| then |index.text| - from + 1 else 0
    {
      var hit := Next(index.text, term, from);
      if hit.None? {
        EverythingScanned(index, term, from, done, matches);
        return;
      }
      var record := EventAt(index.offsets, hit.value);
      ScanAdvances(index, term, from, done, matches, record);
      if record.Some? && hit.value + |term| <= index.offsets[record.value + 1] {
        matches := matches + {record.value};
      }
      done := done + {hit.value};
      from := hit.value + |term|;
    }
  }

  /** The occurrences found so far, and the records that hold one of them. */
  ghost predicate Scanned<T>(index: TextIndex<T>, term: seq<T>, from: nat, done: set<nat>, matches: set<nat>)
    requires index.Valid() && term != []
  {
    Scan(index.text, term, 0) == done + Scan(index.text, term, from) && matches == Owners(index, done, |term|)
  }

  lemma ScanAdvances<T>(index: TextIndex<T>, term: seq<T>, from: nat, done: set<nat>, matches: set<nat>, record: Option<nat>)
    requires index.Valid() && term != [] && Scanned(index, term, from, done, matches) && Next(index.text, term, from).Some?
    requires var at := Next(index.text, term, from).value;
      && (record.Some? ==> Owns(index.offsets, record.value, at))
      && (record.None? ==> forall i: nat :: !Owns(index.offsets, i, at))
    ensures var at := Next(index.text, term, from).value;
      && from <= at && at + |term| <= |index.text| && (record.Some? ==> record.value + 1 < |index.offsets|)
      && Scanned(index, term, at + |term|, done + {at},
                 matches + if record.Some? && at + |term| <= index.offsets[record.value + 1] then {record.value} else {})
  {
    hide Scan, Owners, Owns, OccursAt, Next, Within, TextIndex.Valid, TextIndex.Records;
    var at := Next(index.text, term, from).value;
    ScanStep(index.text, term, from);
    if record.Some? {
      OwnsARecord(index.offsets, record.value, at);
    }
    OwnersGrow(index, done, at, |term|, record);
    Associate(done, at, Scan(index.text, term, at + |term|));
  }

  lemma Associate(done: set<nat>, at: nat, rest: set<nat>)
    ensures done + ({at} + rest) == (done + {at}) + rest
  {
  }

  lemma OwnsARecord(offsets: seq<nat>, i: nat, position: nat)
    requires Owns(offsets, i, position)
    ensures i + 1 < |offsets|
  {
  }

  lemma ScanStep<T>(text: seq<T>, term: seq<T>, from: nat)
    requires term != [] && Next(text, term, from).Some?
    ensures var at := Next(text, term, from).value;
      from <= at && at + |term| <= |text| && Scan(text, term, from) == {at} + Scan(text, term, at + |term|)
  {
  }

  lemma NothingScanned<T>(index: TextIndex<T>, term: seq<T>)
    requires index.Valid() && term != []
    ensures Scanned(index, term, 0, {}, {})
  {
    assert Owners(index, {}, |term|) == {};
  }

  lemma EverythingScanned<T>(index: TextIndex<T>, term: seq<T>, from: nat, done: set<nat>, matches: set<nat>)
    requires index.Valid() && term != [] && Scanned(index, term, from, done, matches) && Next(index.text, term, from).None?
    ensures matches == Found(index, term)
  {
    assert Scan(index.text, term, from) == {};
    assert done + {} == done;
  }

  /** A position lies in at most one record, so a hit counts for its owner or for none. */
  lemma OwnersGrow<T>(index: TextIndex<T>, positions: set<nat>, at: nat, length: nat, record: Option<nat>)
    requires index.Valid() && length > 0
    requires record.Some? ==> Owns(index.offsets, record.value, at)
    requires record.None? ==> forall i: nat :: !Owns(index.offsets, i, at)
    ensures Owners(index, positions + {at}, length) == Owners(index, positions, length) +
            if record.Some? && at + length <= index.offsets[record.value + 1] then {record.value} else {}
  {
    forall i: nat | i < index.Records() && Within(index, i, at, length)
      ensures record == Some(i)
    {
      assert Owns(index.offsets, i, at);
    }
  }

  // ----- what the lookup means -----

  lemma {:induction false} ScanFindsOccurrences<T>(text: seq<T>, term: seq<T>, from: nat)
    requires term != []
    ensures forall at :: at in Scan(text, term, from) ==> OccursAt(text, term, at)
    decreases if from <= |text| then |text| - from + 1 else 0
  {
    var hit := Next(text, term, from);
    if hit.Some? {
      ScanFindsOccurrences(text, term, hit.value + |term|);
    }
  }

  /** An occurrence inside a record is an occurrence in the record's own text, and back. */
  lemma OccursInRecord<T>(index: TextIndex<T>, term: seq<T>, i: nat, at: nat)
    requires index.Valid() && i < index.Records() && Within(index, i, at, |term|)
    ensures OccursAt(index.text, term, at) <==> OccursAt(index.RecordText(i), term, at - index.offsets[i])
  {
    var start := at - index.offsets[i];
    assert index.RecordText(i)[start..start + |term|] == index.text[at..at + |term|];
  }

  /** Every record returned contains the term in its own text: never across a boundary. */
  lemma FoundContains<T>(index: TextIndex<T>, term: seq<T>)
    requires index.Valid()
    ensures Found(index, term) <= Containing(index, term)
  {
    forall i | i in Found(index, term)
      ensures Contains(index.RecordText(i), term)
    {
      if term == [] {
        assert OccursAt(index.RecordText(i), term, 0);
      } else {
        ScanFindsOccurrences(index.text, term, 0);
        var at :| at in Scan(index.text, term, 0) && Within(index, i, at, |term|);
        OccursInRecord(index, term, i, at);
        assert OccursAt(index.RecordText(i), term, at - index.offsets[i]);
      }
    }
  }

  /** No proper prefix of the term is also a suffix of it. */
  predicate Unbordered<T(==)>(term: seq<T>) {
    forall b :: 0 < b < |term| ==> term[..b] != term[|term| - b..]
  }

  lemma OccurrencesDoNotOverlap<T>(text: seq<T>, term: seq<T>, p: nat, q: nat)
    requires Unbordered(term) && OccursAt(text, term, p) && OccursAt(text, term, q) && p < q
    ensures p + |term| <= q
  {
    if q < p + |term| {
      OverlapIsBorder(text, term, p, q);
    }
  }

  lemma OverlapIsBorder<T>(text: seq<T>, term: seq<T>, p: nat, q: nat)
    requires OccursAt(text, term, p) && OccursAt(text, term, q) && p < q < p + |term|
    ensures !Unbordered(term)
  {
    var b := p + |term| - q;
    assert term[..b] == text[q..q + |term|][..b] == text[q..q + b];
    assert term[|term| - b..] == text[p..p + |term|][|term| - b..] == text[q..q + b];
  }

  lemma {:induction false} ScanFindsAll<T>(text: seq<T>, term: seq<T>, from: nat, at: nat)
    requires term != [] && Unbordered(term)
    requires from <= at && OccursAt(text, term, at)
    ensures at in Scan(text, term, from)
    decreases if from <= |text| then |text| - from + 1 else 0
  {
    var hit := Next(text, term, from);
    if hit.value < at {
      OccurrencesDoNotOverlap(text, term, hit.value, at);
      ScanFindsAll(text, term, hit.value + |term|, at);
    }
  }

  lemma LookupIsExact<T>(index: TextIndex<T>, term: seq<T>)
    requires index.Valid() && Unbordered(term)
    ensures Found(index, term) == Containing(index, term)
  {
    FoundContains(index, term);
    forall i | i in Containing(index, term)
      ensures i in Found(index, term)
    {
      if term != [] {
        var start :| 0 <= start <= |index.RecordText(i)| && OccursAt(index.RecordText(i), term, start);
        assert |index.RecordText(i)| == index.offsets[i + 1] - index.offsets[i];
        var at := index.offsets[i] + start;
        OccursInRecord(index, term, i, at);
        ScanFindsAll(index.text, term, 0, at);
      }
    }
  }

  /** A bordered term is missed by some index: the scan finds it across the boundary of the two
      records and resumes inside its only true occurrence. */
  lemma BorderedTermIsMissed<T>(term: seq<T>, b: nat) returns (index: TextIndex<T>)
    requires 0 < b < |term| && term[..b] == term[|term| - b..]
    ensures index.Valid() && Found(index, term) != Containing(index, term)
  {
    var n := |term|;
    var head := term[..n - b];
    index := TextIndex([0, n - b, n - b + n], head + term);
    var text := index.text;
    assert text[0..n] == head + text[n - b..n] == head + term[..b] == term;
    assert OccursAt(text, term, 0);
    assert Next(text, term, 0) == Some(0);
    assert Next(text, term, n) == None;
    assert Scan(text, term, n) == {} && Scan(text, term, 0) == {0};
    assert index.RecordText(1) == term && OccursAt(term, term, 0);
    assert 1 in Containing(index, term) && 1 !in Found(index, term);
  }

  /** The lookup of a term is exact on every index if and only if the term has no border. */
  lemma LookupIsExactIff<T(!new)>(term: seq<T>)
    ensures Unbordered(term) <==>
            forall index: TextIndex<T> :: index.Valid() ==> Found(index, term) == Containing(index, term)
  {
    if Unbordered(term) {
      forall index: TextIndex<T> | index.Valid() {
        LookupIsExact(index, term);
      }
    } else {
      var b :| 0 < b < |term| && term[..b] == term[|term| - b..];
      var index := BorderedTermIsMissed(term, b);
    }
  }

  // ----- several terms -----

  /** The records the lookup returns for all the terms. */
  function FoundAll<T(==)>(index: TextIndex<T>, terms: seq<seq<T>>): set<nat> {
    set i | i in Below(index.Records()) && forall term :: term in terms ==> i in Found(index, term)
  }

  /** Intersects the matches term by term and stops early once nothing is left. */
  method CandidateIndexes<T(==)>(index: TextIndex<T>, terms: seq<seq<T>>) returns (matched: Option<set<nat>>)
    requires index.Valid()
    ensures matched.None? <==> terms == []
    ensures matched.Some? ==> matched.value == FoundAll(index, terms)
  {
    if terms == [] {
      return None;
    }
    var found: set<nat> := {};
    for k := 0 to |terms|
      invariant k > 0 ==> found == FoundAll(index, terms[..k])
    {
      var termMatches := TermMatches(index, terms[k]);
      assert terms[..k + 1] == terms[..k] + [terms[k]];
      assert FoundAll(index, terms[..k + 1]) == if k == 0 then termMatches else found * termMatches;
      if k == 0 {
        found := termMatches;
      } else {
        found := found * termMatches;
      }
      if found == {} {
        assert FoundAll(index, terms) <= FoundAll(index, terms[..k + 1]);
        return Some({});
      }
    }
    assert terms[..|terms|] == terms;
    matched := Some(found);
  }

  /** For terms without borders, exactly the records containing all of them. */
  lemma CandidatesAreExact<T>(index: TextIndex<T>, terms: seq<seq<T>>)
    requires index.Valid() && forall term :: term in terms ==> Unbordered(term)
    ensures FoundAll(index, terms) ==
            set i | i in Below(index.Records()) && forall term :: term in terms ==> Contains(index.RecordText(i), term)
  {
    forall term | term in terms {
      LookupIsExact(index, term);
    }
  }
}
