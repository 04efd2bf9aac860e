/** What a query should answer, without days, cursors or indexes: each filter contributes the
    first `limit` of its matches in newest-first order, and the query lists the sorted,
    duplicate-free union. The second half is the counting argument both engines rest on. */
module Answer {
  import opened Events

  /** The matches listed before `p`. */
  function Ahead(matches: set<Packet>, p: Packet): set<Packet> {
    set q | q in matches && Before(q, p)
  }

  /** The first `limit` packets of `matches` in newest-first order. */
  ghost function Cut(matches: set<Packet>, limit: Option<nat>): set<Packet> {
    set p | p in matches && (limit.Some? ==> |Ahead(matches, p)| < limit.value)
  }

  /** `out` lists exactly `answer`, newest first, each packet once. */
  ghost predicate Lists(out: seq<Packet>, answer: set<Packet>) {
    StrictlySorted(out) && Elements(out) == answer
  }

  /** `part` is an initial part of `whole`: nothing of `whole` ahead of it is skipped. */
  ghost predicate InitialPart(part: set<Packet>, whole: set<Packet>) {
    && part <= whole
    && forall p, q :: p in part && q in whole && Before(q, p) ==> q in part
  }

  /** `out` is a prefix of the listing of `answer`. */
  ghost predicate ListsPrefix(out: seq<Packet>, answer: set<Packet>) {
    StrictlySorted(out) && InitialPart(Elements(out), answer)
  }

  // ----- the listing is unique, and a prefix is a prefix -----

  lemma {:induction false} ListsPrefixIsPrefix(out: seq<Packet>, full: seq<Packet>, answer: set<Packet>)
    requires ListsPrefix(out, answer) && Lists(full, answer)
    ensures out <= full
  {
    if out != [] {
      var n := |out| - 1;
      var init, last := out[..n], out[n];
      ListsPrefixInit(out, answer);
      ListsPrefixIsPrefix(init, full, answer);
      assert last in Elements(out) && last in full;
      var k :| 0 <= k < |full| && full[k] == last;
      NextInListing(out, full, answer, k);
    }
  }

  lemma ListsPrefixInit(out: seq<Packet>, answer: set<Packet>)
    requires ListsPrefix(out, answer) && out != []
    ensures ListsPrefix(out[..|out| - 1], answer)
  {
    var init, last := out[..|out| - 1], out[|out| - 1];
    assert Elements(out) == Elements(init) + {last};
    forall p, q | p in init && q in answer && Before(q, p)
      ensures q in init
    {
      assert p in Elements(out) && q in Elements(out);
      var i :| 0 <= i < |init| && init[i] == p;
      assert Before(out[i], last);
    }
  }

  /** After a common beginning, the next packet of a prefix is the next of the listing. */
  lemma NextInListing(out: seq<Packet>, full: seq<Packet>, answer: set<Packet>, k: nat)
    requires ListsPrefix(out, answer) && Lists(full, answer) && out != []
    requires out[..|out| - 1] <= full && k < |full| && full[k] == out[|out| - 1]
    ensures k == |out| - 1
  {
    var n := |out| - 1;
    assert n <= k by {
      assert forall i :: 0 <= i < n ==> full[i] == out[..n][i] == out[i];
    }
    assert forall i :: 0 <= i < n ==> full[i] == out[i];
    assert full[n] in Elements(full) && out[n] in Elements(out);
    assert Before(full[n], out[n]) ==> full[n] in Elements(out);
  }

  /** One listing exists at most: the answer is a sequence, not merely a set. */
  lemma ListingIsUnique(a: seq<Packet>, b: seq<Packet>, answer: set<Packet>)
    requires Lists(a, answer) && Lists(b, answer)
    ensures a == b
  {
    ListsPrefixIsPrefix(a, b, answer);
    ListsPrefixIsPrefix(b, a, answer);
  }

  lemma StrictlySortedHasNoDuplicates(s: seq<Packet>)
    requires StrictlySorted(s)
    ensures |Elements(s)| == |s|
  {
    if s != [] {
      var n := |s| - 1;
      StrictlySortedHasNoDuplicates(s[..n]);
      assert Elements(s) == Elements(s[..n]) + {s[n]};
      assert s[n] !in s[..n];
    }
  }

  /** `Cut` is what it is named after: cutting a listing of the matches at `limit`. */
  lemma CutIsFirstLimit(full: seq<Packet>, matches: set<Packet>, limit: Option<nat>)
    requires Lists(full, matches)
    ensures Lists(if limit.Some? && limit.value < |full| then full[..limit.value] else full, Cut(matches, limit))
  {
    forall k | 0 <= k < |full|
      ensures |Ahead(matches, full[k])| == k
    {
      assert Ahead(matches, full[k]) == Elements(full[..k]);
      StrictlySortedHasNoDuplicates(full[..k]);
    }
    var out := if limit.Some? && limit.value < |full| then full[..limit.value] else full;
    forall p
      ensures p in Cut(matches, limit) <==> p in out
    {
      if p in Cut(matches, limit) {
        var k :| 0 <= k < |full| && full[k] == p;
        assert out[k] == p;
      }
    }
  }

  /** Some packet of a non-empty set comes first. */
  lemma FirstExists(s: set<Packet>) returns (first: Packet)
    requires s != {}
    ensures first in s && Ahead(s, first) == {}
  {
    first :| first in s;
    if Ahead(s, first) != {} {
      var q := FirstExists(Ahead(s, first));
      assert forall x :: x in Ahead(s, q) ==> x in Ahead(Ahead(s, first), q);
      first := q;
    }
  }

  /** Every set of packets has a listing. */
  lemma ListingExists(s: set<Packet>) returns (out: seq<Packet>)
    requires IdsDetermine(s)
    ensures Lists(out, s)
  {
    if s == {} {
      out := [];
    } else {
      var first := FirstExists(s);
      var rest := ListingExists(s - {first});
      out := [first] + rest;
      forall i | 0 <= i < |rest|
        ensures Before(first, rest[i])
      {
        assert rest[i] in Elements(rest) && rest[i] !in Ahead(s, first);
      }
      assert Elements(out) == {first} + Elements(rest);
    }
  }

  lemma CutSize(matches: set<Packet>, limit: Option<nat>)
    requires IdsDetermine(matches)
    ensures |Cut(matches, limit)| == if limit.Some? && limit.value < |matches| then limit.value else |matches|
  {
    var full := ListingExists(matches);
    CutIsFirstLimit(full, matches, limit);
    StrictlySortedHasNoDuplicates(full);
    StrictlySortedHasNoDuplicates(if limit.Some? && limit.value < |full| then full[..limit.value] else full);
  }

  // ----- progress of a query through its candidates -----

  /** Everything of `all` ahead of a settled packet is settled. */
  ghost predicate DownClosed(all: set<Packet>, done: set<Packet>) {
    && done <= all
    && forall p, q :: p in done && q in all && Before(q, p) ==> q in done
  }

  /** What is left of a limit after `taken` matches, never below zero. */
  function Rest(limit: Option<nat>, taken: nat): Option<nat> {
    if limit.None? then None
    else if taken <= limit.value then Some(limit.value - taken)
    else Some(0)
  }

  function Spend(remaining: Option<nat>): Option<nat> {
    if remaining.Some? && remaining.value > 0 then Some(remaining.value - 1) else remaining
  }

  lemma DisjointSteps(a: set<Packet>, b: set<Packet>, m: set<Packet>)
    requires a <= b
    ensures m * b == m * a + m * (b - a)
    ensures |m * b| == |m * a| + |m * (b - a)|
  {
    assert m * b == m * a + m * (b - a);
  }

  /** Settling packets that a filter does not want (its limit is spent or none of them
      matches) spends nothing and settles nothing of its cut. */
  lemma SkipKeepsRest(all: set<Packet>, matches: set<Packet>, limit: Option<nat>, done: set<Packet>, done': set<Packet>)
    requires IdsDetermine(all) && matches <= all
    requires DownClosed(all, done) && DownClosed(all, done') && done <= done'
    requires Rest(limit, |matches * done|) == Some(0) || matches * (done' - done) == {}
    ensures Rest(limit, |matches * done'|) == Rest(limit, |matches * done|)
    ensures Cut(matches, limit) * done' == Cut(matches, limit) * done
  {
    DisjointSteps(done, done', matches);
    forall p | p in Cut(matches, limit) && p in done'
      ensures p in done
    {
      if p !in done {
        assert p in matches * (done' - done);
        assert matches * done <= Ahead(matches, p) by {
          forall q | q in matches * done
            ensures Before(q, p)
          {
            assert q != p;
          }
        }
        SubsetSize(matches * done, Ahead(matches, p));
      }
    }
  }

  /** Settling exactly one wanted match while the limit is not spent: it is in the cut, and
      one unit of the limit is spent. */
  lemma TakeSpendsOne(all: set<Packet>, matches: set<Packet>, limit: Option<nat>, done: set<Packet>, done': set<Packet>, p: Packet)
    requires IdsDetermine(all) && matches <= all
    requires DownClosed(all, done) && DownClosed(all, done') && done <= done'
    requires Rest(limit, |matches * done|) != Some(0)
    requires matches * (done' - done) == {p}
    ensures Rest(limit, |matches * done'|) == Spend(Rest(limit, |matches * done|))
    ensures p in Cut(matches, limit) && p !in done
    ensures Cut(matches, limit) * done' == Cut(matches, limit) * done + {p}
  {
    MatchesAheadAreSettled(all, matches, done, done', p);
    TakeFromCut(matches, limit, done, done', p);
  }

  lemma TakeFromCut(matches: set<Packet>, limit: Option<nat>, done: set<Packet>, done': set<Packet>, p: Packet)
    requires done <= done'
    requires Ahead(matches, p) == matches * done
    requires Rest(limit, |matches * done|) != Some(0)
    requires matches * (done' - done) == {p}
    ensures Rest(limit, |matches * done'|) == Spend(Rest(limit, |matches * done|))
    ensures p in Cut(matches, limit) && p !in done
    ensures Cut(matches, limit) * done' == Cut(matches, limit) * done + {p}
  {
    assert p in matches * (done' - done);
    DisjointSteps(done, done', matches);
    var cut := Cut(matches, limit);
    assert p in cut;
    forall q | q in cut && q in done' && q !in done
      ensures q == p
    {
      assert q in matches * (done' - done);
    }
  }

  lemma MatchesAheadAreSettled(all: set<Packet>, matches: set<Packet>, done: set<Packet>, done': set<Packet>, p: Packet)
    requires IdsDetermine(all) && matches <= all
    requires DownClosed(all, done) && DownClosed(all, done') && done <= done'
    requires matches * (done' - done) == {p}
    ensures Ahead(matches, p) == matches * done
  {
    assert p in matches * (done' - done);
    forall q | q in matches
      ensures Before(q, p) <==> q in done
    {
      if Before(q, p) {
        assert q in matches * (done' - done) ==> q == p;
      }
      if q in done {
        assert q != p;
      }
    }
  }

  lemma SubsetSize<T>(a: set<T>, b: set<T>)
    requires a <= b
    ensures |a| <= |b|
  {
    assert b == a + (b - a);
  }

  /** Cutting by the limit and then looking at the packets not yet settled is the same as
      cutting those packets by what is left of the limit. */
  lemma CutOfRest(all: set<Packet>, matches: set<Packet>, limit: Option<nat>, done: set<Packet>)
    requires IdsDetermine(all) && matches <= all && DownClosed(all, done)
    ensures Cut(matches - done, Rest(limit, |matches * done|)) == Cut(matches, limit) - done
  {
    forall p | p in matches - done
      ensures Ahead(matches, p) == matches * done + Ahead(matches - done, p)
      ensures |Ahead(matches, p)| == |matches * done| + |Ahead(matches - done, p)|
    {
      forall q | q in matches * done
        ensures Before(q, p)
      {
        assert q != p;
      }
      assert Ahead(matches, p) == matches * done + Ahead(matches - done, p);
      assert (matches * done) * Ahead(matches - done, p) == {};
    }
  }

  /** A listing grows by a packet that comes after everything settled so far. */
  lemma ListingGrows(all: set<Packet>, done: set<Packet>, out: seq<Packet>, p: Packet)
    requires IdsDetermine(all) && DownClosed(all, done)
    requires StrictlySorted(out) && Elements(out) <= done
    requires p in all - done
    ensures StrictlySorted(out + [p])
    ensures Elements(out + [p]) == Elements(out) + {p}
  {
    forall i | 0 <= i < |out|
      ensures Before(out[i], p)
    {
      assert out[i] in Elements(out);
      assert out[i] != p;
    }
  }
}
