/** Which search groups occur in a text: one shared pass over the text for all groups. */
module SearchMatching {
  import opened Events

  /** Group `g` is switched on in a flag vector; a vector that is too short says no. */
  predicate Flag(flags: seq<bool>, g: nat) {
    g < |flags| && flags[g]
  }

  predicate Reported(groups: seq<set<Term>>, text: Text, enabled: seq<bool>, requested: seq<bool>, g: nat) {
    g < |groups| && Flag(enabled, g) && Flag(requested, g) && HasTerms(text, groups[g])
  }

  predicate Ascending(s: seq<nat>) {
    forall i, j :: 0 <= i < j < |s| ==> s[i] < s[j]
  }

  /** `found` lists exactly the reported groups, ascending. */
  ghost predicate IsReport(found: seq<nat>, groups: seq<set<Term>>, text: Text, enabled: seq<bool>, requested: seq<bool>) {
    && Ascending(found)
    && forall g: nat :: g in found <==> Reported(groups, text, enabled, requested, g)
  }

  /** A report is a function of its arguments: nothing of the matcher's history can show. */
  lemma {:induction false} ReportIsUnique(a: seq<nat>, b: seq<nat>, groups: seq<set<Term>>, text: Text, enabled: seq<bool>, requested: seq<bool>)
    requires IsReport(a, groups, text, enabled, requested)
    requires IsReport(b, groups, text, enabled, requested)
    ensures a == b
  {
    AscendingPrefix(a, b);
    AscendingPrefix(b, a);
  }

  lemma {:induction false} AscendingPrefix(a: seq<nat>, b: seq<nat>)
    requires Ascending(a) && Ascending(b)
    requires forall g :: g in a ==> g in b
    requires forall x, y :: x in a && y in b && y < x ==> y in a
    ensures a <= b
  {
    if a != [] {
      var n := |a| - 1;
      forall x, y | x in a[..n] && y in b && y < x
        ensures y in a[..n]
      {
        assert x in a;
        SmallerIsInFront(a, x, y);
      }
      AscendingPrefix(a[..n], b);
      NextIsSame(a, b);
    }
  }

  lemma SmallerIsInFront(a: seq<nat>, x: nat, y: nat)
    requires Ascending(a) && a != [] && x in a[..|a| - 1] && y in a && y < x
    ensures y in a[..|a| - 1]
  {
    var n := |a| - 1;
    var j :| 0 <= j < n && a[j] == x;
    var i :| 0 <= i < |a| && a[i] == y;
    assert a[j] < a[n];
  }

  lemma NextIsSame(a: seq<nat>, b: seq<nat>)
    requires Ascending(a) && Ascending(b) && a != [] && a[..|a| - 1] <= b
    requires forall g :: g in a ==> g in b
    requires forall x, y :: x in a && y in b && y < x ==> y in a
    ensures a <= b
  {
    var n := |a| - 1;
    assert a[n] in a;
    var k :| 0 <= k < |b| && b[k] == a[n];
    assert forall i :: 0 <= i < n ==> b[i] == a[..n][i] == a[i];
    assert n <= k && b[n] in b && b[n] <= a[n];
  }

  /** The matcher keeps one stamp per distinct term; a term occurs in the text of the current
      call when its stamp is the current generation. */
  class SearchMatcher {
    const groups: seq<set<Term>>
    var matchedGeneration: map<Term, U32>
    var generation: U32

    ghost predicate Valid()
      reads this
    {
      && (forall g :: 0 <= g < |groups| ==> groups[g] != {})
      && (forall g, term :: 0 <= g < |groups| && term in groups[g] ==> term in matchedGeneration)
      && (forall term :: term in matchedGeneration ==> matchedGeneration[term] <= generation)
    }

    constructor (groupTerms: seq<set<Term>>)
      requires forall g :: 0 <= g < |groupTerms| ==> groupTerms[g] != {}
      ensures Valid() && groups == groupTerms
    {
      groups := groupTerms;
      matchedGeneration := map g, term | 0 <= g < |groupTerms| && term in groupTerms[g] :: term := 0;
      generation := 0;
    }

    /** Over any number of calls, the wrap of the 32-bit generation included, a group is
        reported exactly when it is enabled, requested and all its terms occur. */
    method MatchingGroups(text: Text, enabled: seq<bool>, requested: seq<bool>) returns (found: seq<nat>)
      requires Valid()
      modifies this
      ensures Valid()
      ensures IsReport(found, groups, text, enabled, requested)
    {
      found := [];
      if matchedGeneration.Keys == {} {
        // no automaton was built
        return;
      }

      generation := if generation == U32_MAX then 0 else generation + 1;
      if generation == 0 {
        matchedGeneration := map term | term in matchedGeneration :: 0;
        generation := 1;
      }
      MarkOccurring(text);

      for g := 0 to |groups|
        invariant Ascending(found)
        invariant forall i :: 0 <= i < |found| ==> found[i] < g
        invariant forall x: nat :: x in found <==> x < g && Reported(groups, text, enabled, requested, x)
      {
        if Flag(enabled, g) && Flag(requested, g)
           && (forall term :: term in groups[g] ==> matchedGeneration[term] == generation) {
          found := found + [g];
        }
      }
    }

    /** Stamps every term that occurs; the overlapping multi-pattern search reports each. */
    method MarkOccurring(text: Text)
      requires forall term :: term in matchedGeneration ==> matchedGeneration[term] < generation
      modifies this`matchedGeneration
      ensures matchedGeneration.Keys == old(matchedGeneration).Keys
      ensures forall term :: term in matchedGeneration ==> matchedGeneration[term] <= generation
      ensures forall term :: term in matchedGeneration ==>
                (matchedGeneration[term] == generation <==> Contains(text, term))
    {
      var todo := matchedGeneration.Keys;
      while todo != {}
        invariant todo <= matchedGeneration.Keys == old(matchedGeneration).Keys
        invariant forall term :: term in matchedGeneration ==> matchedGeneration[term] <= generation
        invariant forall term :: term in todo ==> matchedGeneration[term] < generation
        invariant forall term :: term in matchedGeneration && term !in todo ==>
                    (matchedGeneration[term] == generation <==> Contains(text, term))
        decreases todo
      {
        var term :| term in todo;
        if Contains(text, term) {
          matchedGeneration := matchedGeneration[term := generation];
        }
        todo := todo - {term};
      }
    }
  }
}
