/** What it means for a packet to match a filter, as laws about packets and filters: every filter made
    of a packet's own fields matches it, a restricted field decides, an unrestricted one does not
    matter, and a query with plain conditions lists what the conditions say. */
module FilterMatching {
  import opened Events
  import opened Answer
  import opened BatchedSpec
  import opened StreamingQuery
  import H = Handover

  // ----- the tag loop -----

  /** For each tag condition with values, looks for a tag that answers it. */
  method TagsMatch(f: Filter, p: Packet) returns (matches: bool)
    ensures matches <==> MatchesTags(f, p)
  {
    for i := 0 to |f.tags|
      invariant forall j :: 0 <= j < i && f.tags[j].1 != [] ==> Answered(f.tags[j], p)
    {
      var (name, values) := f.tags[i];
      if values == [] {
        continue;
      }
      var found := false;
      for k := 0 to |p.tags|
        invariant !found
        invariant forall l :: 0 <= l < k ==> !TagAnswers(p.tags[l], name, values)
      {
        var tag := p.tags[k];
        if tag == [] || tag[0].IdElement? {
          continue;
        }
        if name >= 128 || tag[0].value != [name] {
          continue;
        }
        if |tag| < 2 {
          continue;
        }
        if tag[1].value in values {
          found := true;
          break;
        }
      }
      if !found {
        assert !Answered(f.tags[i], p);
        return false;
      }
    }
    return true;
  }

  predicate Answered(condition: (nat, seq<Bytes>), p: Packet) {
    exists k :: 0 <= k < |p.tags| && TagAnswers(p.tags[k], condition.0, condition.1)
  }

  // ----- a packet and the filters made of it -----

  const NoConditions := Filter(None, None, None, None, None, None, [], [])

  /** The one-letter names and values of the tags. */
  function OwnTags(tags: seq<seq<Element>>): seq<(nat, seq<Bytes>)> {
    if tags == [] then []
    else
      var tag := tags[0];
      (if |tag| >= 2 && tag[0].TextElement? && |tag[0].value| == 1 && tag[0].value[0] < 128 then [(tag[0].value[0], [tag[1].value])] else [])
      + OwnTags(tags[1..])
  }

  /** The filter that asks for exactly what the packet is. */
  function OwnFilter(p: Packet): Filter {
    Filter(Some([p.id]), Some([p.pubkey]), Some([p.kind]), Some(p.createdAt), Some(p.createdAt), None, OwnTags(p.tags), [])
  }

  predicate WidensList<T(==)>(a: Option<seq<T>>, b: Option<seq<T>>) {
    b.None? || b.value == [] || (a.Some? && a.value != [] && forall x :: x in a.value ==> x in b.value)
  }

  /** `b` is `a` with conditions dropped, or with more ids, authors, kinds or tag values allowed. */
  ghost predicate Widens(a: Filter, b: Filter) {
    && WidensList(a.ids, b.ids) && WidensList(a.authors, b.authors) && WidensList(a.kinds, b.kinds)
    && (b.since.None? || (a.since.Some? && b.since.value <= a.since.value))
    && (b.until.None? || (a.until.Some? && a.until.value <= b.until.value))
    && forall i :: 0 <= i < |b.tags| ==> WidensTag(a.tags, b.tags[i])
  }

  ghost predicate WidensTag(tags: seq<(nat, seq<Bytes>)>, condition: (nat, seq<Bytes>)) {
    condition.1 == [] ||
    exists j :: 0 <= j < |tags| && tags[j].0 == condition.0 && tags[j].1 != [] && forall value :: value in tags[j].1 ==> value in condition.1
  }

  lemma {:induction false} OwnTagsAreAnswered(tags: seq<seq<Element>>, i: nat)
    requires i < |OwnTags(tags)|
    ensures OwnTags(tags)[i].1 != [] && exists k :: 0 <= k < |tags| && TagAnswers(tags[k], OwnTags(tags)[i].0, OwnTags(tags)[i].1)
  {
    var own, rest := OwnTags(tags), OwnTags(tags[1..]);
    if |own| > |rest| && i == 0 {
      assert TagAnswers(tags[0], own[0].0, own[0].1);
    } else {
      var j := i - (|own| - |rest|);
      OwnTagsAreAnswered(tags[1..], j);
      var k :| 0 <= k < |tags[1..]| && TagAnswers(tags[1..][k], rest[j].0, rest[j].1);
      assert TagAnswers(tags[k + 1], own[i].0, own[i].1);
    }
  }

  /** Dropping conditions and allowing more loses no match. */
  lemma WideningKeepsMatches(a: Filter, b: Filter, p: Packet)
    requires MatchesWithoutSearch(a, p) && Widens(a, b)
    ensures MatchesWithoutSearch(b, p)
  {
    forall i | 0 <= i < |b.tags| && b.tags[i].1 != []
      ensures Answered(b.tags[i], p)
    {
      assert WidensTag(a.tags, b.tags[i]);
      var j :| 0 <= j < |a.tags| && a.tags[j].0 == b.tags[i].0 && a.tags[j].1 != [] && forall value :: value in a.tags[j].1 ==> value in b.tags[i].1;
      var k :| 0 <= k < |p.tags| && TagAnswers(p.tags[k], a.tags[j].0, a.tags[j].1);
      assert TagAnswers(p.tags[k], b.tags[i].0, b.tags[i].1);
    }
  }

  /** A packet matches the filter made of its own fields and every wider one. */
  lemma OwnFilterMatches(p: Packet, f: Filter)
    requires Widens(OwnFilter(p), f)
    ensures MatchesWithoutSearch(f, p)
  {
    forall i | 0 <= i < |OwnTags(p.tags)| {
      OwnTagsAreAnswered(p.tags, i);
    }
    WideningKeepsMatches(OwnFilter(p), f, p);
  }

  // ----- one field changed -----

  /** When a packet matches, another id, author, kind or time in its place matches exactly if the
      filter allows it; what the filter does not restrict may be anything. */
  lemma FieldDecides(f: Filter, p: Packet, id: Id, pubkey: Id, kind: U32, createdAt: U64, text: Text)
    requires MatchesWithoutSearch(f, p)
    ensures MatchesWithoutSearch(f, p.(id := id)) <==> f.ids.None? || f.ids.value == [] || id in f.ids.value
    ensures MatchesWithoutSearch(f, p.(pubkey := pubkey)) <==> f.authors.None? || f.authors.value == [] || pubkey in f.authors.value
    ensures MatchesWithoutSearch(f, p.(kind := kind)) <==> f.kinds.None? || f.kinds.value == [] || kind in f.kinds.value
    ensures MatchesWithoutSearch(f, p.(createdAt := createdAt)) <==>
              (f.since.Some? ==> f.since.value <= createdAt) && (f.until.Some? ==> createdAt <= f.until.value)
    ensures MatchesWithoutSearch(f, p.(text := text))
  {
    forall q | q in {p.(id := id), p.(pubkey := pubkey), p.(kind := kind), p.(createdAt := createdAt), p.(text := text)}
      ensures MatchesTags(f, q)
    {
      SameTagsMatch(f, p, q);
    }
  }

  lemma SameTagsMatch(f: Filter, p: Packet, q: Packet)
    requires q.tags == p.tags
    ensures MatchesTags(f, q) == MatchesTags(f, p)
  {
    forall i | 0 <= i < |f.tags|
      ensures Answered(f.tags[i], q) == Answered(f.tags[i], p)
    {
    }
  }

  /** A filter that restricts a field and matches a packet lists the packet's own value. */
  lemma MatchesAreListed(f: Filter, p: Packet)
    requires MatchesWithoutSearch(f, p)
    ensures f.ids.Some? && f.ids.value != [] ==> p.id in f.ids.value
    ensures f.authors.Some? && f.authors.value != [] ==> p.pubkey in f.authors.value
    ensures f.kinds.Some? && f.kinds.value != [] ==> p.kind in f.kinds.value
    ensures f.since.Some? ==> f.since.value <= p.createdAt
    ensures f.until.Some? ==> p.createdAt <= f.until.value
  {
    FieldDecides(f, p, p.id, p.pubkey, p.kind, p.createdAt, p.text);
    assert p.(id := p.id) == p && p.(pubkey := p.pubkey) == p && p.(kind := p.kind) == p && p.(createdAt := p.createdAt) == p;
  }

  // ----- tags -----

  /** The tag spells the condition: its name is the ASCII letter and its value one of the values. */
  ghost predicate Spells(tag: seq<Element>, condition: (nat, seq<Bytes>)) {
    exists name: Byte, value: Element, rest: seq<Element> ::
      tag == [TextElement([name]), value] + rest && name == condition.0 && name < 128 && value.value in condition.1
  }

  lemma SpellingAnswers(tag: seq<Element>, condition: (nat, seq<Bytes>))
    ensures TagAnswers(tag, condition.0, condition.1) <==> Spells(tag, condition)
  {
    if TagAnswers(tag, condition.0, condition.1) {
      var name: Byte := condition.0;
      assert tag[0] == TextElement([name]);
      assert tag == [TextElement([name]), tag[1]] + tag[2..];
    }
  }

  /** Tags decide as they are spelled: every condition with values needs a tag that spells it. */
  lemma TagsMatchIff(f: Filter, p: Packet)
    ensures MatchesTags(f, p) <==>
            forall i :: 0 <= i < |f.tags| && f.tags[i].1 != [] ==> exists k :: 0 <= k < |p.tags| && Spells(p.tags[k], f.tags[i])
  {
    hide TagAnswers, Spells;
    forall i, k | 0 <= i < |f.tags| && 0 <= k < |p.tags|
      ensures TagAnswers(p.tags[k], f.tags[i].0, f.tags[i].1) <==> Spells(p.tags[k], f.tags[i])
    {
      SpellingAnswers(p.tags[k], f.tags[i]);
    }
    if MatchesTags(f, p) {
      forall i | 0 <= i < |f.tags| && f.tags[i].1 != []
        ensures exists k :: 0 <= k < |p.tags| && Spells(p.tags[k], f.tags[i])
      {
        var k :| 0 <= k < |p.tags| && TagAnswers(p.tags[k], f.tags[i].0, f.tags[i].1);
        assert Spells(p.tags[k], f.tags[i]);
      }
    }
    if forall i :: 0 <= i < |f.tags| && f.tags[i].1 != [] ==> exists k :: 0 <= k < |p.tags| && Spells(p.tags[k], f.tags[i]) {
      forall i | 0 <= i < |f.tags| && f.tags[i].1 != []
        ensures exists k :: 0 <= k < |p.tags| && TagAnswers(p.tags[k], f.tags[i].0, f.tags[i].1)
      {
        var k :| 0 <= k < |p.tags| && Spells(p.tags[k], f.tags[i]);
        assert TagAnswers(p.tags[k], f.tags[i].0, f.tags[i].1);
      }
    }
  }

  /** When only tag `k` spells a condition, another tag in its place keeps the match exactly if it
      spells the condition too, for a filter without other tag conditions. */
  lemma OnlyTagDecides(f: Filter, p: Packet, k: nat, tag: seq<Element>)
    requires MatchesWithoutSearch(f, p) && |f.tags| == 1 && f.tags[0].1 != []
    requires k < |p.tags| && forall l :: 0 <= l < |p.tags| && l != k ==> !Spells(p.tags[l], f.tags[0])
    ensures MatchesWithoutSearch(f, p.(tags := p.tags[k := tag])) <==> Spells(tag, f.tags[0])
  {
    hide Spells, MatchesTags;
    var q := p.(tags := p.tags[k := tag]);
    TagsMatchIff(f, q);
    if Spells(tag, f.tags[0]) {
      assert Spells(q.tags[k], f.tags[0]);
    }
  }

  // ----- occurrence of terms -----

  /** A term occurs exactly if the text is something, the term, and something. */
  lemma ContainsIff<T>(text: seq<T>, term: seq<T>)
    ensures Contains(text, term) <==> exists before, after :: text == before + term + after
  {
    if Contains(text, term) {
      var at :| 0 <= at <= |text| && OccursAt(text, term, at);
      assert text == text[..at] + term + text[at + |term|..];
    }
    if before, after :| text == before + term + after {
      assert text[|before|..|before| + |term|] == term;
      assert OccursAt(text, term, |before|);
    }
  }

  // ----- queries -----

  /** The packet meets every condition of the filter, each on its own field. */
  ghost predicate Meets(f: Filter, p: Packet) {
    && (f.ids.Some? && f.ids.value != [] ==> p.id in f.ids.value)
    && (f.authors.Some? && f.authors.value != [] ==> p.pubkey in f.authors.value)
    && (f.kinds.Some? && f.kinds.value != [] ==> p.kind in f.kinds.value)
    && (f.since.Some? ==> f.since.value <= p.createdAt)
    && (f.until.Some? ==> p.createdAt <= f.until.value)
    && (forall i :: 0 <= i < |f.tags| && f.tags[i].1 != [] ==> exists k :: 0 <= k < |p.tags| && Spells(p.tags[k], f.tags[i]))
  }

  lemma MatchesIffMeets(f: Filter, p: Packet)
    ensures MatchesWithoutSearch(f, p) <==> Meets(f, p)
  {
    TagsMatchIff(f, p);
  }

  /** Without limit and search terms the batched answer is every stored packet that meets the
      conditions, and streaming's those of them that are hot or shown by the store. */
  lemma UnlimitedQueryLists(src: Source, lookup: Lookup, f: Filter)
    requires src.Valid() && f.terms == [] && f.limit == None
    ensures Target(src, [f]) == set p | p in src.All() && Meets(f, p)
    ensures StreamTarget(lookup, AsksOf(src, [f])) == set p | p in src.All() && Meets(f, p) && (p in src.hot || src.storeVisible(p))
  {
    StreamedPlain(src, lookup, f);
    var asks := AsksOf(src, [f]);
    assert asks == [Ask(f, src)];
    assert AskWanted(lookup, asks[0]) == StreamWanted(src, lookup, f);
    hide Meets, StreamWanted, MatchesWithoutSearch;
    forall p
      ensures MatchesWithoutSearch(f, p) <==> Meets(f, p)
    {
      MatchesIffMeets(f, p);
    }
    assert f in [f];
    forall p
      ensures p in StreamTarget(lookup, asks) <==> p in StreamWanted(src, lookup, f)
    {
      assert p in StreamWanted(src, lookup, f) ==> p in Cut(AskWanted(lookup, asks[0]), asks[0].filter.limit);
    }
  }

  /** So a query for authors lists exactly the stored packets of these authors, and the live path
      sends exactly theirs. */
  lemma AuthorsQueryLists(src: Source, authors: seq<Id>, p: Packet)
    requires src.Valid() && authors != []
    ensures p in Target(src, [NoConditions.(authors := Some(authors))]) <==> p in src.All() && p.pubkey in authors
    ensures H.MatchesEntry([NoConditions.(authors := Some(authors))], p) <==> p.pubkey in authors
  {
    var f := NoConditions.(authors := Some(authors));
    UnlimitedQueryLists(src, _ => {}, f);
    MatchesIffMeets(f, p);
    assert H.MatchesEntry([f], p) <==> MatchesFilter(f, p) by {
      assert f in [f];
    }
  }

  /** A live event goes to a subscription exactly if it has no filters, or meets all conditions of one
      of them and has all its search terms in its text. */
  lemma LiveMatchIff(filters: seq<Filter>, p: Packet)
    ensures H.MatchesEntry(filters, p) <==>
            filters == [] || exists f :: f in filters && Meets(f, p) && forall term :: term in f.terms ==> exists before, after :: p.text == before + term + after
  {
    hide Meets, MatchesWithoutSearch;
    forall f | f in filters
      ensures MatchesFilter(f, p) <==> Meets(f, p) && forall term :: term in f.terms ==> exists before, after :: p.text == before + term + after
    {
      MatchesIffMeets(f, p);
      TermsOccur(p.text, f.terms);
    }
  }

  /** What an unlimited filter wants: the events that meet a filter without limit and search terms. */
  lemma WantsAllIff(filters: seq<Filter>, p: Packet)
    ensures H.WantsAll(filters, p) <==> exists f :: f in filters && f.limit == None && f.terms == [] && Meets(f, p)
  {
    hide Meets, MatchesWithoutSearch;
    forall f | f in filters
      ensures MatchesWithoutSearch(f, p) <==> Meets(f, p)
    {
      MatchesIffMeets(f, p);
    }
  }

  lemma TermsOccur(text: Text, terms: seq<Term>)
    ensures HasTerms(text, Elements(terms)) <==> forall term :: term in terms ==> exists before, after :: text == before + term + after
  {
    hide Contains;
    forall term
      ensures Contains(text, term) <==> exists before, after :: text == before + term + after
    {
      ContainsIff(text, term);
    }
    if HasTerms(text, Elements(terms)) {
      forall term | term in terms
        ensures Contains(text, term)
      {
        assert term in Elements(terms);
      }
    }
  }
}
