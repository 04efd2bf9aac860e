/** The search index and the Bloom filter, seen by the query engines: for which filters the two
    engines give the same, purely declarative answer. */
module SearchAnswers {
  import opened Events
  import opened Answer
  import opened BatchedSpec
  import opened StreamingQuery
  import SearchLookup
  import Bloom
  import Utf8
  import HotFile
  import Compaction

  /** The index describes the hot snapshot: record `i` holds the bytes of the text of packet `i`. */
  ghost predicate Indexes(index: SearchLookup.TextIndex<Byte>, hot: seq<Packet>) {
    && index.Valid() && index.Records() == |hot|
    && forall i :: 0 <= i < |hot| ==> index.RecordText(i) == Utf8.Encode(hot[i].text)
  }

  /** The index a snapshot comes with describes it, when normalising a payload gives the UTF-8
      bytes of the packet's text. */
  lemma SnapshotIndexDescribes(hot: seq<Packet>, encode: Packet -> Bytes, normalize: Bytes -> Bytes)
    requires forall p :: p in hot ==> normalize(encode(p)) == Utf8.Encode(p.text)
    ensures Indexes(HotFile.IndexOf(Compaction.Encoded(encode, hot), normalize).TextIndex(), hot)
  {
    var packets := Compaction.Encoded(encode, hot);
    HotFile.IndexDescribes(packets, normalize);
    hide HotFile.IndexOf, HotFile.LocatesPackets;
    assert forall i :: 0 <= i < |hot| ==> packets[i] == encode(hot[i]) && hot[i] in hot;
  }

  function EncodedTerms(terms: seq<Term>): seq<Bytes> {
    seq(|terms|, i requires 0 <= i < |terms| => Utf8.Encode(terms[i]))
  }

  /** The lookup of the engines: the records found by the bytes of the terms. */
  function LookupIn(index: SearchLookup.TextIndex<Byte>): Lookup {
    terms => SearchLookup.FoundAll(index, EncodedTerms(terms))
  }

  /** The hot lookup by an index of the snapshot is exact for terms without borders. */
  lemma HotLookupIsExact(src: Source, index: SearchLookup.TextIndex<Byte>, terms: seq<Term>)
    requires Indexes(index, src.hot) && forall term :: term in terms ==> term != []
    requires src.hot == [] || forall term :: term in terms ==> SearchLookup.Unbordered(term)
    ensures LookupExact(src, LookupIn(index), terms)
  {
    if src.hot != [] {
      forall term | term in EncodedTerms(terms)
        ensures SearchLookup.Unbordered(term)
      {
        var i :| 0 <= i < |terms| && EncodedTerms(terms)[i] == term;
        Utf8.UnborderedIffBytes(terms[i]);
      }
      SearchLookup.CandidatesAreExact(index, EncodedTerms(terms));
      forall i | 0 <= i < |src.hot|
        ensures i in LookupIn(index)(terms) <==> HasTerms(src.hot[i].text, Elements(terms))
      {
        TermsInBytes(src.hot[i].text, terms);
        assert index.RecordText(i) == Utf8.Encode(src.hot[i].text);
      }
    }
  }

  lemma TermsInBytes(text: Text, terms: seq<Term>)
    requires forall term :: term in terms ==> term != []
    ensures HasTerms(text, Elements(terms)) <==> forall term :: term in EncodedTerms(terms) ==> Contains(Utf8.Encode(text), term)
  {
    forall term | term in terms
      ensures Contains(text, term) <==> Contains(Utf8.Encode(text), Utf8.Encode(term))
    {
      Utf8.ContainsIffBytes(text, term);
    }
    hide Contains;
    forall i | 0 <= i < |terms|
      ensures Contains(text, terms[i]) <==> Contains(Utf8.Encode(text), EncodedTerms(terms)[i])
    {
      assert terms[i] in terms;
    }
    assert HasTerms(text, Elements(terms)) <==> forall i :: 0 <= i < |terms| ==> Contains(text, terms[i]);
    assert forall i :: 0 <= i < |terms| ==> EncodedTerms(terms)[i] in EncodedTerms(terms);
  }

  /** Every partition's Bloom test asks a filter filled from the partition's texts. */
  ghost predicate FiltersPartitions(src: Source, hash: Bloom.Hashes, bits: map<U64, seq<bv8>>, texts: map<U64, seq<Text>>) {
    forall day :: day in src.partitions ==>
      && day in bits && day in texts && Bloom.FilterOf(bits[day], hash, texts[day])
      && texts[day] == TextsOf(src.partitions[day])
      && forall terms: seq<Term> :: src.bloom(day, Elements(terms)) <==> Bloom.MayMatchTerms(bits[day], hash, terms)
  }

  function TextsOf(packets: seq<Packet>): seq<Text> {
    seq(|packets|, i requires 0 <= i < |packets| => packets[i].text)
  }

  lemma BloomIsTruthful(src: Source, hash: Bloom.Hashes, bits: map<U64, seq<bv8>>, texts: map<U64, seq<Text>>, terms: seq<Term>)
    requires FiltersPartitions(src, hash, bits, texts)
    requires forall term :: term in terms ==> |term| >= 2 && Bloom.SpaceFree(term)
    ensures BloomTruthful(src, Elements(terms))
  {
    forall day, p | day in src.partitions && p in src.partitions[day] && HasTerms(p.text, Elements(terms))
      ensures src.bloom(day, Elements(terms))
    {
      var i :| 0 <= i < |src.partitions[day]| && src.partitions[day][i] == p;
      assert texts[day][i] == p.text;
      forall term | term in terms
        ensures Contains(texts[day][i], term)
      {
        assert term in Elements(terms);
      }
      Bloom.NoFalseNegatives(bits[day], hash, texts[day], i, terms);
    }
  }

  /** For a search filter whose terms are long enough for the Bloom filter and have no borders,
      both engines count exactly the matching packets that contain the terms and are visible. */
  lemma SearchAnswerIsDeclarative(src: Source, index: SearchLookup.TextIndex<Byte>, hash: Bloom.Hashes, bits: map<U64, seq<bv8>>, texts: map<U64, seq<Text>>, f: Filter)
    requires src.Valid() && Indexes(index, src.hot) && FiltersPartitions(src, hash, bits, texts) && f.terms != []
    requires forall term :: term in f.terms ==> |term| >= 2 && Bloom.SpaceFree(term) && SearchLookup.Unbordered(term)
    ensures var answer := set p | p in src.All() && MatchesWithoutSearch(f, p) && HasTerms(p.text, Elements(f.terms))
                                && src.hotVisible(p) && (p in src.hot || src.storeVisible(p));
            Wanted(src, f) == answer && StreamWanted(src, LookupIn(index), f) == answer
  {
    HotLookupIsExact(src, index, f.terms);
    BloomIsTruthful(src, hash, bits, texts, f.terms);
    BloomOnlyPrunes(src, f);
    SearchFiltersAgree(src, LookupIn(index), f);
  }
}
