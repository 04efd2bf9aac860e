/** The Bloom filter over the 2- and 3-character grams of a text's words. Texts are sequences of
    characters and the two gram hashes are arbitrary functions. */
module Bloom {
  import opened Events

  const BLOOM_BYTES: nat := 256 * 1024
  const BLOOM_BITS: nat := BLOOM_BYTES * 8
  const BLOOM_HASHES: nat := 7

  /** The two hashes of a gram. */
  type Hashes = Text -> (U64, U64)

  // ----- single bits -----

  function Mask(k: nat): bv8
    requires k < 8
  {
    match k
    case 0 => 1 case 1 => 2 case 2 => 4 case 3 => 8
    case 4 => 16 case 5 => 32 case 6 => 64 case _ => 128
  }

  lemma SettingOneBit(x: bv8, k: nat, j: nat)
    requires k < 8 && j < 8
    ensures (x | Mask(k)) & Mask(j) != 0 <==> j == k || x & Mask(j) != 0
  {
    MasksAreDisjoint(k, j);
    if j != k {
      assert (x | Mask(k)) & Mask(j) == (x & Mask(j)) | (Mask(k) & Mask(j));
      assert (x & Mask(j)) | 0 == x & Mask(j);
    } else {
      assert (x | Mask(k)) & Mask(k) == Mask(k);
    }
  }

  lemma MasksAreDisjoint(k: nat, j: nat)
    requires k < 8 && j < 8
    ensures Mask(k) & Mask(j) == if j == k then Mask(k) else 0
    ensures Mask(k) != 0
  {
  }

  predicate BitSet(bits: seq<bv8>, b: nat)
    requires b < 8 * |bits|
  {
    bits[b / 8] & Mask(b % 8) != 0
  }

  /** The positions of the bits that are set. */
  function Ones(bits: seq<bv8>): set<nat> {
    set b: nat | 0 <= b < 8 * |bits| && BitSet(bits, b)
  }

  lemma SetBit(bits: seq<bv8>, b: nat)
    requires b < 8 * |bits|
    ensures Ones(bits[b / 8 := bits[b / 8] | Mask(b % 8)]) == Ones(bits) + {b}
  {
    var bits' := bits[b / 8 := bits[b / 8] | Mask(b % 8)];
    forall c: nat | c < 8 * |bits|
      ensures BitSet(bits', c) <==> c == b || BitSet(bits, c)
    {
      if c / 8 == b / 8 {
        SettingOneBit(bits[b / 8], b % 8, c % 8);
      }
    }
  }

  // ----- grams -----

  function Position(hashes: (U64, U64), index: nat): nat {
    ((hashes.0 + index * hashes.1) % (U64_MAX + 1)) % BLOOM_BITS
  }

  function Positions(hash: Hashes, gram: Text): set<nat> {
    set index: nat | 0 <= index < BLOOM_HASHES :: Position(hash(gram), index)
  }

  /** The `n` characters from `i` on. */
  function Window(term: Text, i: nat, n: nat): Text {
    if i + n <= |term| then term[i..i + n] else []
  }

  /** The windows of two and of three characters. */
  function Windows(term: Text): set<Text> {
    (set i: nat | 0 <= i < |term| - 1 :: Window(term, i, 2)) + (set i: nat | 0 <= i < |term| - 2 :: Window(term, i, 3))
  }

  /** The grams of a term: its windows, or the whole of a one-character term. */
  function Grams(term: Text): set<Text> {
    if |term| == 1 then {term} else Windows(term)
  }

  /** The bits a set of grams accounts for. */
  function Marks(hash: Hashes, grams: set<Text>): set<nat> {
    set gram, b | gram in grams && b in Positions(hash, gram) :: b
  }

  method InsertBloomGram(bits: array<bv8>, hash: Hashes, gram: Text)
    requires bits.Length == BLOOM_BYTES
    modifies bits
    ensures Ones(bits[..]) == old(Ones(bits[..])) + Positions(hash, gram)
  {
    var hashes := hash(gram);
    ghost var done: set<nat> := {};
    for index := 0 to BLOOM_HASHES
      invariant done == set i: nat | 0 <= i < index :: Position(hashes, i)
      invariant Ones(bits[..]) == old(Ones(bits[..])) + done
    {
      var bit := Position(hashes, index);
      SetBit(bits[..], bit);
      ghost var before := bits[..];
      bits[bit / 8] := bits[bit / 8] | Mask(bit % 8);
      assert bits[..] == before[bit / 8 := before[bit / 8] | Mask(bit % 8)];
      done := done + {bit};
    }
  }

  lemma MarksOfUnion(hash: Hashes, a: set<Text>, b: set<Text>)
    ensures Marks(hash, a + b) == Marks(hash, a) + Marks(hash, b)
  {
  }

  lemma MarksOfOne(hash: Hashes, gram: Text)
    ensures Marks(hash, {gram}) == Positions(hash, gram)
  {
  }

  lemma WindowOfPrefix(term: Text, i: nat, k: nat, n: nat)
    requires i <= |term| && k + n <= i
    ensures Window(term[..i], k, n) == Window(term, k, n)
  {
  }

  lemma NextWindows(term: Text, i: nat)
    requires i < |term|
    ensures Windows(term[..i + 1]) == Windows(term[..i]) +
            (if i >= 1 then {Window(term, i - 1, 2)} else {}) + (if i >= 2 then {Window(term, i - 2, 3)} else {})
  {
    hide Window;
    var before, after := term[..i], term[..i + 1];
    forall g | g in Windows(after)
      ensures g in Windows(before) || (i >= 1 && g == Window(term, i - 1, 2)) || (i >= 2 && g == Window(term, i - 2, 3))
    {
      if k: nat :| k < i && Window(after, k, 2) == g {
        WindowOfPrefix(term, i + 1, k, 2);
        if k < i - 1 { WindowOfPrefix(term, i, k, 2); }
      } else {
        var k: nat :| k < i - 1 && Window(after, k, 3) == g;
        WindowOfPrefix(term, i + 1, k, 3);
        if k < i - 2 { WindowOfPrefix(term, i, k, 3); }
      }
    }
    forall g | g in Windows(before)
      ensures g in Windows(after)
    {
      if k: nat :| k < i - 1 && Window(before, k, 2) == g {
        WindowOfPrefix(term, i, k, 2);
        WindowOfPrefix(term, i + 1, k, 2);
      } else {
        var k: nat :| k < i - 2 && Window(before, k, 3) == g;
        WindowOfPrefix(term, i, k, 3);
        WindowOfPrefix(term, i + 1, k, 3);
      }
    }
    if i >= 1 { WindowOfPrefix(term, i + 1, i - 1, 2); }
    if i >= 2 { WindowOfPrefix(term, i + 1, i - 2, 3); }
  }

  /** One pass over the characters inserts every window where it ends. */
  method InsertTermGrams(bits: array<bv8>, hash: Hashes, term: Text)
    requires bits.Length == BLOOM_BYTES
    modifies bits
    ensures Ones(bits[..]) == old(Ones(bits[..])) + Marks(hash, Grams(term))
  {
    hide Ones, Marks, Windows, Positions;
    NoMarks(hash);
    var previous, previousPrevious: Option<nat> := None, None;
    for i := 0 to |term|
      invariant previous == if i >= 1 then Some(i - 1) else None
      invariant previousPrevious == if i >= 2 then Some(i - 2) else None
      invariant Ones(bits[..]) == old(Ones(bits[..])) + Marks(hash, Windows(term[..i]))
    {
      NextWindows(term, i);
      ghost var sofar := Windows(term[..i]);
      if previous.Some? {
        InsertBloomGram(bits, hash, term[previous.value..i + 1]);
        MarksOfOne(hash, Window(term, i - 1, 2));
        MarksOfUnion(hash, sofar, {Window(term, i - 1, 2)});
        sofar := sofar + {Window(term, i - 1, 2)};
      }
      if previousPrevious.Some? {
        InsertBloomGram(bits, hash, term[previousPrevious.value..i + 1]);
        MarksOfOne(hash, Window(term, i - 2, 3));
        MarksOfUnion(hash, sofar, {Window(term, i - 2, 3)});
        sofar := sofar + {Window(term, i - 2, 3)};
      }
      assert sofar == Windows(term[..i + 1]);
      previousPrevious := previous;
      previous := Some(i);
    }
    assert term[..|term|] == term;
    if |term| == 1 {
      OneCharacterHasNoWindow(term);
      MarksOfOne(hash, term);
      InsertBloomGram(bits, hash, term);
    }
  }

  lemma NoMarks(hash: Hashes)
    ensures Marks(hash, Windows([])) == {} && Marks(hash, {}) == {}
  {
  }

  lemma OneCharacterHasNoWindow(term: Text)
    requires |term| == 1
    ensures Windows(term) == {}
  {
  }

  // ----- the words of a text -----

  function FirstSpace(text: Text): (k: nat)
    ensures k <= |text| && (k < |text| ==> text[k] == ' ')
    ensures forall i :: 0 <= i < k ==> text[i] != ' '
  {
    if text == [] || text[0] == ' ' then 0 else 1 + FirstSpace(text[1..])
  }

  /** The non-empty pieces between spaces. */
  function Words(text: Text): seq<Text> {
    if text == [] then []
    else
      var k := FirstSpace(text);
      (if k > 0 then [text[..k]] else []) + (if k < |text| then Words(text[k + 1..]) else [])
  }

  function TextGrams(text: Text): set<Text> {
    set i, g | 0 <= i < |Words(text)| && g in Grams(Words(text)[i]) :: g
  }

  method InsertTextGrams(bits: array<bv8>, hash: Hashes, text: Text)
    requires bits.Length == BLOOM_BYTES
    modifies bits
    ensures Ones(bits[..]) == old(Ones(bits[..])) + Marks(hash, TextGrams(text))
  {
    var words := Words(text);
    ghost var done: set<Text> := {};
    for i := 0 to |words|
      invariant done == set k, g | 0 <= k < i && g in Grams(words[k]) :: g
      invariant Ones(bits[..]) == old(Ones(bits[..])) + Marks(hash, done)
    {
      InsertTermGrams(bits, hash, words[i]);
      MarksOfUnion(hash, done, Grams(words[i]));
      done := done + Grams(words[i]);
    }
  }

  predicate SpaceFree(term: Text) {
    forall i :: 0 <= i < |term| ==> term[i] != ' '
  }

  lemma NoSpaceInside(text: Text, term: Text, at: nat, k: nat)
    requires SpaceFree(term) && OccursAt(text, term, at) && k < |text| && text[k] == ' '
    ensures k < at || at + |term| <= k
  {
    assert forall j :: 0 <= j < |term| ==> term[j] == text[at + j];
  }

  /** A space-free term occurring in a text occurs inside one of its words. */
  lemma {:induction false} TermInsideWord(text: Text, term: Text, at: nat) returns (i: nat)
    requires term != [] && SpaceFree(term) && OccursAt(text, term, at)
    ensures i < |Words(text)| && Contains(Words(text)[i], term)
    decreases |text|
  {
    hide Words, SpaceFree;
    var k := FirstSpace(text);
    if at + |term| <= k {
      i := 0;
      WordInFront(text);
      SliceOfPart(text, 0, k, at, term);
      assert text[0..k] == text[..k];
    } else {
      NoSpaceInside(text, term, at, k);
      SliceOfPart(text, k + 1, |text|, at, term);
      assert text[k + 1..|text|] == text[k + 1..];
      var inRest := TermInsideWord(text[k + 1..], term, at - k - 1);
      i := WordBehind(text, inRest);
    }
  }

  lemma SliceOfPart(text: Text, from: nat, to: nat, at: nat, term: Text)
    requires OccursAt(text, term, at) && from <= at && at + |term| <= to <= |text|
    ensures OccursAt(text[from..to], term, at - from)
  {
    var part, n := text[from..to], |term|;
    var whole, inside := text[at..at + n], part[at - from..at - from + n];
    assert whole == term;
    assert forall j :: 0 <= j < n ==> inside[j] == part[at - from + j] == text[at + j] == whole[j];
  }

  lemma WordInFront(text: Text)
    requires FirstSpace(text) > 0
    ensures |Words(text)| > 0 && Words(text)[0] == text[..FirstSpace(text)]
  {
  }

  lemma WordBehind(text: Text, i: nat) returns (j: nat)
    requires FirstSpace(text) < |text| && i < |Words(text[FirstSpace(text) + 1..])|
    ensures j < |Words(text)| && Words(text)[j] == Words(text[FirstSpace(text) + 1..])[i]
  {
    var k := FirstSpace(text);
    var rest := Words(text[k + 1..]);
    j := if k > 0 then i + 1 else i;
    assert Words(text) == (if k > 0 then [text[..k]] else []) + rest;
    hide Words, FirstSpace;
    assert k > 0 ==> ([text[..k]] + rest)[i + 1] == rest[i];
    assert [] + rest == rest;
  }

  lemma WindowOfPart(word: Text, term: Text, at: nat, i: nat, n: nat)
    requires OccursAt(word, term, at) && i + n <= |term|
    ensures Window(term, i, n) == Window(word, at + i, n)
  {
    assert term == word[at..at + |term|];
    var left, right := term[i..i + n], word[at + i..at + i + n];
    assert forall j :: 0 <= j < n ==> left[j] == right[j];
  }

  lemma WindowsOfPart(word: Text, term: Text)
    requires Contains(word, term) && |term| >= 2
    ensures Windows(term) <= Grams(word)
  {
    hide Window;
    var at :| 0 <= at <= |word| && OccursAt(word, term, at);
    forall i: nat, n: nat | i + n <= |term|
      ensures Window(term, i, n) == Window(word, at + i, n)
    {
      WindowOfPart(word, term, at, i, n);
    }
    assert Windows(term) <= Windows(word);
  }

  /** Every gram of a space-free term of two characters or more is a gram of any text that
      contains the term. */
  lemma GramsOfContained(text: Text, term: Text)
    requires |term| >= 2 && SpaceFree(term) && Contains(text, term)
    ensures Grams(term) <= TextGrams(text)
  {
    var at :| 0 <= at <= |text| && OccursAt(text, term, at);
    var i := TermInsideWord(text, term, at);
    WindowsOfPart(Words(text)[i], term);
  }

  // ----- the filter of a partition -----

  /** All bits of the gram are set. */
  predicate ContainsGram(bits: seq<bv8>, hash: Hashes, gram: Text)
    requires |bits| == BLOOM_BYTES
  {
    forall index :: 0 <= index < BLOOM_HASHES ==> BitSet(bits, Position(hash(gram), index))
  }

  predicate MayMatchTerms(bits: seq<bv8>, hash: Hashes, terms: seq<Term>)
    requires |bits| == BLOOM_BYTES
  {
    forall term, gram :: term in terms && gram in Grams(term) ==> ContainsGram(bits, hash, gram)
  }

  function Concat(texts: seq<Text>): Text {
    if texts == [] then [] else texts[0] + Concat(texts[1..])
  }

  function AllGrams(texts: seq<Text>): set<Text> {
    set i, g | 0 <= i < |texts| && g in TextGrams(texts[i]) :: g
  }

  /** The filter of an index grown record by record. */
  method BloomByAppend(hash: Hashes, texts: seq<Text>) returns (bits: array<bv8>)
    ensures fresh(bits) && bits.Length == BLOOM_BYTES && Ones(bits[..]) == Marks(hash, AllGrams(texts))
  {
    bits := new bv8[BLOOM_BYTES](_ => 0);
    NothingSet(bits[..]);
    ghost var done: set<Text> := {};
    for i := 0 to |texts|
      invariant bits.Length == BLOOM_BYTES && fresh(bits)
      invariant done == set k, g | 0 <= k < i && g in TextGrams(texts[k]) :: g
      invariant Ones(bits[..]) == Marks(hash, done)
    {
      InsertTextGrams(bits, hash, texts[i]);
      MarksOfUnion(hash, done, TextGrams(texts[i]));
      done := done + TextGrams(texts[i]);
    }
  }

  /** The filter of an index built at once, over the concatenated text. */
  method BloomByBuild(hash: Hashes, texts: seq<Text>) returns (bits: array<bv8>)
    ensures fresh(bits) && bits.Length == BLOOM_BYTES && Ones(bits[..]) == Marks(hash, TextGrams(Concat(texts)))
  {
    bits := new bv8[BLOOM_BYTES](_ => 0);
    NothingSet(bits[..]);
    InsertTextGrams(bits, hash, Concat(texts));
  }

  lemma NothingSet(bits: seq<bv8>)
    requires forall i :: 0 <= i < |bits| ==> bits[i] == 0
    ensures Ones(bits) == {}
  {
  }

  lemma {:induction false} RecordInsideConcat(texts: seq<Text>, i: nat, term: Text)
    requires i < |texts| && Contains(texts[i], term)
    ensures Contains(Concat(texts), term)
  {
    var head, tail := texts[0], Concat(texts[1..]);
    if i == 0 {
      var at :| 0 <= at <= |head| && OccursAt(head, term, at);
      assert (head + tail)[at..at + |term|] == head[at..at + |term|];
      assert OccursAt(head + tail, term, at);
    } else {
      RecordInsideConcat(texts[1..], i - 1, term);
      var at :| 0 <= at <= |tail| && OccursAt(tail, term, at);
      assert (head + tail)[|head| + at..|head| + at + |term|] == tail[at..at + |term|];
      assert OccursAt(head + tail, term, |head| + at);
    }
  }

  ghost predicate FilterOf(bits: seq<bv8>, hash: Hashes, texts: seq<Text>) {
    |bits| == BLOOM_BYTES && (Ones(bits) == Marks(hash, AllGrams(texts)) || Ones(bits) == Marks(hash, TextGrams(Concat(texts))))
  }

  /** No false negatives: if some record contains all the terms, each space-free and of two
      characters or more, the filter lets them through, whichever way it was filled. */
  lemma NoFalseNegatives(bits: seq<bv8>, hash: Hashes, texts: seq<Text>, i: nat, terms: seq<Term>)
    requires FilterOf(bits, hash, texts) && i < |texts|
    requires forall term :: term in terms ==> |term| >= 2 && SpaceFree(term) && Contains(texts[i], term)
    ensures MayMatchTerms(bits, hash, terms)
  {
    forall term, gram | term in terms && gram in Grams(term)
      ensures ContainsGram(bits, hash, gram)
    {
      GramsOfContained(texts[i], term);
      RecordInsideConcat(texts, i, term);
      GramsOfContained(Concat(texts), term);
      assert gram in AllGrams(texts);
      MarkedGramIsContained(bits, hash, if Ones(bits) == Marks(hash, AllGrams(texts)) then AllGrams(texts) else TextGrams(Concat(texts)), gram);
    }
  }

  lemma MarkedGramIsContained(bits: seq<bv8>, hash: Hashes, grams: set<Text>, gram: Text)
    requires |bits| == BLOOM_BYTES && Ones(bits) == Marks(hash, grams) && gram in grams
    ensures ContainsGram(bits, hash, gram)
  {
    forall index | 0 <= index < BLOOM_HASHES
      ensures BitSet(bits, Position(hash(gram), index))
    {
      assert Position(hash(gram), index) in Positions(hash, gram);
      assert Position(hash(gram), index) in Ones(bits);
    }
  }

  // ----- one-character terms -----

  lemma {:induction false} BitsExist(ones: set<nat>) returns (bits: seq<bv8>)
    requires forall b :: b in ones ==> b < BLOOM_BITS
    ensures |bits| == BLOOM_BYTES && Ones(bits) == ones
  {
    if ones == {} {
      bits := seq(BLOOM_BYTES, _ => 0);
      NothingSet(bits);
    } else {
      var b :| b in ones;
      var rest := BitsExist(ones - {b});
      SetBit(rest, b);
      bits := rest[b / 8 := rest[b / 8] | Mask(b % 8)];
    }
  }

  lemma SpaceFreeIsOneWord(text: Text)
    requires text != [] && SpaceFree(text)
    ensures Words(text) == [text]
  {
    assert FirstSpace(text) == |text|;
    assert text[..|text|] == text;
  }

  lemma OneWindow(text: Text)
    requires |text| == 2
    ensures Windows(text) == {text}
  {
    assert Window(text, 0, 2) == text;
  }

  /** The only gram of a word of two characters is the word. */
  lemma TwoCharacterWord(text: Text)
    requires |text| == 2 && SpaceFree(text)
    ensures TextGrams(text) == {text} && AllGrams([text]) == {text}
  {
    SpaceFreeIsOneWord(text);
    OneWindow(text);
    assert Words(text)[0] == text && Grams(text) == {text};
    assert TextGrams(text) == {text};
    assert [text][0] == text;
  }

  /** A filter holding a single gram misses a term whose own bits are not all among the gram's. */
  lemma FilterOfTwoCharacters(hash: Hashes, text: Text, term: Term, index: nat) returns (bits: seq<bv8>)
    requires |text| == 2 && SpaceFree(text) && |term| == 1
    requires index < BLOOM_HASHES && Position(hash(term), index) !in Positions(hash, text)
    ensures FilterOf(bits, hash, [text]) && !MayMatchTerms(bits, hash, [term])
  {
    TwoCharacterWord(text);
    MarksOfOne(hash, text);
    bits := BitsExist(Positions(hash, text));
    assert !BitSet(bits, Position(hash(term), index));
    assert term in Grams(term) && term in [term];
    assert !ContainsGram(bits, hash, term);
  }
}
