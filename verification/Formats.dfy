/** The encodings as the bytes on disk: byte order, character encoding, the layout of the search index
    file, and which grams its Bloom filter stands for. */
module Formats {
  import opened Events
  import opened Encoding
  import opened IndexFile
  import Bloom
  import HotFile
  import Utf8
  import V = Visibility
  import VisibilityStores

  // ----- byte order -----

  /** Byte `i` of a number, counted from the least significant. */
  function ByteOf(n: nat, i: nat): Byte {
    if i == 0 then n % 256 else ByteOf(n / 256, i - 1)
  }

  lemma {:induction false} LittleEndian(width: nat, n: nat, i: nat)
    requires i < width
    ensures Le(width, n)[i] == ByteOf(n, i)
  {
    if i > 0 {
      LittleEndian(width - 1, n / 256, i - 1);
    }
  }

  lemma {:induction false} BigEndian(width: nat, n: nat, i: nat)
    requires i < width
    ensures Be(width, n)[width - 1 - i] == ByteOf(n, i)
  {
    if i > 0 {
      BigEndian(width - 1, n / 256, i - 1);
    }
  }

  // ----- characters -----

  /** One character of each length, as UTF-8 prescribes. */
  lemma EncodedCharacters()
    ensures Utf8.Encode("a") == [0x61]
    ensures Utf8.Encode("\U{E9}") == [0xC3, 0xA9]
    ensures Utf8.Encode("\U{20AC}") == [0xE2, 0x82, 0xAC]
    ensures Utf8.Encode("\U{1F600}") == [0xF0, 0x9F, 0x98, 0x80]
  {
  }

  // ----- the index file -----

  /** Where everything stands in a written index, in bytes from its start: magic, four numbers,
      twelve bytes for each record, eight for each offset, the Bloom filter and the text. */
  lemma IndexLayout(c: Contents)
    requires |c.records| == c.count && |c.offsets| == c.count + 1 && |c.bloom| == 262144
    requires TextStart(c.count) + |c.text| <= U64_MAX
    ensures var file := Written(c);
            var bloom := 40 + 12 * c.count + 8 * (c.count + 1);
            && |file| == bloom + 262144 + |c.text|
            && file[..8] == [0x53, 0x52, 0x43, 0x48, 0x53, 0x49, 0x30, 0x31]
            && file[8..16] == Le(8, c.count) && file[16..24] == Le(8, c.bytes)
            && file[24..32] == Le(8, c.hash) && file[32..40] == Le(8, c.kindsHash)
            && file[bloom..bloom + 262144] == c.bloom && file[bloom + 262144..] == c.text
  {
    var file := Written(c);
    WrittenLayout(c);
    HeaderFields(file, c);
    hide Written, Header, Pack, U64At, Le;
    NumberAt(file, 8);
    NumberAt(file, 16);
    NumberAt(file, 24);
    NumberAt(file, 32);
  }

  lemma RecordLayout(c: Contents, i: nat)
    requires |c.records| == c.count && |c.offsets| == c.count + 1 && |c.bloom| == Bloom.BLOOM_BYTES
    requires TextStart(c.count) + |c.text| <= U64_MAX && i < c.count
    ensures var file, at := Written(c), 40 + 12 * i;
            at + 12 <= |file| && file[at..at + 8] == Le(8, c.records[i].packetOffset) && file[at + 8..at + 12] == Le(4, c.records[i].packetLen)
  {
    hide Written, Pack, ContentsOf, TextStart, RecordAt, OffsetAt;
    ReadWritten(c);
    ContentsInPlace(Written(c));
    RecordBytes(Written(c), i);
  }

  lemma RecordBytes(file: Bytes, i: nat)
    requires Sized(file) && i < U64At(file, 8)
    ensures var at := 40 + 12 * i;
            at + 12 <= |file| && file[at..at + 8] == Le(8, RecordAt(file, i).packetOffset) && file[at + 8..at + 12] == Le(4, RecordAt(file, i).packetLen)
  {
    hide Le;
    NumberAt(file, 40 + 12 * i);
    ShortNumberAt(file, 48 + 12 * i);
  }

  lemma OffsetLayout(c: Contents, k: nat)
    requires |c.records| == c.count && |c.offsets| == c.count + 1 && |c.bloom| == Bloom.BLOOM_BYTES
    requires TextStart(c.count) + |c.text| <= U64_MAX && k <= c.count
    ensures var file, at := Written(c), 40 + 12 * c.count + 8 * k;
            at + 8 <= |file| && file[at..at + 8] == Le(8, c.offsets[k])
  {
    hide Written, Pack, ContentsOf, TextStart, RecordAt, OffsetAt;
    ReadWritten(c);
    ContentsInPlace(Written(c));
    OffsetBytes(Written(c), k);
  }

  lemma OffsetBytes(file: Bytes, k: nat)
    requires Sized(file) && k <= U64At(file, 8)
    ensures var at := 40 + 12 * U64At(file, 8) + 8 * k;
            at + 8 <= |file| && file[at..at + 8] == Le(8, OffsetAt(file, k))
  {
    hide Le;
    NumberAt(file, 40 + 12 * U64At(file, 8) + 8 * k);
  }

  lemma NumberAt(file: Bytes, at: nat)
    requires at + 8 <= |file|
    ensures file[at..at + 8] == Le(8, U64At(file, at))
  {
    UnLeRoundTrip(file[at..at + 8]);
  }

  lemma ShortNumberAt(file: Bytes, at: nat)
    requires at + 4 <= |file|
    ensures file[at..at + 4] == Le(4, U32At(file, at))
  {
    UnLeRoundTrip(file[at..at + 4]);
  }

  // ----- the event file -----

  /** Reading a packet ends the file when not even a length is left, fails when the packet is cut off,
      and otherwise returns what the length, least significant byte first, says. */
  lemma ReadOutcome(file: Bytes, at: nat, n: U32)
    requires at <= |file|
    ensures HotFile.ReadPacket(file, at) == HotFile.EndOfFile <==> |file| - at < 4
    ensures at + 4 <= |file| && file[at..at + 4] == Le(4, n) ==>
              HotFile.ReadPacket(file, at) == if |file| - at - 4 < n then HotFile.Truncated else HotFile.Whole(file[at + 4..at + 4 + n])
  {
    Widths();
    LeRoundTrip(4, n);
  }

  // ----- the grams of the Bloom filter -----

  /** The windows of a word are its parts of two and of three characters. */
  lemma WindowsAreParts(word: Text, g: Text)
    ensures g in Bloom.Windows(word) <==> (|g| == 2 || |g| == 3) && Contains(word, g)
  {
    if g in Bloom.Windows(word) {
      var i: nat, n: nat :| i + n <= |word| && (n == 2 || n == 3) && Bloom.Window(word, i, n) == g;
      assert OccursAt(word, g, i);
    }
    if (|g| == 2 || |g| == 3) && Contains(word, g) {
      var at :| 0 <= at <= |word| && OccursAt(word, g, at);
      assert Bloom.Window(word, at, |g|) == g;
    }
  }

  lemma {:induction false} WordsAreParts(text: Text, i: nat)
    requires i < |Bloom.Words(text)|
    ensures Bloom.Words(text)[i] != [] && Bloom.SpaceFree(Bloom.Words(text)[i]) && Contains(text, Bloom.Words(text)[i])
    decreases |text|
  {
    var k := Bloom.FirstSpace(text);
    var word := Bloom.Words(text)[i];
    if k > 0 && i == 0 {
      assert word == text[..k] && OccursAt(text, word, 0);
    } else {
      var rest := text[k + 1..];
      var j := if k > 0 then i - 1 else i;
      assert word == Bloom.Words(rest)[j];
      WordsAreParts(rest, j);
      ContainedInRest(text, k + 1, word);
    }
  }

  lemma ContainedInRest(text: Text, k: nat, word: Text)
    requires k <= |text| && Contains(text[k..], word)
    ensures Contains(text, word)
  {
    var at :| 0 <= at <= |text[k..]| && OccursAt(text[k..], word, at);
    assert text[k..][at..at + |word|] == text[k + at..k + at + |word|];
    assert OccursAt(text, word, k + at);
  }

  lemma PartOfPart(text: Text, word: Text, g: Text)
    requires Contains(text, word) && Contains(word, g)
    ensures Contains(text, g)
  {
    var a :| 0 <= a <= |text| && OccursAt(text, word, a);
    var b :| 0 <= b <= |word| && OccursAt(word, g, b);
    assert forall i :: 0 <= i < |g| ==> text[a + b + i] == word[b + i] == g[i];
    assert text[a + b..a + b + |g|] == g;
    assert OccursAt(text, g, a + b);
  }

  /** The grams of a text of two characters or more are its parts of two and three characters without
      a space; a gram of one character is a word of the text. */
  lemma TextGramsAre(text: Text, g: Text)
    ensures g in Bloom.TextGrams(text) <==>
            || ((|g| == 2 || |g| == 3) && Bloom.SpaceFree(g) && Contains(text, g))
            || (|g| == 1 && g in Bloom.Words(text))
  {
    if g in Bloom.TextGrams(text) {
      var i :| 0 <= i < |Bloom.Words(text)| && g in Bloom.Grams(Bloom.Words(text)[i]);
      var word := Bloom.Words(text)[i];
      WordsAreParts(text, i);
      WindowsAreParts(word, g);
      hide Bloom.Words, Bloom.Windows;
      if |word| > 1 {
        PartOfPart(text, word, g);
        PartIsSpaceFree(word, g);
      }
    }
    if (|g| == 2 || |g| == 3) && Bloom.SpaceFree(g) && Contains(text, g) {
      Bloom.GramsOfContained(text, g);
      WindowsAreParts(g, g);
      assert OccursAt(g, g, 0);
      assert g in Bloom.Grams(g);
    }
    if |g| == 1 && g in Bloom.Words(text) {
      var i :| 0 <= i < |Bloom.Words(text)| && Bloom.Words(text)[i] == g;
      assert g in Bloom.Grams(Bloom.Words(text)[i]);
    }
  }

  /** Position `b` is one of the seven of some gram of some text. */
  ghost predicate Marked(hash: Bloom.Hashes, texts: seq<Text>, b: nat) {
    exists i, other, k: nat :: 0 <= i < |texts| && other in Bloom.TextGrams(texts[i]) && k < 7 && b == Bloom.Position(hash(other), k)
  }

  lemma MarkedIff(hash: Bloom.Hashes, texts: seq<Text>, b: nat)
    ensures b in Bloom.Marks(hash, Bloom.AllGrams(texts)) <==> Marked(hash, texts, b)
  {
    hide Bloom.TextGrams, Bloom.Position;
    if b in Bloom.Marks(hash, Bloom.AllGrams(texts)) {
      var other :| other in Bloom.AllGrams(texts) && b in Bloom.Positions(hash, other);
      var i :| 0 <= i < |texts| && other in Bloom.TextGrams(texts[i]);
      var k: nat :| k < 7 && b == Bloom.Position(hash(other), k);
    }
    if Marked(hash, texts, b) {
      var i, other, k: nat :| 0 <= i < |texts| && other in Bloom.TextGrams(texts[i]) && k < 7 && b == Bloom.Position(hash(other), k);
      assert other in Bloom.AllGrams(texts) && b in Bloom.Positions(hash, other);
    }
  }

  /** A filter filled text by text lets a term through exactly if each of the seven positions of each
      of its grams is one of some gram of some text. */
  lemma PassesIff(bits: seq<bv8>, hash: Bloom.Hashes, texts: seq<Text>, term: Term)
    requires |bits| == 262144 && Bloom.Ones(bits) == Bloom.Marks(hash, Bloom.AllGrams(texts))
    ensures Bloom.MayMatchTerms(bits, hash, [term]) <==>
            forall g, index: nat :: g in Bloom.Grams(term) && index < 7 ==> Marked(hash, texts, Bloom.Position(hash(g), index))
  {
    forall g, index: nat | index < 7
      ensures Bloom.BitSet(bits, Bloom.Position(hash(g), index)) <==> Marked(hash, texts, Bloom.Position(hash(g), index))
    {
      MarkedIff(hash, texts, Bloom.Position(hash(g), index));
      assert Bloom.Position(hash(g), index) in Bloom.Ones(bits) <==> Bloom.BitSet(bits, Bloom.Position(hash(g), index));
    }
    hide Marked, Bloom.Grams, Bloom.Position, Bloom.BitSet;
    assert term in [term];
    forall g
      ensures Bloom.ContainsGram(bits, hash, g) <==> forall index: nat :: index < 7 ==> Marked(hash, texts, Bloom.Position(hash(g), index))
    {
    }
  }

  lemma PartIsSpaceFree(word: Text, g: Text)
    requires Bloom.SpaceFree(word) && Contains(word, g)
    ensures Bloom.SpaceFree(g)
  {
    var at :| 0 <= at <= |word| && OccursAt(word, g, at);
    assert forall i :: 0 <= i < |g| ==> g[i] == word[at + i];
  }

  // ----- the visibility databases -----

  /** A winner is kept under author, `d` value and kind, as its id and its time; ids, authors and hashes
      are written as they are, numbers least significant byte first. */
  lemma WinnerLayout(key: V.ReplaceableKey, winner: V.Winner, i: nat)
    ensures var bytes, d := VisibilityStores.ReplaceKey(key), if key.d.Some? then key.d.value else [];
            && |bytes| == 40 + |d| && bytes[32..32 + |d|] == d
            && (i < 32 ==> bytes[i] == ByteOf(key.pubkey, 31 - i)) && (i < 8 ==> bytes[32 + |d| + i] == ByteOf(key.kind, i))
    ensures var bytes := VisibilityStores.WinnerValue(winner);
            && |bytes| == 40
            && (i < 32 ==> bytes[i] == ByteOf(winner.id, 31 - i)) && (i < 8 ==> bytes[32 + i] == ByteOf(winner.createdAt, i))
  {
    hide ByteOf, Be, Le;
    if i < 32 {
      BigEndian(32, key.pubkey, 31 - i);
      BigEndian(32, winner.id, 31 - i);
    }
    if i < 8 {
      LittleEndian(8, key.kind, i);
      LittleEndian(8, winner.createdAt, i);
    }
  }

  /** A deletion is kept under id and author, or under the hash of an address and its time. */
  lemma DeletionLayout(id: Id, pubkey: Id, hash: Bytes -> VisibilityStores.Digest, key: V.ReplaceableKey, createdAt: U64, i: nat)
    ensures var bytes := VisibilityStores.DeletionKey(id, pubkey);
            |bytes| == 64 && (i < 32 ==> bytes[i] == ByteOf(id, 31 - i) && bytes[32 + i] == ByteOf(pubkey, 31 - i))
    ensures var bytes := VisibilityStores.ReplaceDeletionKey(hash, key, createdAt);
            |bytes| == 40 && bytes[..32] == hash(VisibilityStores.Address(key)) && (i < 8 ==> bytes[32 + i] == ByteOf(createdAt, i))
  {
    hide ByteOf, Be, Le, VisibilityStores.Address;
    if i < 32 {
      BigEndian(32, id, 31 - i);
      BigEndian(32, pubkey, 31 - i);
    }
    if i < 8 {
      LittleEndian(8, createdAt, i);
    }
  }
}
