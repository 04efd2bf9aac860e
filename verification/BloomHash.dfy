/** The two hashes of the Bloom filter: FNV-1a over the bytes of a gram, forwards and backwards.
    With them, exactly the terms of two characters or more are never missed. */
module BloomHash {
  import opened Events
  import opened Encoding
  import opened HotFile
  import opened Bloom
  import Utf8

  // The offset basis of the forward hash, exclusive or with 0x9e37_79b9_7f4a_7c15.
  const SECOND_BASIS: U64 := 0x55c5_e55d_fb68_5f30

  function Reverse(bytes: Bytes): Bytes {
    if bytes == [] then [] else Reverse(bytes[1..]) + [bytes[0]]
  }

  function BloomHashes(bytes: Bytes): (U64, U64) {
    (UpdateHash(FNV_OFFSET_BASIS, bytes), MakeOdd(UpdateHash(SECOND_BASIS, Reverse(bytes))))
  }

  function MakeOdd(hash: U64): U64 {
    hash - hash % 2 + 1
  }

  function HashOf(gram: Text): (U64, U64) {
    BloomHashes(Utf8.Encode(gram))
  }

  // ----- residues modulo the number of bits -----

  lemma BitsArePow2()
    ensures Pow2(21) == BLOOM_BITS
  {
    assert Pow2(10) == 1024;
    assert Pow2(20) == 1024 * 1024;
  }

  predicate Congruent(a: int, b: int) {
    (a - b) % BLOOM_BITS == 0
  }

  lemma CongruentBy(a: int, b: int, k: int)
    requires a - b == k * BLOOM_BITS
    ensures Congruent(a, b)
  {
  }

  lemma Quotient(a: int, b: int) returns (k: int)
    requires Congruent(a, b)
    ensures a - b == k * BLOOM_BITS
  {
    k := (a - b) / BLOOM_BITS;
  }

  /** An odd factor can be cancelled modulo a power of two. */
  lemma {:induction false} OddCancels(n: nat, t: int, x: int, k: int) returns (j: int)
    requires t % 2 == 1 && t * x == k * Pow2(n)
    ensures x == j * Pow2(n)
  {
    if n == 0 {
      j := x;
    } else {
      var u := t / 2;
      assert t == 2 * u + 1;
      assert t * x == 2 * (u * x) + x;
      assert k * Pow2(n) == 2 * (k * Pow2(n - 1));
      var y := k * Pow2(n - 1) - u * x;
      assert x == 2 * y;
      assert t * x == 2 * (t * y);
      j := OddCancels(n - 1, t, y, k);
      assert x == 2 * (j * Pow2(n - 1)) == j * Pow2(n);
    }
  }

  lemma CancelOdd(t: int, x: int)
    requires t % 2 == 1 && Congruent(t * x, 0)
    ensures Congruent(x, 0)
  {
    hide Pow2, Congruent;
    BitsArePow2();
    var k := Quotient(t * x, 0);
    var j := OddCancels(21, t, x, k);
    CongruentBy(x, 0, j);
  }

  // ----- the hash keeps different residues apart -----

  lemma LastBitAndRest(a: int, r: int, b: int, s: int)
    requires 0 <= a < 2 && 0 <= b < 2 && a + 2 * r == b + 2 * s
    ensures a == b && r == s
  {
  }

  lemma SameParity(p: nat, q: nat, b: nat)
    requires (p + b) % 2 == (q + b) % 2
    ensures p % 2 == q % 2
  {
  }

  lemma {:induction false} XorIsInjective(n: nat, p: nat, q: nat, b: nat)
    requires p < Pow2(n) && q < Pow2(n) && XorBelow(n, p, b) == XorBelow(n, q, b)
    ensures p == q
  {
    if n > 0 {
      var r, s := XorBelow(n - 1, p / 2, b / 2), XorBelow(n - 1, q / 2, b / 2);
      LastBitAndRest((p + b) % 2, r, (q + b) % 2, s);
      SameParity(p, q, b);
      XorIsInjective(n - 1, p / 2, q / 2, b / 2);
    }
  }

  lemma {:induction false} XorIsCommutative(n: nat, p: nat, b: nat)
    ensures XorBelow(n, p, b) == XorBelow(n, b, p)
  {
    if n > 0 {
      XorIsCommutative(n - 1, p / 2, b / 2);
    }
  }

  lemma XorByteIsInjective(p: Byte, q: Byte, b: Byte)
    requires XorByte(p, b) == XorByte(q, b)
    ensures p == q
  {
    assert Pow2(4) == 16 && Pow2(8) == 256;
    hide Pow2, XorBelow;
    XorIsInjective(8, p, q, b);
  }

  lemma XorByteIsCommutative(p: Byte, b: Byte)
    ensures XorByte(p, b) == XorByte(b, p)
  {
    hide XorBelow;
    XorIsCommutative(8, p, b);
  }

  lemma XorTouchesLowByte(u: U64, b: Byte)
    ensures Xor(u, b) == 256 * (u / 256) + XorByte(u % 256, b)
  {
    assert u == 256 * (u / 256) + u % 256;
  }

  lemma LowBytesAgree(m: int, x: Byte, n: int, y: Byte, k: int)
    requires (256 * m + x) - (256 * n + y) == k * BLOOM_BITS
    ensures x == y && 256 * m - 256 * n == k * BLOOM_BITS
  {
    assert k * BLOOM_BITS == 256 * (k * 8192);
  }

  lemma XorKeepsApart(u: U64, v: U64, b: Byte)
    requires Congruent(Xor(u, b), Xor(v, b))
    ensures Congruent(u, v)
  {
    var k := Quotient(Xor(u, b), Xor(v, b));
    XorTouchesLowByte(u, b);
    XorTouchesLowByte(v, b);
    hide Xor, XorByte, Congruent;
    LowBytesAgree(u / 256, XorByte(u % 256, b), v / 256, XorByte(v % 256, b), k);
    XorByteIsInjective(u % 256, v % 256, b);
    assert u == 256 * (u / 256) + u % 256 && v == 256 * (v / 256) + v % 256;
    CongruentBy(u, v, k);
  }

  lemma XorTellsBytes(u: U64, b: Byte, c: Byte)
    requires Congruent(Xor(u, b), Xor(u, c))
    ensures b == c
  {
    var k := Quotient(Xor(u, b), Xor(u, c));
    XorTouchesLowByte(u, b);
    XorTouchesLowByte(u, c);
    hide Xor, XorByte, Congruent;
    LowBytesAgree(u / 256, XorByte(u % 256, b), u / 256, XorByte(u % 256, c), k);
    XorByteIsCommutative(u % 256, b);
    XorByteIsCommutative(u % 256, c);
    XorByteIsInjective(b, c, u % 256);
  }

  lemma WrapKeepsResidue(x: int)
    ensures Congruent(x % (U64_MAX + 1), x)
    ensures (x % (U64_MAX + 1)) % BLOOM_BITS == x % BLOOM_BITS
  {
    var q, r := x / (U64_MAX + 1), x % (U64_MAX + 1);
    assert x == q * (U64_MAX + 1) + r;
    assert q * (U64_MAX + 1) == q * 8796093022208 * BLOOM_BITS;
    hide Congruent;
    CongruentBy(r, x, -q * 8796093022208);
    SameRemainder(r, x);
  }

  lemma SameRemainder(a: int, b: int)
    requires Congruent(a, b)
    ensures a % BLOOM_BITS == b % BLOOM_BITS
  {
  }

  lemma CongruentChain(a: int, b: int, c: int)
    requires Congruent(a, b)
    ensures Congruent(b, a)
    ensures Congruent(b, c) ==> Congruent(a, c)
  {
  }

  lemma MulKeepsApart(x: U64, y: U64)
    requires Congruent(WrappingMul(x, FNV_PRIME), WrappingMul(y, FNV_PRIME))
    ensures Congruent(x, y)
  {
    var p, q := x * FNV_PRIME, y * FNV_PRIME;
    WrapKeepsResidue(p);
    WrapKeepsResidue(q);
    CongruentChain(WrappingMul(x, FNV_PRIME), p, q);
    CongruentChain(WrappingMul(y, FNV_PRIME), q, q);
    CongruentChain(p, WrappingMul(x, FNV_PRIME), WrappingMul(y, FNV_PRIME));
    CongruentChain(p, WrappingMul(y, FNV_PRIME), q);
    hide WrappingMul;
    assert p - q == FNV_PRIME * (x - y);
    CancelOdd(FNV_PRIME, x - y);
  }

  lemma {:induction false} HashKeepsApart(u: U64, v: U64, bytes: Bytes)
    requires Congruent(UpdateHash(u, bytes), UpdateHash(v, bytes))
    ensures Congruent(u, v)
  {
    if bytes != [] {
      hide Xor, WrappingMul, Congruent;
      var init, last := bytes[..|bytes| - 1], bytes[|bytes| - 1];
      MulKeepsApart(Xor(UpdateHash(u, init), last), Xor(UpdateHash(v, init), last));
      XorKeepsApart(UpdateHash(u, init), UpdateHash(v, init), last);
      HashKeepsApart(u, v, init);
    }
  }

  lemma {:induction false} HashConcat(u: U64, a: Bytes, b: Bytes)
    ensures UpdateHash(u, a + b) == UpdateHash(UpdateHash(u, a), b)
  {
    if b == [] {
      assert a + b == a;
    } else {
      hide Xor, WrappingMul;
      HashConcat(u, a, b[..|b| - 1]);
      assert (a + b)[..|a + b| - 1] == a + b[..|b| - 1];
    }
  }

  /** Grams that differ in their first byte only hash to different residues. */
  lemma FirstByteTellsHash(b: Byte, c: Byte, rest: Bytes)
    requires Congruent(UpdateHash(FNV_OFFSET_BASIS, [b] + rest), UpdateHash(FNV_OFFSET_BASIS, [c] + rest))
    ensures b == c
  {
    hide Xor, WrappingMul, Congruent;
    HashConcat(FNV_OFFSET_BASIS, [b], rest);
    HashConcat(FNV_OFFSET_BASIS, [c], rest);
    HashKeepsApart(UpdateHash(FNV_OFFSET_BASIS, [b]), UpdateHash(FNV_OFFSET_BASIS, [c]), rest);
    assert [b][..0] == [] && [c][..0] == [];
    MulKeepsApart(Xor(FNV_OFFSET_BASIS, b), Xor(FNV_OFFSET_BASIS, c));
    XorTellsBytes(FNV_OFFSET_BASIS, b, c);
  }

  // ----- two progressions with the same seven residues -----

  lemma SmallMultiple(x: int)
    requires Congruent(x, 0) && -100 < x < 100
    ensures x == 0
  {
  }

  lemma Distributes(j0: int, j1: int, j6: int, t: int)
    ensures (j1 - j0) * t == j1 * t - j0 * t
    ensures t * (j0 + 6 * (j1 - j0) - j6) == j0 * t + 6 * (j1 * t - j0 * t) - j6 * t
  {
  }

  /** If the first, second and last of seven steps of `s` from `a` are among the seven steps of `t`
      from `b`, the progressions start at the same residue or run in opposite directions. */
  lemma SameProgression(a: int, s: int, b: int, t: int, j0: int, j1: int, j6: int)
    requires s % 2 == 1 && t % 2 == 1 && 0 <= j0 <= 6 && 0 <= j1 <= 6 && 0 <= j6 <= 6
    requires Congruent(a, b + j0 * t) && Congruent(a + s, b + j1 * t) && Congruent(a + 6 * s, b + j6 * t)
    ensures Congruent(b, a) || Congruent(b, a + 6 * s)
  {
    var k0 := Quotient(a, b + j0 * t);
    var k1 := Quotient(a + s, b + j1 * t);
    var k6 := Quotient(a + 6 * s, b + j6 * t);
    Distributes(j0, j1, j6, t);
    var d := StepsAgree(a, s, b, t, j0, j0 * t, j1, j1 * t, j6, j6 * t, k0, k1, k6);
    if d == 1 {
      CongruentBy(b, a, -k0);
    } else {
      CongruentBy(b, a + 6 * s, -k0 - 6 * (k1 - k0));
    }
  }

  /** The indices go up or down by one, from end to end. */
  lemma StepsAgree(a: int, s: int, b: int, t: int, j0: int, p0: int, j1: int, p1: int, j6: int, p6: int, k0: int, k1: int, k6: int)
    returns (d: int)
    requires s % 2 == 1 && t % 2 == 1 && 0 <= j0 <= 6 && 0 <= j1 <= 6 && 0 <= j6 <= 6
    requires a - (b + p0) == k0 * BLOOM_BITS && a + s - (b + p1) == k1 * BLOOM_BITS && a + 6 * s - (b + p6) == k6 * BLOOM_BITS
    requires (j1 - j0) * t == p1 - p0 && t * (j0 + 6 * (j1 - j0) - j6) == p0 + 6 * (p1 - p0) - p6
    ensures d == j1 - j0 && ((d == 1 && j0 == 0) || (d == -1 && j0 == 6))
  {
    d := j1 - j0;
    assert s == p1 - p0 + (k1 - k0) * BLOOM_BITS;
    assert d % 2 == 1 by {
      if d % 2 == 0 {
        EvenProduct(d, t, k1 - k0);
      }
    }
    var x := j0 + 6 * d - j6;
    hide Congruent;
    CongruentBy(t * x, 0, k6 - k0 - 6 * (k1 - k0));
    CancelOdd(t, x);
    SmallMultiple(x);
  }

  lemma EvenProduct(d: int, t: int, k: int)
    requires d % 2 == 0
    ensures (d * t + k * BLOOM_BITS) % 2 == 0
  {
    var e := d / 2;
    assert d * t == 2 * (e * t);
    assert k * BLOOM_BITS == 2 * (k * 1048576);
  }

  // ----- one-character terms are missed -----

  /** Position `index` of a gram, up to wrapping. */
  lemma PositionResidue(gram: Text, index: nat)
    ensures Congruent(Position(HashOf(gram), index), HashOf(gram).0 + index * HashOf(gram).1)
    ensures HashOf(gram).1 % 2 == 1
  {
    ResidueOfPosition(HashOf(gram), index);
    OddHash(gram);
  }

  lemma ResidueOfPosition(hashes: (U64, U64), index: nat)
    ensures Congruent(Position(hashes, index), hashes.0 + index * hashes.1)
  {
    hide Congruent;
    var x := hashes.0 + index * hashes.1;
    WrapKeepsResidue(x);
    assert Position(hashes, index) == x % BLOOM_BITS;
    CongruentBy(x % BLOOM_BITS, x, -(x / BLOOM_BITS));
  }

  lemma OddHash(gram: Text)
    ensures HashOf(gram).1 % 2 == 1
  {
    hide UpdateHash, Utf8.Encode, Reverse;
  }

  /** If all bits of `term` are among those of `gram`, the first hash of the gram has one of two residues. */
  lemma SharedBits(term: Text, gram: Text)
    requires forall index :: 0 <= index < BLOOM_HASHES ==> Position(HashOf(term), index) in Positions(HashOf, gram)
    ensures Congruent(HashOf(gram).0, HashOf(term).0) || Congruent(HashOf(gram).0, HashOf(term).0 + 6 * HashOf(term).1)
  {
    hide HashOf, Position, Congruent;
    var j0 := SharedBit(term, gram, 0);
    var j1 := SharedBit(term, gram, 1);
    var j6 := SharedBit(term, gram, 6);
    PositionResidue(term, 0);
    PositionResidue(gram, 0);
    SameProgression(HashOf(term).0, HashOf(term).1, HashOf(gram).0, HashOf(gram).1, j0, j1, j6);
  }

  lemma SharedBit(term: Text, gram: Text, index: nat) returns (j: nat)
    requires index < BLOOM_HASHES && Position(HashOf(term), index) in Positions(HashOf, gram)
    ensures j < BLOOM_HASHES && Congruent(HashOf(term).0 + index * HashOf(term).1, HashOf(gram).0 + j * HashOf(gram).1)
  {
    hide HashOf, Position, Congruent;
    j :| 0 <= j < BLOOM_HASHES && Position(HashOf(gram), j) == Position(HashOf(term), index);
    PositionResidue(term, index);
    PositionResidue(gram, j);
    var x, y := HashOf(term).0 + index * HashOf(term).1, HashOf(gram).0 + j * HashOf(gram).1;
    CongruentChain(Position(HashOf(term), index), x, x);
    CongruentChain(x, Position(HashOf(term), index), y);
  }

  /** Three words end in the term; not all of them can hide its absence. */
  function WordFor(term: Term, k: nat): Text {
    [if k == 0 then 'a' else if k == 1 then 'b' else 'c'] + term
  }

  lemma BytesOfWord(term: Term, k: nat)
    ensures Utf8.Encode(WordFor(term, k)) == [if k == 0 then 97 else if k == 1 then 98 else 99] + Utf8.Encode(term)
  {
    assert WordFor(term, k)[1..] == term;
  }

  lemma WordsHashApart(term: Term, k: nat, l: nat)
    requires k < l < 3
    ensures !Congruent(HashOf(WordFor(term, k)).0, HashOf(WordFor(term, l)).0)
  {
    hide UpdateHash, Congruent, Utf8.Encode, WordFor;
    BytesOfWord(term, k);
    BytesOfWord(term, l);
    if Congruent(HashOf(WordFor(term, k)).0, HashOf(WordFor(term, l)).0) {
      FirstByteTellsHash(if k == 0 then 97 else 98, if l == 1 then 98 else 99, Utf8.Encode(term));
    }
  }

  predicate Shares(term: Term, gram: Text) {
    forall index :: 0 <= index < BLOOM_HASHES ==> Position(HashOf(term), index) in Positions(HashOf, gram)
  }

  lemma SomeWordDoesNotShare(term: Term) returns (k: nat)
    ensures k < 3 && !Shares(term, WordFor(term, k))
  {
    hide HashOf, Congruent, WordFor, Shares;
    k := if !Shares(term, WordFor(term, 0)) then 0 else if !Shares(term, WordFor(term, 1)) then 1 else 2;
    NotAllShare(term);
  }

  lemma NotAllShare(term: Term)
    ensures !(Shares(term, WordFor(term, 0)) && Shares(term, WordFor(term, 1)) && Shares(term, WordFor(term, 2)))
  {
    hide HashOf, Congruent, WordFor, Position;
    WordsHashApart(term, 0, 1);
    WordsHashApart(term, 1, 2);
    WordsHashApart(term, 0, 2);
    if Shares(term, WordFor(term, 0)) && Shares(term, WordFor(term, 1)) && Shares(term, WordFor(term, 2)) {
      SharedBits(term, WordFor(term, 0));
      SharedBits(term, WordFor(term, 1));
      SharedBits(term, WordFor(term, 2));
      Pigeons(HashOf(WordFor(term, 0)).0, HashOf(WordFor(term, 1)).0, HashOf(WordFor(term, 2)).0,
              HashOf(term).0, HashOf(term).0 + 6 * HashOf(term).1);
    }
  }

  lemma Pigeons(a: int, b: int, c: int, x: int, y: int)
    requires Congruent(a, x) || Congruent(a, y)
    requires Congruent(b, x) || Congruent(b, y)
    requires Congruent(c, x) || Congruent(c, y)
    ensures Congruent(a, b) || Congruent(b, c) || Congruent(a, c)
  {
    hide Congruent;
    SameResidue(a, b, x);
    SameResidue(a, b, y);
    SameResidue(b, c, x);
    SameResidue(b, c, y);
    SameResidue(a, c, x);
    SameResidue(a, c, y);
  }

  lemma SameResidue(a: int, b: int, z: int)
    ensures Congruent(a, z) && Congruent(b, z) ==> Congruent(a, b)
  {
  }

  /** Every one-character term is missed in some text that contains it. */
  lemma OneCharacterIsMissed(term: Term) returns (bits: seq<bv8>, text: Text)
    requires |term| == 1 && SpaceFree(term)
    ensures FilterOf(bits, HashOf, [text]) && Contains(text, term) && !MayMatchTerms(bits, HashOf, [term])
  {
    hide HashOf, Position;
    var k := SomeWordDoesNotShare(term);
    text := WordFor(term, k);
    var index :| 0 <= index < BLOOM_HASHES && Position(HashOf(term), index) !in Positions(HashOf, text);
    bits := FilterOfTwoCharacters(HashOf, text, term, index);
    assert text[1..1 + |term|] == term;
    assert OccursAt(text, term, 1);
  }

  /** The filter of the source never hides a record that contains the term, for any texts and
      either way of filling it, if and only if the term has two characters or more. */
  lemma NoFalseNegativesIff(term: Term)
    requires term != [] && SpaceFree(term)
    ensures |term| >= 2 <==>
            forall bits: seq<bv8>, texts: seq<Text>, i: nat ::
              FilterOf(bits, HashOf, texts) && i < |texts| && Contains(texts[i], term) ==> MayMatchTerms(bits, HashOf, [term])
  {
    hide HashOf, Contains, FilterOf, MayMatchTerms;
    if |term| >= 2 {
      forall bits: seq<bv8>, texts: seq<Text>, i: nat | FilterOf(bits, HashOf, texts) && i < |texts| && Contains(texts[i], term) {
        NoFalseNegatives(bits, HashOf, texts, i, [term]);
      }
    } else {
      var bits, text := OneCharacterIsMissed(term);
      assert [text][0] == text;
    }
  }
}
