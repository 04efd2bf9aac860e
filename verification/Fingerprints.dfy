/** What the fingerprint of an event file tells: it is the FNV-1a hash of the bytes of the file, and a
    single changed byte shows. */
module Fingerprints {
  import opened Events
  import opened Encoding
  import opened HotFile
  import opened BloomHash

  /** Count, length and hash of the file the packets are framed in. */
  lemma {:induction false} FingerprintOfFile(packets: seq<Bytes>, normalize: Bytes -> Bytes)
    ensures IndexOf(packets, normalize).fingerprint ==
            Fingerprint(|packets|, |FileOf(packets)|, UpdateHash(FNV_OFFSET_BASIS, FileOf(packets)))
  {
    hide UpdateHash, Le;
    if packets == [] {
      EmptyHash();
    } else {
      var init, last := packets[..|packets| - 1], packets[|packets| - 1];
      FingerprintOfFile(init, normalize);
      HashConcat(FNV_OFFSET_BASIS, FileOf(init), Frame(last));
      HashConcat(UpdateHash(FNV_OFFSET_BASIS, FileOf(init)), Le(LEN_BYTES, |last|), last);
    }
  }

  lemma EmptyHash()
    ensures forall hash :: UpdateHash(hash, []) == hash
  {
  }

  /** Two texts that differ in one byte have different hashes, whatever comes before and behind. */
  lemma OneByteTellsHash(hash: U64, before: Bytes, b: Byte, c: Byte, behind: Bytes)
    requires b != c
    ensures UpdateHash(hash, before + [b] + behind) != UpdateHash(hash, before + [c] + behind)
  {
    hide Xor, WrappingMul, Congruent;
    var u := UpdateHash(hash, before);
    HashConcat(hash, before + [b], behind);
    HashConcat(hash, before + [c], behind);
    HashConcat(hash, before, [b]);
    HashConcat(hash, before, [c]);
    assert [b][..0] == [] && [c][..0] == [];
    if UpdateHash(hash, before + [b] + behind) == UpdateHash(hash, before + [c] + behind) {
      CongruentBy(UpdateHash(hash, before + [b] + behind), UpdateHash(hash, before + [c] + behind), 0);
      HashKeepsApart(UpdateHash(u, [b]), UpdateHash(u, [c]), behind);
      MulKeepsApart(Xor(u, b), Xor(u, c));
      XorTellsBytes(u, b, c);
    }
  }

  lemma {:induction false} FileConcat(a: seq<Bytes>, b: seq<Bytes>)
    ensures FileOf(a + b) == FileOf(a) + FileOf(b)
  {
    hide Frame;
    if b == [] {
      assert a + b == a;
    } else {
      var n := |b| - 1;
      FileConcat(a, b[..n]);
      assert (a + b)[..|a + b| - 1] == a + b[..n];
      assert FileOf(a) + (FileOf(b[..n]) + Frame(b[n])) == (FileOf(a) + FileOf(b[..n])) + Frame(b[n]);
    }
  }

  lemma FileAround(packets: seq<Bytes>, i: nat)
    requires i < |packets|
    ensures FileOf(packets) == FileOf(packets[..i]) + Le(LEN_BYTES, |packets[i]|) + packets[i] + FileOf(packets[i + 1..])
  {
    hide Le;
    var one := [packets[i]];
    assert packets == packets[..i] + one + packets[i + 1..];
    FileConcat(packets[..i] + one, packets[i + 1..]);
    FileConcat(packets[..i], one);
    assert one[..0] == [];
    assert FileOf(one) == Frame(packets[i]);
    var a, l, b := FileOf(packets[..i]), Le(LEN_BYTES, |packets[i]|), packets[i];
    assert a + (l + b) == a + l + b;
  }

  function Changed(data: Bytes, k: nat, c: Byte): Bytes
    requires k < |data|
  {
    data[..k] + [c] + data[k + 1..]
  }

  /** Changing one byte of one packet changes the fingerprint of the file. */
  lemma OneByteTellsFingerprint(packets: seq<Bytes>, i: nat, k: nat, c: Byte, normalize: Bytes -> Bytes)
    requires i < |packets| && k < |packets[i]| && c != packets[i][k]
    ensures IndexOf(packets[i := Changed(packets[i], k, c)], normalize).fingerprint != IndexOf(packets, normalize).fingerprint
  {
    hide Le, UpdateHash, IndexOf;
    var data := packets[i];
    var changed := packets[i := Changed(data, k, c)];
    FingerprintOfFile(packets, normalize);
    FingerprintOfFile(changed, normalize);
    FileAround(packets, i);
    FileAround(changed, i);
    var start := FileOf(packets[..i]) + Le(LEN_BYTES, |data|);
    var before, behind := start + data[..k], data[k + 1..] + FileOf(packets[i + 1..]);
    assert changed[..i] == packets[..i] && changed[i + 1..] == packets[i + 1..];
    assert data == data[..k] + [data[k]] + data[k + 1..];
    hide FileOf;
    Regroup(start, data[..k], [data[k]], data[k + 1..], FileOf(packets[i + 1..]));
    Regroup(start, data[..k], [c], data[k + 1..], FileOf(packets[i + 1..]));
    OneByteTellsHash(FNV_OFFSET_BASIS, before, data[k], c, behind);
  }

  lemma Regroup(a: Bytes, b: Bytes, c: Bytes, d: Bytes, e: Bytes)
    ensures a + (b + c + d) + e == (a + b) + c + (d + e)
  {
  }

  // ----- what the hash is -----

  function Bit(x: nat, i: nat): nat {
    if i == 0 then x % 2 else Bit(x / 2, i - 1)
  }

  /** Exclusive or with a byte changes bit `i` exactly where the byte has it set. */
  lemma {:induction false} XorBit(n: nat, p: nat, b: nat, i: nat)
    requires i < n
    ensures Bit(XorBelow(n, p, b), i) == if Bit(b, i) == 0 then Bit(p, i) else 1 - Bit(p, i)
  {
    if i > 0 {
      XorBit(n - 1, p / 2, b / 2, i - 1);
      assert XorBelow(n, p, b) / 2 == XorBelow(n - 1, p / 2, b / 2);
    }
  }

  /** The published FNV-1a hash of the one-byte text "a". */
  lemma HashOfLetterA()
    ensures UpdateHash(FNV_OFFSET_BASIS, [0x61]) == 0xaf63_dc4c_8601_ec8c
  {
    assert [0x61 as Byte][..0] == [];
    assert XorByte(0x25, 0x61) == 0x44 by {
      assert XorBelow(4, 0x2, 0x6) == 0x4;
      assert XorBelow(4, 0x25 / 16, 0x61 / 16) == 0x4;
    }
    assert FNV_OFFSET_BASIS % 256 == 0x25;
  }
}
