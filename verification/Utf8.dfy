/** Search text as characters and as the UTF-8 bytes the search index stores: what is found in
    the bytes is what is found in the characters. */
module Utf8 {
  import opened Events
  import opened SearchLookup

  function EncodeChar(c: char): (b: Bytes)
    ensures b != []
  {
    var n := c as int;
    if n < 0x80 then [n]
    else if n < 0x800 then [0xC0 + n / 64, 0x80 + n % 64]
    else if n < 0x1_0000 then [0xE0 + n / 4096, 0x80 + n / 64 % 64, 0x80 + n % 64]
    else [0xF0 + n / 0x4_0000, 0x80 + n / 4096 % 64, 0x80 + n / 64 % 64, 0x80 + n % 64]
  }

  function Encode(text: Text): Bytes {
    if text == [] then [] else EncodeChar(text[0]) + Encode(text[1..])
  }

  /** A byte that starts a character. */
  predicate IsLead(b: Byte) {
    b < 0x80 || b >= 0xC0
  }

  lemma OnlyFirstIsLead(c: char)
    ensures forall i :: 0 <= i < |EncodeChar(c)| ==> (IsLead(EncodeChar(c)[i]) <==> i == 0)
  {
  }

  /** The first byte tells the length, and the bytes tell the character. */
  lemma FirstByteTellsLength(c: char, d: char)
    requires EncodeChar(c)[0] == EncodeChar(d)[0]
    ensures |EncodeChar(c)| == |EncodeChar(d)|
  {
  }

  function ValueOf(b: Bytes): int {
    if |b| == 1 then b[0]
    else if |b| == 2 then (b[0] as int - 0xC0) * 64 + b[1] as int - 0x80
    else if |b| == 3 then (b[0] as int - 0xE0) * 4096 + (b[1] as int - 0x80) * 64 + b[2] as int - 0x80
    else if |b| == 4 then (b[0] as int - 0xF0) * 0x4_0000 + (b[1] as int - 0x80) * 4096 + (b[2] as int - 0x80) * 64 + b[3] as int - 0x80
    else -1
  }

  lemma CharRoundTrip(c: char)
    ensures ValueOf(EncodeChar(c)) == c as int
  {
    var n := c as int;
    assert n / 64 / 64 == n / 4096 && n / 4096 / 64 == n / 0x4_0000;
  }

  lemma CharIsDetermined(c: char, d: char)
    requires EncodeChar(c) == EncodeChar(d)
    ensures c == d
  {
    hide EncodeChar, ValueOf;
    CharRoundTrip(c);
    CharRoundTrip(d);
  }

  lemma {:induction false} EncodeConcat(a: Text, b: Text)
    ensures Encode(a + b) == Encode(a) + Encode(b)
  {
    if a == [] {
      assert a + b == b;
    } else {
      EncodeConcat(a[1..], b);
      assert (a + b)[1..] == a[1..] + b && (a + b)[0] == a[0];
      Associative(EncodeChar(a[0]), Encode(a[1..]), Encode(b));
    }
  }

  lemma Associative(a: Bytes, b: Bytes, c: Bytes)
    ensures a + (b + c) == (a + b) + c
  {
  }

  /** A text whose bytes begin with those of another begins with it. */
  lemma {:induction false} PrefixOfBytes(part: Text, whole: Text)
    requires Encode(part) <= Encode(whole)
    ensures part <= whole
  {
    if part != [] {
      hide EncodeChar;
      assert whole != [];
      var c, d, more, rest := part[0], whole[0], Encode(part[1..]), Encode(whole[1..]);
      assert (EncodeChar(c) + more)[0] == (EncodeChar(d) + rest)[0];
      FirstByteTellsLength(c, d);
      var n := |EncodeChar(c)|;
      assert (EncodeChar(c) + more)[..n] == EncodeChar(c) && (EncodeChar(d) + rest)[..n] == EncodeChar(d);
      CharIsDetermined(c, d);
      assert (EncodeChar(c) + more)[n..] == more && (EncodeChar(d) + rest)[n..] == rest;
      PrefixOfBytes(part[1..], whole[1..]);
      assert part == [c] + part[1..] && whole == [d] + whole[1..];
    }
  }

  /** A lead byte stands at the start of a character. */
  lemma {:induction false} LeadIsAligned(text: Text, at: nat) returns (k: nat)
    requires at < |Encode(text)| && IsLead(Encode(text)[at])
    ensures k < |text| && |Encode(text[..k])| == at && Encode(text[k..]) == Encode(text)[at..]
  {
    OnlyFirstIsLead(text[0]);
    hide EncodeChar, IsLead;
    var first, rest := EncodeChar(text[0]), Encode(text[1..]);
    assert Encode(text) == first + rest;
    if at == 0 {
      k := 0;
      assert text[0..] == text;
    } else {
      assert forall i :: 0 <= i < |first| ==> (first + rest)[i] == first[i];
      assert Encode(text)[at] == rest[at - |first|];
      var inRest := LeadIsAligned(text[1..], at - |first|);
      k := inRest + 1;
      assert text[..k][1..] == text[1..][..inRest] && text[k..] == text[1..][inRest..];
      assert (first + rest)[at..] == rest[at - |first|..];
    }
  }

  lemma EncodedSlice(text: Text, k: nat, term: Text)
    requires OccursAt(text, term, k)
    ensures OccursAt(Encode(text), Encode(term), |Encode(text[..k])|)
  {
    var front, back := text[..k], text[k + |term|..];
    assert text == front + (term + back);
    EncodeConcat(front, term + back);
    EncodeConcat(term, back);
  }

  lemma OccurrenceOfBytes(text: Text, term: Text, at: nat) returns (k: nat)
    requires term != [] && OccursAt(Encode(text), Encode(term), at)
    ensures k <= |text| && OccursAt(text, term, k)
  {
    StartsWithLead(term);
    hide Encode, IsLead;
    SliceInBack(Encode(text), at, Encode(term));
    k := LeadIsAligned(text, at);
    PrefixOfBytes(term, text[k..]);
    hide OccursAt;
    FrontOfBack(text, k, term);
  }

  lemma StartsWithLead(term: Text)
    requires term != []
    ensures Encode(term) != [] && IsLead(Encode(term)[0])
  {
    OnlyFirstIsLead(term[0]);
  }

  lemma SliceInBack(bytes: Bytes, at: nat, wanted: Bytes)
    requires OccursAt(bytes, wanted, at) && wanted != []
    ensures at < |bytes| && bytes[at] == wanted[0] && wanted <= bytes[at..]
  {
    assert bytes[at..][..|wanted|] == bytes[at..at + |wanted|] == wanted;
    assert wanted[0] == bytes[at..at + |wanted|][0];
  }

  lemma FrontOfBack(text: Text, k: nat, term: Text)
    requires k <= |text| && term <= text[k..]
    ensures OccursAt(text, term, k)
  {
    assert text[k..k + |term|] == text[k..][..|term|];
  }

  /** A non-empty term occurs in a text exactly if its bytes occur in the bytes of the text. */
  lemma ContainsIffBytes(text: Text, term: Text)
    requires term != []
    ensures Contains(text, term) <==> Contains(Encode(text), Encode(term))
  {
    hide Encode, OccursAt;
    if k :| 0 <= k <= |text| && OccursAt(text, term, k) {
      EncodedSlice(text, k, term);
      OccurrenceIsInside(Encode(text), Encode(term), |Encode(text[..k])|);
    }
    if at :| 0 <= at <= |Encode(text)| && OccursAt(Encode(text), Encode(term), at) {
      var k := OccurrenceOfBytes(text, term, at);
    }
  }

  lemma OccurrenceIsInside<T>(text: seq<T>, term: seq<T>, at: nat)
    requires OccursAt(text, term, at)
    ensures at <= |text|
  {
  }

  /** A term has no border exactly if its bytes have none. */
  lemma UnborderedIffBytes(term: Text)
    ensures Unbordered(term) <==> Unbordered(Encode(term))
  {
    var bytes := Encode(term);
    forall b | 0 < b < |term| && term[..b] == term[|term| - b..]
      ensures !Unbordered(bytes)
    {
      BorderOfBytes(term, b);
    }
    forall m | 0 < m < |bytes| && bytes[..m] == bytes[|bytes| - m..]
      ensures !Unbordered(term)
    {
      OnlyFirstIsLead(term[0]);
      assert bytes[|bytes| - m] == bytes[|bytes| - m..][0] == bytes[..m][0] == EncodeChar(term[0])[0];
      var k := LeadIsAligned(term, |bytes| - m);
      assert bytes[..m] <= bytes;
      PrefixOfBytes(term[k..], term);
      assert term[..|term| - k] == term[|term| - (|term| - k)..];
    }
  }

  lemma BorderOfBytes(term: Text, b: nat)
    requires 0 < b < |term| && term[..b] == term[|term| - b..]
    ensures !Unbordered(Encode(term))
  {
    var front, back, bytes := term[..b], term[b..], Encode(term);
    var head := term[..|term| - b];
    assert term == front + back && term == head + front;
    EncodeConcat(front, back);
    EncodeConcat(head, front);
    var m := |Encode(front)|;
    assert bytes[..m] == Encode(front) == bytes[|bytes| - m..];
    assert Encode(back) != [] && Encode(front) != [];
  }
}
