/** Which packets share a replaceable key: the `d` text of a packet, the address text that names it,
    and who may hide whom. */
module AddressKeys {
  import opened Events
  import opened Encoding
  import opened Visibility
  import opened VisibilityStores

  // ----- the text of the first d tag -----

  predicate IsDTag(tag: seq<Element>) {
    tag != [] && tag[0] == TextElement([100])
  }

  /** Tag `i` is the first `d` tag, and nothing in front of it ends the search. */
  predicate FirstDAt(tags: seq<seq<Element>>, i: nat) {
    i < |tags| && IsDTag(tags[i]) && forall j :: 0 <= j < i ==> tags[j] != [] && tags[j][0].TextElement? && !IsDTag(tags[j])
  }

  predicate IndexedValue(tag: seq<Element>, d: Bytes) {
    |tag| >= 2 && tag[1].value == d && |d| <= 255
  }

  /** The `d` text of a packet: the value of its first `d` tag, and empty when there is none, when it
      has no value or when the value is too long to be indexed. */
  ghost predicate HasD(tags: seq<seq<Element>>, d: Bytes) {
    || (exists i: nat :: FirstDAt(tags, i) && IndexedValue(tags[i], d))
    || (d == [] && forall i: nat, e :: FirstDAt(tags, i) ==> !IndexedValue(tags[i], e))
  }

  lemma {:induction false} FirstDTagIsFirst(tags: seq<seq<Element>>)
    ensures forall i: nat :: FirstDAt(tags, i) ==>
              FirstDTag(tags) == if |tags[i]| >= 2 && |tags[i][1].value| <= 255 then Some(tags[i][1].value) else None
    ensures (forall i: nat :: !FirstDAt(tags, i)) ==> FirstDTag(tags) == None
  {
    if tags != [] && tags[0] != [] && tags[0][0].TextElement? {
      if tags[0][0].value == [100] {
        assert FirstDAt(tags, 0);
      } else {
        var rest := tags[1..];
        FirstDTagIsFirst(rest);
        forall i: nat
          ensures FirstDAt(tags, i) <==> i > 0 && FirstDAt(rest, i - 1)
          ensures FirstDAt(tags, i) ==> tags[i] == rest[i - 1]
        {
          FirstDBehind(tags, i);
        }
        if i: nat :| FirstDAt(rest, i) {
          assert FirstDAt(tags, i + 1);
        }
      }
    }
  }

  lemma FirstDBehind(tags: seq<seq<Element>>, i: nat)
    requires tags != [] && tags[0] != [] && tags[0][0].TextElement? && tags[0][0].value != [100]
    ensures FirstDAt(tags, i) <==> i > 0 && FirstDAt(tags[1..], i - 1)
  {
    if i > 0 && FirstDAt(tags[1..], i - 1) {
      forall j | 0 <= j < i
        ensures tags[j] != [] && tags[j][0].TextElement? && !IsDTag(tags[j])
      {
        assert j > 0 ==> tags[j] == tags[1..][j - 1];
      }
    }
  }

  lemma OnlyOneFirst(tags: seq<seq<Element>>, i: nat, j: nat)
    requires FirstDAt(tags, i) && FirstDAt(tags, j)
    ensures i == j
  {
  }

  /** Every packet of an addressable kind has one `d` text, and it is the one in its key. */
  lemma KeyHoldsD(p: Packet, d: Bytes)
    requires 30_000 <= p.kind < 40_000
    ensures KeyOf(p) == Some(ReplaceableKey(p.pubkey, p.kind, Some(d))) <==> HasD(p.tags, d)
  {
    hide FirstDTag;
    FirstDTagIsFirst(p.tags);
    if i: nat :| FirstDAt(p.tags, i) {
      forall j: nat | FirstDAt(p.tags, j)
        ensures j == i
      {
        OnlyOneFirst(p.tags, i, j);
      }
      if |p.tags[i]| >= 2 && |p.tags[i][1].value| <= 255 {
        assert IndexedValue(p.tags[i], p.tags[i][1].value);
      }
    }
  }

  // ----- sharing a key -----

  predicate Replaceable(kind: U32) {
    kind in {0, 3, 41} || 10_000 <= kind < 20_000
  }

  predicate Addressable(kind: U32) {
    30_000 <= kind < 40_000
  }

  /** Two packets share a key exactly if they are of one author and one kind that has keys and, for
      an addressable kind, have the same `d` text. */
  lemma SameKeyIff(p: Packet, q: Packet)
    ensures KeyOf(p).Some? && KeyOf(p) == KeyOf(q) <==>
            && p.pubkey == q.pubkey && p.kind == q.kind
            && (Replaceable(p.kind) || (Addressable(p.kind) && forall d :: HasD(p.tags, d) <==> HasD(q.tags, d)))
  {
    hide FirstDTag, HasD;
    if Addressable(p.kind) && p.kind == q.kind && p.pubkey == q.pubkey {
      forall d
        ensures HasD(p.tags, d) <==> KeyOf(p).value.d == Some(d)
        ensures HasD(q.tags, d) <==> KeyOf(q).value.d == Some(d)
      {
        KeyHoldsD(p, d);
        KeyHoldsD(q, d);
      }
      assert HasD(p.tags, KeyOf(p).value.d.value);
    }
  }

  /** The address text of a key names exactly the packets that have the key. */
  lemma AddressNamesPacket(key: ReplaceableKey, p: Packet)
    requires WellFormedKey(key) && (Replaceable(key.kind) || Addressable(key.kind))
    ensures KeyOf(p) == ParseAddressTag(Address(key)) <==>
            p.pubkey == key.pubkey && p.kind == key.kind && (Addressable(key.kind) ==> HasD(p.tags, key.d.value))
  {
    AddressRoundTrip(key);
    hide FirstDTag, HasD, Address, ParseAddressTag;
    if Addressable(p.kind) && p.kind == key.kind {
      KeyHoldsD(p, key.d.value);
    }
  }

  // ----- who hides whom -----

  /** A version is superseded exactly by a newer one of the same author, kind and `d` text. */
  lemma SupersedesIff(h: Packet, p: Packet)
    ensures Supersedes(h, p) <==>
            && (h.createdAt > p.createdAt || (h.createdAt == p.createdAt && h.id < p.id))
            && p.pubkey == h.pubkey && p.kind == h.kind
            && (Replaceable(p.kind) || (Addressable(p.kind) && forall d :: HasD(p.tags, d) <==> HasD(h.tags, d)))
  {
    hide KeyOf, HasD;
    SameKeyIff(p, h);
  }

  /** Packets with different `d` texts are visible next to each other, in the index and in the store. */
  lemma DifferentDsAreVisible(p: Packet, q: Packet, d: Bytes, e: Bytes, summary: Summary, hash: Bytes -> Digest)
    requires Addressable(p.kind) && Addressable(q.kind) && HasD(p.tags, d) && HasD(q.tags, e) && d != e
    requires Summarises(summary, {p, q}) && IdsDetermine({p, q}) && NoCollision(hash, summary, p)
    ensures IndexVisible(summary, p) && StoreVisible(hash, summary, p)
  {
    hide FirstDTag, HasD, IndexVisible, StoreVisible, Summarises, NoCollision;
    KeyHoldsD(p, d);
    KeyHoldsD(q, e);
    assert KeyOf(p) != KeyOf(q);
    hide KeyOf;
    assert forall h :: h in {p, q} ==> !Hides(h, p);
    IndexVisibleIffNotHidden(summary, {p, q}, p);
    StoreVisibleIffNotHidden(hash, summary, {p, q}, p);
  }

  /** The tag by which a deletion names the address of a key. */
  function AddressTag(key: ReplaceableKey): seq<Element> {
    [TextElement([97]), TextElement(Address(key))]
  }

  /** A deletion that names the address of a packet hides it exactly if it is of the same author, no
      older than the packet, and the address is not too long to be indexed. */
  lemma AddressDeletionHidesIff(h: Packet, p: Packet)
    requires KeyOf(p).Some? && h.kind == DELETION_KIND && h.tags == [AddressTag(KeyOf(p).value)]
    ensures Hides(h, p) <==> h.pubkey == p.pubkey && p.createdAt <= h.createdAt && |Address(KeyOf(p).value)| <= 255
  {
    var key := KeyOf(p).value;
    KeyIsWellFormed(p);
    AddressRoundTrip(key);
    hide KeyOf, Address, ParseAddressTag, HexTo32;
    var tag := h.tags[0];
    assert TagId(tag) == None;
    assert TagAddress(tag, h.pubkey) == if |Address(key)| <= 255 && key.pubkey == h.pubkey then Some(key) else None;
    KeyIsAuthors(p);
    DeletionsHaveNoKey(h);
  }

  /** The tag by which a deletion names a packet. */
  function IdTag(id: Id): seq<Element> {
    [TextElement([101]), TextElement(HexOf(Be(32, id)))]
  }

  /** A deletion that names an id hides exactly the packet of its author with this id, unless that is
      a deletion itself; its time does not matter. */
  lemma IdDeletionHidesIff(h: Packet, p: Packet, id: Id)
    requires h.kind == DELETION_KIND && h.tags == [IdTag(id)]
    ensures Hides(h, p) <==> p.kind != DELETION_KIND && p.pubkey == h.pubkey && p.id == id
  {
    PubkeyRoundTrip(id);
    hide KeyOf, HexOf, HexTo32, Be, ParseAddressTag;
    assert TagId(h.tags[0]) == Some(id) && TagAddress(h.tags[0], h.pubkey) == None;
    DeletionsHaveNoKey(h);
  }

  /** Only packets of the same author hide a packet, and deletions are never hidden. */
  lemma OthersDoNotHide(h: Packet, p: Packet)
    requires h.pubkey != p.pubkey || p.kind == 5
    ensures !Hides(h, p)
  {
    SupersedesIff(h, p);
  }

  lemma KeyIsWellFormed(p: Packet)
    requires KeyOf(p).Some?
    ensures WellFormedKey(KeyOf(p).value)
  {
  }

  lemma KeyIsAuthors(p: Packet)
    requires KeyOf(p).Some?
    ensures KeyOf(p).value.pubkey == p.pubkey && p.kind != DELETION_KIND
  {
  }

  lemma DeletionsHaveNoKey(h: Packet)
    requires h.kind == DELETION_KIND
    ensures KeyOf(h) == None
  {
  }
}
