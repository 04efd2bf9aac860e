/** The visibility store: three byte-keyed databases holding every summary merged into them. */
module VisibilityStores {
  import opened Events
  import opened Encoding
  import opened Visibility

  type Digest = b: Bytes | |b| == 32 witness seq(32, _ => 0)

  // ----- key order of the store -----

  predicate LexBefore(a: Bytes, b: Bytes) {
    if b == [] then false
    else if a == [] then true
    else a[0] < b[0] || (a[0] == b[0] && LexBefore(a[1..], b[1..]))
  }

  lemma {:induction false} LexIsOrder(a: Bytes, b: Bytes, c: Bytes)
    ensures !LexBefore(a, a)
    ensures LexBefore(a, b) || a == b || LexBefore(b, a)
    ensures LexBefore(a, b) && LexBefore(b, c) ==> LexBefore(a, c)
  {
    if a != [] && b != [] {
      LexIsOrder(a[1..], b[1..], if c == [] then [] else c[1..]);
      assert a == [a[0]] + a[1..] && b == [b[0]] + b[1..];
    } else if a != [] {
      LexIsOrder(a[1..], [], []);
    }
  }

  predicate KeysAscend(keys: seq<Bytes>) {
    forall i, j :: 0 <= i < j < |keys| ==> LexBefore(keys[i], keys[j])
  }

  /** Between a prefix and a key that starts with it, every key starts with it. */
  lemma {:induction false} PrefixesAreContiguous(prefix: Bytes, a: Bytes, b: Bytes)
    requires !LexBefore(a, prefix) && LexBefore(a, b) && prefix <= b
    ensures prefix <= a
  {
    if prefix != [] {
      if a != [] {
        PrefixesAreContiguous(prefix[1..], a[1..], b[1..]);
      }
    }
  }

  function InsertKey(keys: seq<Bytes>, key: Bytes): seq<Bytes> {
    if keys == [] then [key]
    else if key == keys[0] then keys
    else if LexBefore(key, keys[0]) then [key] + keys
    else [keys[0]] + InsertKey(keys[1..], key)
  }

  lemma {:induction false} InsertKeyKeepsOrder(keys: seq<Bytes>, key: Bytes)
    requires KeysAscend(keys)
    ensures KeysAscend(InsertKey(keys, key))
    ensures Elements(InsertKey(keys, key)) == Elements(keys) + {key}
  {
    if keys != [] {
      LexIsOrder(key, keys[0], key);
      if key == keys[0] {
        assert keys[0] in Elements(keys);
      } else if LexBefore(key, keys[0]) {
        forall j | 0 <= j < |keys|
          ensures LexBefore(key, keys[j])
        {
          LexIsOrder(key, keys[0], keys[j]);
        }
      } else {
        InsertKeyKeepsOrder(keys[1..], key);
        var rest := InsertKey(keys[1..], key);
        forall j | 0 <= j < |rest|
          ensures LexBefore(keys[0], rest[j])
        {
          assert rest[j] in Elements(rest);
        }
        assert Elements(keys) == {keys[0]} + Elements(keys[1..]);
        assert Elements([keys[0]] + rest) == {keys[0]} + Elements(rest);
      }
    }
  }

  // ----- key encodings -----

  function ReplaceKey(key: ReplaceableKey): Bytes {
    Be(32, key.pubkey) + (if key.d.Some? then key.d.value else []) + Le(8, key.kind)
  }

  lemma ReplaceKeyIsInjective(a: ReplaceableKey, b: ReplaceableKey)
    requires WellFormedKey(a) && WellFormedKey(b) && ReplaceKey(a) == ReplaceKey(b)
    ensures a == b
  {
    Widths();
    var x, y := ReplaceKey(a), ReplaceKey(b);
    var n := |x|;
    assert x[..32] == Be(32, a.pubkey) && y[..32] == Be(32, b.pubkey);
    BeIsInjective(32, a.pubkey, b.pubkey);
    assert x[n - 8..] == Le(8, a.kind) && y[n - 8..] == Le(8, b.kind);
    LeRoundTrip(8, a.kind);
    LeRoundTrip(8, b.kind);
    assert a.kind == b.kind;
    assert x[32..n - 8] == if a.d.Some? then a.d.value else [];
    assert y[32..n - 8] == if b.d.Some? then b.d.value else [];
  }

  function DeletionKey(id: Id, pubkey: Id): Bytes {
    Be(32, id) + Be(32, pubkey)
  }

  lemma DeletionKeyIsInjective(id: Id, pubkey: Id, otherId: Id, otherPubkey: Id)
    requires DeletionKey(id, pubkey) == DeletionKey(otherId, otherPubkey)
    ensures id == otherId && pubkey == otherPubkey
  {
    Widths();
    var x, y := DeletionKey(id, pubkey), DeletionKey(otherId, otherPubkey);
    assert x[..32] == Be(32, id) && y[..32] == Be(32, otherId);
    assert x[32..] == Be(32, pubkey) && y[32..] == Be(32, otherPubkey);
    BeIsInjective(32, id, otherId);
    BeIsInjective(32, pubkey, otherPubkey);
  }

  function WinnerValue(winner: Winner): (b: Bytes)
    ensures |b| == 40
  {
    Be(32, winner.id) + Le(8, winner.createdAt)
  }

  function ParseWinnerValue(bytes: Bytes): (winner: Winner)
    requires |bytes| == 40
  {
    UnBeBound(bytes[..32]);
    UnLeRoundTrip(bytes[32..]);
    Widths();
    Winner(UnBe(bytes[..32]), UnLe(bytes[32..]))
  }

  lemma WinnerRoundTrip(winner: Winner)
    ensures ParseWinnerValue(WinnerValue(winner)) == winner
  {
    Widths();
    var b := WinnerValue(winner);
    assert b[..32] == Be(32, winner.id) && b[32..] == Le(8, winner.createdAt);
    BeRoundTrip(32, winner.id);
    LeRoundTrip(8, winner.createdAt);
  }

  function DecimalDigits(n: nat): Bytes {
    if n < 10 then [48 + n] else DecimalDigits(n / 10) + [48 + n % 10]
  }

  function HexCharacter(n: nat): Byte
    requires n < 16
  {
    if n < 10 then 48 + n else 87 + n
  }

  function HexOf(bytes: Bytes): Bytes {
    if bytes == [] then [] else [HexCharacter(bytes[0] / 16), HexCharacter(bytes[0] % 16)] + HexOf(bytes[1..])
  }

  /** The text whose hash stands for an address: `kind:pubkey:d`. */
  function Address(key: ReplaceableKey): Bytes {
    DecimalDigits(key.kind) + [58] + HexOf(Be(32, key.pubkey)) + [58] + (if key.d.Some? then key.d.value else [])
  }

  lemma {:induction false} DecimalDigitsAreDigits(n: nat)
    ensures DecimalDigits(n) != []
    ensures forall i :: 0 <= i < |DecimalDigits(n)| ==> 48 <= DecimalDigits(n)[i] < 58
    ensures Decimal(DecimalDigits(n)) == Some(n)
  {
    var digits := DecimalDigits(n);
    if n >= 10 {
      DecimalDigitsAreDigits(n / 10);
      assert digits[..|digits| - 1] == DecimalDigits(n / 10);
    } else {
      assert digits[..|digits| - 1] == [];
    }
  }

  lemma {:induction false} HexRoundTrip(bytes: Bytes)
    ensures HexBytes(HexOf(bytes)) == Some(bytes) && |HexOf(bytes)| == 2 * |bytes|
  {
    if bytes != [] {
      HexRoundTrip(bytes[1..]);
      assert HexOf(bytes)[2..] == HexOf(bytes[1..]);
      assert bytes == [bytes[0]] + bytes[1..];
    }
  }

  lemma {:induction false} SplitColonOf(head: Bytes, tail: Bytes)
    requires 58 !in head
    ensures SplitColon(head + [58] + tail) == (head, Some(tail))
  {
    var whole := head + [58] + tail;
    if head != [] {
      SplitColonOf(head[1..], tail);
      assert whole[1..] == head[1..] + [58] + tail;
      assert head == [head[0]] + head[1..];
    } else {
      assert whole[1..] == tail;
    }
  }

  lemma {:induction false} HexHasNoColon(bytes: Bytes)
    ensures 58 !in HexOf(bytes)
  {
    if bytes != [] {
      HexHasNoColon(bytes[1..]);
    }
  }

  /** Parsing the text of a well-formed key gives the key back, so different keys have different texts. */
  lemma AddressRoundTrip(key: ReplaceableKey)
    requires WellFormedKey(key)
    ensures ParseAddressTag(Address(key)) == Some(key)
  {
    var d := if key.d.Some? then key.d.value else [];
    var hex := HexOf(Be(32, key.pubkey));
    var digits := DecimalDigits(key.kind);
    DigitsRoundTrip(key.kind);
    PubkeyRoundTrip(key.pubkey);
    hide DecimalDigits, HexOf, ParseU32, HexTo32, Be;
    assert Address(key) == digits + [58] + (hex + [58] + d);
    SplitColonOf(digits, hex + [58] + d);
    SplitColonOf(hex, d);
  }

  lemma DigitsRoundTrip(kind: U32)
    ensures ParseU32(DecimalDigits(kind)) == Some(kind) && 58 !in DecimalDigits(kind)
  {
    DecimalDigitsAreDigits(kind);
  }

  lemma PubkeyRoundTrip(pubkey: Id)
    ensures HexTo32(HexOf(Be(32, pubkey))) == Some(pubkey) && 58 !in HexOf(Be(32, pubkey))
  {
    HexRoundTrip(Be(32, pubkey));
    HexHasNoColon(Be(32, pubkey));
    Widths();
    BeRoundTrip(32, pubkey);
  }

  function ReplaceDeletionKey(hash: Bytes -> Digest, key: ReplaceableKey, createdAt: U64): (b: Bytes)
    ensures |b| == 40
  {
    hash(Address(key)) + Le(8, createdAt)
  }

  function ParseReplaceDeletionKey(bytes: Bytes): (Digest, U64)
    requires |bytes| == 40
  {
    UnLeRoundTrip(bytes[32..]);
    Widths();
    (bytes[..32], UnLe(bytes[32..]))
  }

  lemma ReplaceDeletionRoundTrip(hash: Bytes -> Digest, key: ReplaceableKey, createdAt: U64)
    ensures ParseReplaceDeletionKey(ReplaceDeletionKey(hash, key, createdAt)) == (hash(Address(key)), createdAt)
  {
    Widths();
    var b := ReplaceDeletionKey(hash, key, createdAt);
    assert b[..32] == hash(Address(key)) && b[32..] == Le(8, createdAt);
    LeRoundTrip(8, createdAt);
  }

  // ----- what the databases hold -----

  ghost predicate KeysAreWellFormed(summary: Summary) {
    && (forall key :: key in summary.winners ==> WellFormedKey(key))
    && (forall key :: key in summary.deletedAddresses ==> WellFormedKey(key))
  }

  ghost predicate HoldsWinners(db: map<Bytes, Bytes>, winners: map<ReplaceableKey, Winner>) {
    forall key :: WellFormedKey(key) ==> HoldsWinner(db, winners, key)
  }

  ghost predicate HoldsWinner(db: map<Bytes, Bytes>, winners: map<ReplaceableKey, Winner>, key: ReplaceableKey) {
    && (ReplaceKey(key) in db <==> key in winners)
    && (key in winners ==> db[ReplaceKey(key)] == WinnerValue(winners[key]))
  }

  ghost predicate HoldsDeletedIds(db: set<Bytes>, deleted: map<Id, set<Id>>) {
    forall id, pubkey :: DeletionKey(id, pubkey) in db <==> pubkey in Members(deleted, id)
  }

  /** Every deleted address is stored with its latest deletion, and maybe with earlier ones. */
  ghost predicate HoldsDeletedAddresses(hash: Bytes -> Digest, db: seq<Bytes>, deleted: map<ReplaceableKey, U64>) {
    && KeysAscend(db)
    && (forall key :: key in deleted ==> ReplaceDeletionKey(hash, key, deleted[key]) in db)
    && (forall entry :: entry in db ==> IsDeletionEntry(hash, entry, deleted))
  }

  ghost predicate IsDeletionEntry(hash: Bytes -> Digest, entry: Bytes, deleted: map<ReplaceableKey, U64>) {
    exists key, createdAt :: key in deleted && createdAt <= deleted[key] && entry == ReplaceDeletionKey(hash, key, createdAt)
  }

  // ----- the visibility test of the store -----

  /** What the store answers for a packet, told by the summary it holds. */
  ghost predicate StoreVisible(hash: Bytes -> Digest, summary: Summary, p: Packet) {
    p.kind == DELETION_KIND ||
    (var key := KeyOf(p);
     && (key.Some? && key.value in summary.winners ==> CompareWinner(WinnerOf(p), summary.winners[key.value]) != Greater)
     && (key.Some? ==> !AddressDeleted(hash, summary.deletedAddresses, key.value, p.createdAt))
     && p.pubkey !in Members(summary.deletedIds, p.id))
  }

  ghost predicate AddressDeleted(hash: Bytes -> Digest, deleted: map<ReplaceableKey, U64>, key: ReplaceableKey, createdAt: U64) {
    exists k :: k in deleted && hash(Address(k)) == hash(Address(key)) && createdAt <= deleted[k]
  }

  /** No deleted address shares its hash with the packet's own. */
  ghost predicate NoCollision(hash: Bytes -> Digest, summary: Summary, p: Packet) {
    KeyOf(p).Some? ==> forall k :: k in summary.deletedAddresses && hash(Address(k)) == hash(Address(KeyOf(p).value)) ==> k == KeyOf(p).value
  }

  class VisibilityStore {
    const hash: Bytes -> Digest
    var eventReplace: map<Bytes, Bytes>
    var eventDeletion: set<Bytes>
    var eventReplaceDeletion: seq<Bytes>
    /** All summaries merged so far, as one. */
    ghost var held: Summary

    ghost predicate Valid()
      reads this
    {
      && KeysAreWellFormed(held)
      && HoldsWinners(eventReplace, held.winners)
      && HoldsDeletedIds(eventDeletion, held.deletedIds)
      && HoldsDeletedAddresses(hash, eventReplaceDeletion, held.deletedAddresses)
    }

    constructor (hash: Bytes -> Digest)
      ensures Valid() && held == Summary(map[], map[], map[]) && this.hash == hash
    {
      this.hash := hash;
      eventReplace, eventDeletion, eventReplaceDeletion := map[], {}, [];
      held := Summary(map[], map[], map[]);
    }

    method MergeSummary(summary: Summary)
      requires Valid() && KeysAreWellFormed(summary)
      modifies this
      ensures Valid() && held == MergeSummaries(old(held), summary)
    {
      eventReplace := PutWinners(eventReplace, summary.winners, held.winners);
      eventDeletion := PutDeletedIds(eventDeletion, summary.deletedIds, held.deletedIds);
      eventReplaceDeletion := PutDeletedAddresses(hash, eventReplaceDeletion, summary.deletedAddresses, held.deletedAddresses);
      held := MergeSummaries(held, summary);
    }

    method IsVisible(p: Packet) returns (visible: bool)
      requires Valid()
      ensures visible == StoreVisible(hash, held, p)
    {
      if p.kind == DELETION_KIND {
        return true;
      }
      var key := KeyOf(p);
      if key.Some? {
        KeyIsOwn(p);
        assert HoldsWinner(eventReplace, held.winners, key.value);
        var dbKey := ReplaceKey(key.value);
        if dbKey in eventReplace {
          WinnerRoundTrip(held.winners[key.value]);
          var stored := ParseWinnerValue(eventReplace[dbKey]);
          if CompareWinner(WinnerOf(p), stored) == Greater {
            return false;
          }
        }
        var deleted := DeletedSince(hash, eventReplaceDeletion, key.value, p.createdAt, held.deletedAddresses);
        if deleted {
          return false;
        }
      }
      visible := DeletionKey(p.id, p.pubkey) !in eventDeletion;
    }
  }

  method PutWinners(db: map<Bytes, Bytes>, winners: map<ReplaceableKey, Winner>, ghost held: map<ReplaceableKey, Winner>)
    returns (updated: map<Bytes, Bytes>)
    requires HoldsWinners(db, held)
    requires forall key :: key in winners ==> WellFormedKey(key)
    ensures HoldsWinners(updated, MergeWinners(held, winners))
  {
    hide HoldsWinners, MergeWinners, Restrict, CompareWinner, WinnerValue, ReplaceKey;
    updated := db;
    RestrictAll(winners);
    assert MergeWinners(held, map[]) == held by {
      MergeNothing(Summary(held, map[], map[]));
    }
    var keys := winners.Keys;
    while keys != {}
      invariant keys <= winners.Keys
      invariant HoldsWinners(updated, MergeWinners(held, Restrict(winners, winners.Keys - keys)))
      decreases |keys|
    {
      var key :| key in keys;
      ghost var before := MergeWinners(held, Restrict(winners, winners.Keys - keys));
      var dbKey := ReplaceKey(key);
      HoldsWinnersAt(updated, before, key);
      var write := true;
      if dbKey in updated {
        WinnerRoundTrip(before[key]);
        write := CompareWinner(winners[key], ParseWinnerValue(updated[dbKey])) == Less;
      }
      PutWinner(updated, before, key, winners[key]);
      if write {
        updated := updated[dbKey := WinnerValue(winners[key])];
      }
      MergeOneWinner(held, winners, winners.Keys - keys, key);
      assert winners.Keys - (keys - {key}) == (winners.Keys - keys) + {key};
      keys := keys - {key};
    }
    assert winners.Keys - keys == winners.Keys;
  }

  lemma HoldsWinnersAt(db: map<Bytes, Bytes>, winners: map<ReplaceableKey, Winner>, key: ReplaceableKey)
    requires HoldsWinners(db, winners) && WellFormedKey(key)
    ensures HoldsWinner(db, winners, key)
  {
  }

  lemma PutWinner(db: map<Bytes, Bytes>, winners: map<ReplaceableKey, Winner>, key: ReplaceableKey, candidate: Winner)
    requires HoldsWinners(db, winners) && WellFormedKey(key)
    ensures HoldsWinners(
      if key !in winners || CompareWinner(candidate, winners[key]) == Less then db[ReplaceKey(key) := WinnerValue(candidate)] else db,
      MergeWinners(winners, map[key := candidate]))
  {
    hide ReplaceKey, WinnerValue;
    var merged := MergeWinners(winners, map[key := candidate]);
    var updated := if key !in winners || CompareWinner(candidate, winners[key]) == Less then db[ReplaceKey(key) := WinnerValue(candidate)] else db;
    forall k | WellFormedKey(k)
      ensures HoldsWinner(updated, merged, k)
    {
      assert HoldsWinner(db, winners, k);
      if ReplaceKey(k) == ReplaceKey(key) {
        ReplaceKeyIsInjective(k, key);
      }
    }
  }

  method PutDeletedIds(db: set<Bytes>, deleted: map<Id, set<Id>>, ghost held: map<Id, set<Id>>) returns (updated: set<Bytes>)
    requires HoldsDeletedIds(db, held)
    ensures HoldsDeletedIds(updated, MergeDeletedIds(held, deleted))
  {
    hide HoldsDeletedIds, MergeDeletedIds, Restrict, Members, DeletionKey;
    updated := db;
    RestrictAll(deleted);
    assert MergeDeletedIds(held, map[]) == held by {
      MergeNothing(Summary(map[], held, map[]));
    }
    var ids := deleted.Keys;
    while ids != {}
      invariant ids <= deleted.Keys
      invariant HoldsDeletedIds(updated, MergeDeletedIds(held, Restrict(deleted, deleted.Keys - ids)))
      decreases |ids|
    {
      var id :| id in ids;
      ghost var before := MergeDeletedIds(held, Restrict(deleted, deleted.Keys - ids));
      updated := PutDeletedId(updated, id, deleted[id], before);
      MergeOneDeletedId(held, deleted, deleted.Keys - ids, id);
      assert deleted.Keys - (ids - {id}) == (deleted.Keys - ids) + {id};
      ids := ids - {id};
    }
    assert deleted.Keys - ids == deleted.Keys;
  }

  method PutDeletedId(db: set<Bytes>, id: Id, pubkeys: set<Id>, ghost held: map<Id, set<Id>>) returns (updated: set<Bytes>)
    requires HoldsDeletedIds(db, held)
    ensures HoldsDeletedIds(updated, held[id := Members(held, id) + pubkeys])
  {
    hide DeletionKey;
    updated := db;
    var rest := pubkeys;
    while rest != {}
      invariant rest <= pubkeys
      invariant forall key :: key in updated <==> key in db || exists pubkey :: pubkey in pubkeys - rest && key == DeletionKey(id, pubkey)
      decreases |rest|
    {
      var pubkey :| pubkey in rest;
      updated := updated + {DeletionKey(id, pubkey)};
      rest := rest - {pubkey};
    }
    var m := held[id := Members(held, id) + pubkeys];
    forall i, pubkey
      ensures DeletionKey(i, pubkey) in updated <==> pubkey in Members(m, i)
    {
      if other :| other in pubkeys && DeletionKey(i, pubkey) == DeletionKey(id, other) {
        DeletionKeyIsInjective(i, pubkey, id, other);
      }
      assert i == id && pubkey in pubkeys ==> pubkey in pubkeys - rest;
    }
  }

  method PutDeletedAddresses(hash: Bytes -> Digest, db: seq<Bytes>, deleted: map<ReplaceableKey, U64>, ghost held: map<ReplaceableKey, U64>)
    returns (updated: seq<Bytes>)
    requires HoldsDeletedAddresses(hash, db, held)
    ensures HoldsDeletedAddresses(hash, updated, MergeDeletedAddresses(held, deleted))
  {
    hide HoldsDeletedAddresses, MergeDeletedAddresses, Restrict, AddDeletedAddress, ReplaceDeletionKey, InsertKey;
    updated := db;
    RestrictAll(deleted);
    assert MergeDeletedAddresses(held, map[]) == held by {
      MergeNothing(Summary(map[], map[], held));
    }
    var keys := deleted.Keys;
    while keys != {}
      invariant keys <= deleted.Keys
      invariant HoldsDeletedAddresses(hash, updated, MergeDeletedAddresses(held, Restrict(deleted, deleted.Keys - keys)))
      decreases |keys|
    {
      var key :| key in keys;
      PutDeletedAddress(hash, updated, MergeDeletedAddresses(held, Restrict(deleted, deleted.Keys - keys)), key, deleted[key]);
      updated := InsertKey(updated, ReplaceDeletionKey(hash, key, deleted[key]));
      MergeOneDeletedAddress(held, deleted, deleted.Keys - keys, key);
      assert deleted.Keys - (keys - {key}) == (deleted.Keys - keys) + {key};
      keys := keys - {key};
    }
    assert deleted.Keys - keys == deleted.Keys;
  }

  lemma PutDeletedAddress(hash: Bytes -> Digest, db: seq<Bytes>, deleted: map<ReplaceableKey, U64>, key: ReplaceableKey, createdAt: U64)
    requires HoldsDeletedAddresses(hash, db, deleted)
    ensures HoldsDeletedAddresses(hash, InsertKey(db, ReplaceDeletionKey(hash, key, createdAt)), AddDeletedAddress(deleted, key, createdAt))
  {
    hide ReplaceDeletionKey, InsertKey, KeysAscend, IsDeletionEntry, AddDeletedAddress, Address;
    var entry := ReplaceDeletionKey(hash, key, createdAt);
    var updated, m := InsertKey(db, entry), AddDeletedAddress(deleted, key, createdAt);
    InsertKeyKeepsOrder(db, entry);
    forall k | k in m
      ensures ReplaceDeletionKey(hash, k, m[k]) in updated
    {
      AddedAddress(deleted, key, createdAt, k);
      assert ReplaceDeletionKey(hash, k, m[k]) in Elements(db) + {entry};
      assert ReplaceDeletionKey(hash, k, m[k]) in Elements(updated);
    }
    forall e | e in updated
      ensures IsDeletionEntry(hash, e, m)
    {
      assert e in Elements(updated);
      if e in db {
        KeepsDeletionEntry(hash, e, deleted, key, createdAt);
      } else {
        NewDeletionEntry(hash, deleted, key, createdAt);
      }
    }
  }

  lemma AddedAddress(deleted: map<ReplaceableKey, U64>, key: ReplaceableKey, createdAt: U64, k: ReplaceableKey)
    requires k in AddDeletedAddress(deleted, key, createdAt)
    ensures (k in deleted && AddDeletedAddress(deleted, key, createdAt)[k] == deleted[k])
      || (k == key && AddDeletedAddress(deleted, key, createdAt)[k] == createdAt)
  {
  }

  lemma KeepsDeletionEntry(hash: Bytes -> Digest, entry: Bytes, deleted: map<ReplaceableKey, U64>, key: ReplaceableKey, createdAt: U64)
    requires IsDeletionEntry(hash, entry, deleted)
    ensures IsDeletionEntry(hash, entry, AddDeletedAddress(deleted, key, createdAt))
  {
    hide ReplaceDeletionKey;
    var k, t :| k in deleted && t <= deleted[k] && entry == ReplaceDeletionKey(hash, k, t);
    var m := AddDeletedAddress(deleted, key, createdAt);
    assert k in m && t <= m[k];
  }

  lemma NewDeletionEntry(hash: Bytes -> Digest, deleted: map<ReplaceableKey, U64>, key: ReplaceableKey, createdAt: U64)
    ensures IsDeletionEntry(hash, ReplaceDeletionKey(hash, key, createdAt), AddDeletedAddress(deleted, key, createdAt))
  {
    hide ReplaceDeletionKey;
    var m := AddDeletedAddress(deleted, key, createdAt);
    assert key in m && createdAt <= m[key];
  }

  /** The first stored key not before the given one. */
  method SetRange(db: seq<Bytes>, key: Bytes) returns (i: nat)
    requires KeysAscend(db)
    ensures i <= |db| && (forall j :: 0 <= j < i ==> LexBefore(db[j], key)) && (i < |db| ==> !LexBefore(db[i], key))
  {
    i := 0;
    while i < |db| && LexBefore(db[i], key)
      invariant i <= |db| && forall j :: 0 <= j < i ==> LexBefore(db[j], key)
    {
      i := i + 1;
    }
  }

  /** The scan over the stored deletions of one address. */
  method DeletedSince(hash: Bytes -> Digest, db: seq<Bytes>, key: ReplaceableKey, createdAt: U64, ghost held: map<ReplaceableKey, U64>)
    returns (deleted: bool)
    requires HoldsDeletedAddresses(hash, db, held)
    ensures deleted == AddressDeleted(hash, held, key, createdAt)
  {
    hide Address, ParseReplaceDeletionKey, ReplaceDeletionKey, LexBefore, HoldsDeletedAddresses, AddressDeleted, EntryDeletes, KeysAscend;
    var prefix := hash(Address(key));
    StoredEntries(hash, db, held);
    EntriesDecide(hash, db, key, createdAt, held);
    var i := SetRange(db, prefix);
    ghost var first := i;
    EntriesBefore(hash, db, key, i);
    while i < |db| && prefix <= db[i]
      invariant first <= i <= |db|
      invariant forall j :: 0 <= j < i ==> !EntryDeletes(hash, db[j], key, createdAt)
    {
      var stored := ParseReplaceDeletionKey(db[i]);
      EntryAt(hash, db[i], key, createdAt);
      if stored.0 == prefix && createdAt <= stored.1 {
        return true;
      }
      i := i + 1;
    }
    EntriesBehind(hash, db, key, createdAt, first, i);
    return false;
  }

  lemma StoredEntries(hash: Bytes -> Digest, db: seq<Bytes>, held: map<ReplaceableKey, U64>)
    requires HoldsDeletedAddresses(hash, db, held)
    ensures KeysAscend(db) && forall j :: 0 <= j < |db| ==> |db[j]| == 40
  {
    hide ReplaceDeletionKey, KeysAscend;
    forall j | 0 <= j < |db|
      ensures |db[j]| == 40
    {
      assert IsDeletionEntry(hash, db[j], held);
    }
  }

  lemma EntryAt(hash: Bytes -> Digest, entry: Bytes, key: ReplaceableKey, createdAt: U64)
    requires |entry| == 40
    ensures EntryDeletes(hash, entry, key, createdAt) <==>
      ParseReplaceDeletionKey(entry).0 == hash(Address(key)) && createdAt <= ParseReplaceDeletionKey(entry).1
  {
    hide Address, ParseReplaceDeletionKey;
  }

  predicate EntryDeletes(hash: Bytes -> Digest, entry: Bytes, key: ReplaceableKey, createdAt: U64) {
    |entry| == 40 && ParseReplaceDeletionKey(entry).0 == hash(Address(key)) && createdAt <= ParseReplaceDeletionKey(entry).1
  }

  lemma EntriesBefore(hash: Bytes -> Digest, db: seq<Bytes>, key: ReplaceableKey, first: nat)
    requires first <= |db| && forall j :: 0 <= j < first ==> LexBefore(db[j], hash(Address(key)))
    ensures forall j, createdAt :: 0 <= j < first ==> !EntryDeletes(hash, db[j], key, createdAt)
  {
    forall j, createdAt | 0 <= j < first && EntryDeletes(hash, db[j], key, createdAt)
      ensures false
    {
      PrefixIsNotBehind(hash(Address(key)), db[j]);
    }
  }

  lemma {:induction false} PrefixIsNotBehind(prefix: Bytes, key: Bytes)
    requires prefix <= key
    ensures !LexBefore(key, prefix)
  {
    if prefix != [] {
      PrefixIsNotBehind(prefix[1..], key[1..]);
    }
  }

  /** Behind the first key without the prefix no key has it. */
  lemma EntriesBehind(hash: Bytes -> Digest, db: seq<Bytes>, key: ReplaceableKey, createdAt: U64, first: nat, end: nat)
    requires KeysAscend(db) && first <= end <= |db|
    requires first < |db| ==> !LexBefore(db[first], hash(Address(key)))
    requires end < |db| ==> !(hash(Address(key)) <= db[end])
    ensures forall j :: end <= j < |db| ==> !EntryDeletes(hash, db[j], key, createdAt)
  {
    hide Address, ParseWinnerValue;
    var prefix := hash(Address(key));
    forall j | end <= j < |db| && EntryDeletes(hash, db[j], key, createdAt)
      ensures false
    {
      assert prefix <= db[j];
      assert j != end;
      LexIsOrder(db[first], db[end], prefix);
      LexIsOrder(prefix, db[first], db[end]);
      LexIsOrder(db[end], prefix, db[first]);
      PrefixesAreContiguous(prefix, db[end], db[j]);
    }
  }

  lemma EntriesDecide(hash: Bytes -> Digest, db: seq<Bytes>, key: ReplaceableKey, createdAt: U64, held: map<ReplaceableKey, U64>)
    requires HoldsDeletedAddresses(hash, db, held)
    ensures (exists j :: 0 <= j < |db| && EntryDeletes(hash, db[j], key, createdAt)) <==> AddressDeleted(hash, held, key, createdAt)
  {
    hide Address, ReplaceDeletionKey, ParseReplaceDeletionKey, KeysAscend;
    if j :| 0 <= j < |db| && EntryDeletes(hash, db[j], key, createdAt) {
      assert IsDeletionEntry(hash, db[j], held);
      var k, t :| k in held && t <= held[k] && db[j] == ReplaceDeletionKey(hash, k, t);
      ReplaceDeletionRoundTrip(hash, k, t);
    }
    if AddressDeleted(hash, held, key, createdAt) {
      var k :| k in held && hash(Address(k)) == hash(Address(key)) && createdAt <= held[k];
      ReplaceDeletionRoundTrip(hash, k, held[k]);
      var j :| 0 <= j < |db| && db[j] == ReplaceDeletionKey(hash, k, held[k]);
      assert EntryDeletes(hash, db[j], key, createdAt);
    }
  }

  // ----- the store and the index mean the same -----

  lemma SummaryKeysAreWellFormed(summary: Summary, s: set<Packet>)
    requires Summarises(summary, s)
    ensures KeysAreWellFormed(summary)
  {
    hide KeyOf, DeletesAddress;
    forall key | key in summary.winners
      ensures WellFormedKey(key)
    {
      assert WinnerAt(summary.winners, s, key);
      var p :| p in s && KeyOf(p) == Some(key);
      KeyIsOwn(p);
    }
    forall key | key in summary.deletedAddresses
      ensures WellFormedKey(key)
    {
      assert DeletedAddressAt(summary.deletedAddresses, s, key);
      var p :| p in s && DeletesAddress(p, key);
      AddressIsOwn(p, key);
    }
  }

  /** Holding the summary of a set, the store shows exactly the packets that nothing in the set
      hides, whether they are in the set or not. */
  lemma StoreVisibleIffNotHidden(hash: Bytes -> Digest, summary: Summary, s: set<Packet>, p: Packet)
    requires Summarises(summary, s) && NoCollision(hash, summary, p)
    ensures StoreVisible(hash, summary, p) <==> forall h :: h in s ==> !Hides(h, p)
  {
    hide KeyOf, DeletesId, DeletesAddress, Address;
    SummaryAt(summary, s, p);
    KeyIsOwn(p);
    var key := KeyOf(p);
    if key.Some? && key.value in summary.winners {
      var w :| w in s && KeyOf(w) == key && WinnerOf(w) == summary.winners[key.value];
      assert CompareWinner(WinnerOf(p), WinnerOf(w)) == Greater ==> Supersedes(w, p);
    }
    if key.Some? && key.value in summary.deletedAddresses {
      var h :| h in s && DeletesAddress(h, key.value) && h.createdAt == summary.deletedAddresses[key.value];
      AddressIsOwn(h, key.value);
      assert p.createdAt <= h.createdAt ==> Deletes(h, p);
    }
    if p.id in summary.deletedIds && p.pubkey in summary.deletedIds[p.id] {
      var h :| h in s && DeletesId(h, p.id) && h.pubkey == p.pubkey;
      assert Deletes(h, p);
    }
  }

  /** For the packets of the summarised set, the in-memory test and the store agree. */
  lemma IndexAndStoreAgree(hash: Bytes -> Digest, summary: Summary, s: set<Packet>, p: Packet)
    requires Summarises(summary, s) && IdsDetermine(s) && p in s && NoCollision(hash, summary, p)
    ensures IndexVisible(summary, p) <==> StoreVisible(hash, summary, p)
  {
    hide Summarises, IndexVisible, StoreVisible, NoCollision;
    IndexVisibleIffNotHidden(summary, s, p);
    StoreVisibleIffNotHidden(hash, summary, s, p);
  }

  /** A hider among the summarised packets hides in the store, whatever the hash does. */
  lemma StoreHides(hash: Bytes -> Digest, summary: Summary, s: set<Packet>, h: Packet, p: Packet)
    requires Summarises(summary, s) && h in s && Hides(h, p)
    ensures !StoreVisible(hash, summary, p)
  {
    hide KeyOf, DeletesId, DeletesAddress, Address;
    SummaryAt(summary, s, p);
  }

  /** Different well-formed keys have different texts, so only a hash collision of two texts can
      make one deleted address look like another. */
  lemma OnlyHashesCollide(hash: Bytes -> Digest, summary: Summary, p: Packet)
    requires KeysAreWellFormed(summary) && KeyOf(p).Some?
    requires forall k :: k in summary.deletedAddresses && hash(Address(k)) == hash(Address(KeyOf(p).value)) ==>
               Address(k) == Address(KeyOf(p).value)
    ensures NoCollision(hash, summary, p)
  {
    hide Address, ParseAddressTag, KeyOf;
    KeyIsOwn(p);
    var key := KeyOf(p).value;
    AddressRoundTrip(key);
    forall k | k in summary.deletedAddresses && hash(Address(k)) == hash(Address(key))
      ensures k == key
    {
      AddressRoundTrip(k);
    }
  }
}
