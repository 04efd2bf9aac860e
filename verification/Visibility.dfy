/** What deletions and replaceable events hide: the summary of a set of packets, and the
    in-memory index a query builds from its hot snapshot. */
module Visibility {
  import opened Events
  import opened Encoding

  const DELETION_KIND: U32 := 5
  const MAX_INDEXED_TAG_VALUE_BYTES: nat := 255

  datatype ReplaceableKey = ReplaceableKey(pubkey: Id, kind: U32, d: Option<Bytes>)

  datatype Winner = Winner(id: Id, createdAt: U64)

  // ----- keys of packets -----

  predicate IsRegularReplaceableKind(kind: U32) {
    kind == 0 || kind == 3 || kind == 41 || 10_000 <= kind < 20_000
  }

  predicate IsAddressableKind(kind: U32) {
    30_000 <= kind < 40_000
  }

  /** The value of the first "d" tag; an empty tag or a packed id in front of it ends the search. */
  function FirstDTag(tags: seq<seq<Element>>): Option<Bytes> {
    if tags == [] || tags[0] == [] || tags[0][0].IdElement? then None
    else if tags[0][0].value != [100] then FirstDTag(tags[1..])
    else if |tags[0]| >= 2 && |tags[0][1].value| <= MAX_INDEXED_TAG_VALUE_BYTES then Some(tags[0][1].value)
    else None
  }

  function KeyOf(p: Packet): Option<ReplaceableKey> {
    if IsRegularReplaceableKind(p.kind) then Some(ReplaceableKey(p.pubkey, p.kind, None))
    else if IsAddressableKind(p.kind) then
      var d := FirstDTag(p.tags);
      Some(ReplaceableKey(p.pubkey, p.kind, Some(if d.Some? then d.value else [])))
    else None
  }

  /** Exactly the regular replaceable kinds go without a `d` value. */
  predicate WellFormedKey(key: ReplaceableKey) {
    key.d.None? <==> IsRegularReplaceableKind(key.kind)
  }

  // ----- what a deletion names -----

  function HexDigit(b: Byte): Option<nat> {
    if 48 <= b <= 57 then Some(b - 48)
    else if 97 <= b <= 102 then Some(b - 87)
    else if 65 <= b <= 70 then Some(b - 55)
    else None
  }

  /** Two characters as an unsigned hexadecimal number; a leading plus sign is accepted. */
  function HexPair(a: Byte, b: Byte): Option<Byte> {
    var low := HexDigit(b);
    if low.None? then None
    else if a == 43 then Some(low.value)
    else
      var high := HexDigit(a);
      if high.None? then None else Some(16 * high.value + low.value)
  }

  function HexBytes(value: Bytes): Option<Bytes> {
    if |value| < 2 then Some([])
    else
      var first := HexPair(value[0], value[1]);
      var rest := HexBytes(value[2..]);
      if first.None? || rest.None? then None else Some([first.value] + rest.value)
  }

  lemma {:induction false} HexBytesLength(value: Bytes)
    ensures HexBytes(value).Some? ==> |HexBytes(value).value| == |value| / 2
  {
    if |value| >= 2 {
      HexBytesLength(value[2..]);
    }
  }

  function HexTo32(value: Bytes): Option<Id> {
    if |value| != 64 then None
    else
      var bytes := HexBytes(value);
      if bytes.None? then None
      else
        HexBytesLength(value);
        UnBeBound(bytes.value);
        Widths();
        Some(UnBe(bytes.value))
  }

  /** The piece before the first colon, and the piece behind it if there is one. */
  function SplitColon(value: Bytes): (Bytes, Option<Bytes>) {
    if value == [] then ([], None)
    else if value[0] == 58 then ([], Some(value[1..]))
    else
      var rest := SplitColon(value[1..]);
      ([value[0]] + rest.0, rest.1)
  }

  function Decimal(digits: Bytes): Option<nat> {
    if digits == [] then Some(0)
    else
      var last := digits[|digits| - 1];
      var head := Decimal(digits[..|digits| - 1]);
      if head.None? || last < 48 || last > 57 then None else Some(10 * head.value + last - 48)
  }

  /** At least one digit, behind an optional plus sign, and within 32 bits. */
  function ParseU32(text: Bytes): Option<U32> {
    var digits := if text != [] && text[0] == 43 then text[1..] else text;
    var n := Decimal(digits);
    if digits == [] || n.None? || n.value > U32_MAX then None else Some(n.value)
  }

  /** `kind:pubkey:d`, where everything behind the second colon is `d`. */
  function ParseAddressTag(value: Bytes): (r: Option<ReplaceableKey>)
    ensures r.Some? ==> WellFormedKey(r.value)
  {
    var first := SplitColon(value);
    var kind := ParseU32(first.0);
    if kind.None? || first.1.None? then None
    else
      var second := SplitColon(first.1.value);
      var pubkey := HexTo32(second.0);
      if pubkey.None? then None
      else
        var d := if second.1.Some? then second.1.value else [];
        Some(ReplaceableKey(pubkey.value, kind.value, if IsRegularReplaceableKind(kind.value) then None else Some(d)))
  }

  predicate NamedTag(tag: seq<Element>, name: Bytes) {
    |tag| >= 2 && tag[0].TextElement? && tag[0].value == name
  }

  /** The event id an "e" tag names. */
  function TagId(tag: seq<Element>): Option<Id> {
    if NamedTag(tag, [101]) then HexTo32(tag[1].value) else None
  }

  /** The address an "a" tag names, if it is one of the deletion's own author. */
  function TagAddress(tag: seq<Element>, pubkey: Id): Option<ReplaceableKey> {
    if NamedTag(tag, [97]) && |tag[1].value| <= MAX_INDEXED_TAG_VALUE_BYTES then
      var key := ParseAddressTag(tag[1].value);
      if key.Some? && key.value.pubkey == pubkey then key else None
    else None
  }

  predicate DeletesId(p: Packet, id: Id) {
    p.kind == DELETION_KIND && exists i :: 0 <= i < |p.tags| && TagId(p.tags[i]) == Some(id)
  }

  predicate DeletesAddress(p: Packet, key: ReplaceableKey) {
    p.kind == DELETION_KIND && exists i :: 0 <= i < |p.tags| && TagAddress(p.tags[i], p.pubkey) == Some(key)
  }

  // ----- winners -----

  function WinnerOf(p: Packet): Winner {
    Winner(p.id, p.createdAt)
  }

  function CompareWinner(a: Winner, b: Winner): Ordering {
    match CompareNat(b.createdAt, a.createdAt)
    case Equal => CompareNat(a.id, b.id)
    case other => other
  }

  function Better(candidate: Winner, current: Winner): Winner {
    if CompareWinner(candidate, current) == Less then candidate else current
  }

  // ----- the summary of a set of packets -----

  datatype Summary = Summary(
    winners: map<ReplaceableKey, Winner>,
    deletedIds: map<Id, set<Id>>,
    deletedAddresses: map<ReplaceableKey, U64>
  )

  ghost predicate WinnerAt(winners: map<ReplaceableKey, Winner>, s: set<Packet>, key: ReplaceableKey) {
    && (forall p :: p in s && KeyOf(p) == Some(key) ==> key in winners && CompareWinner(WinnerOf(p), winners[key]) != Less)
    && (key in winners ==> exists p :: p in s && KeyOf(p) == Some(key) && WinnerOf(p) == winners[key])
  }

  ghost predicate DeletedIdAt(deleted: map<Id, set<Id>>, s: set<Packet>, id: Id) {
    && (forall p :: p in s && DeletesId(p, id) ==> id in deleted && p.pubkey in deleted[id])
    && (id in deleted ==> deleted[id] != {} && forall pubkey :: pubkey in deleted[id] ==> DeletedBy(s, id, pubkey))
  }

  ghost predicate DeletedBy(s: set<Packet>, id: Id, pubkey: Id) {
    exists p :: p in s && DeletesId(p, id) && p.pubkey == pubkey
  }

  ghost predicate DeletedAddressAt(deleted: map<ReplaceableKey, U64>, s: set<Packet>, key: ReplaceableKey) {
    && (forall p :: p in s && DeletesAddress(p, key) ==> key in deleted && p.createdAt <= deleted[key])
    && (key in deleted ==> exists p :: p in s && DeletesAddress(p, key) && p.createdAt == deleted[key])
  }

  /** For each replaceable key its first packet in the newest-first order. */
  ghost predicate IsWinnersOf(winners: map<ReplaceableKey, Winner>, s: set<Packet>) {
    forall key :: WinnerAt(winners, s, key)
  }

  /** Every deleted id with all authors deleting it. */
  ghost predicate IsDeletedIdsOf(deleted: map<Id, set<Id>>, s: set<Packet>) {
    forall id :: DeletedIdAt(deleted, s, id)
  }

  /** For each deleted address its latest deletion. */
  ghost predicate IsDeletedAddressesOf(deleted: map<ReplaceableKey, U64>, s: set<Packet>) {
    forall key :: DeletedAddressAt(deleted, s, key)
  }

  /** The summary holds exactly what the packets of the set say. */
  ghost predicate Summarises(summary: Summary, s: set<Packet>) {
    IsWinnersOf(summary.winners, s) && IsDeletedIdsOf(summary.deletedIds, s) && IsDeletedAddressesOf(summary.deletedAddresses, s)
  }

  /** A set of packets has one summary: the order they came in cannot show. */
  lemma SummaryIsUnique(a: Summary, b: Summary, s: set<Packet>)
    requires Summarises(a, s) && Summarises(b, s)
    ensures a == b
  {
    forall key
      ensures key in a.winners <==> key in b.winners
      ensures key in a.winners && key in b.winners ==> a.winners[key] == b.winners[key]
    {
      WinnerIsUnique(a.winners, b.winners, s, key);
    }
    forall id
      ensures id in a.deletedIds <==> id in b.deletedIds
      ensures id in a.deletedIds && id in b.deletedIds ==> a.deletedIds[id] == b.deletedIds[id]
    {
      DeletedIdIsUnique(a.deletedIds, b.deletedIds, s, id);
    }
    forall key
      ensures key in a.deletedAddresses <==> key in b.deletedAddresses
      ensures key in a.deletedAddresses && key in b.deletedAddresses ==> a.deletedAddresses[key] == b.deletedAddresses[key]
    {
      DeletedAddressIsUnique(a.deletedAddresses, b.deletedAddresses, s, key);
    }
    assert a.winners == b.winners;
    assert a.deletedIds == b.deletedIds;
    assert a.deletedAddresses == b.deletedAddresses;
  }

  lemma WinnerIsUnique(a: map<ReplaceableKey, Winner>, b: map<ReplaceableKey, Winner>, s: set<Packet>, key: ReplaceableKey)
    requires IsWinnersOf(a, s) && IsWinnersOf(b, s)
    ensures key in a <==> key in b
    ensures key in a && key in b ==> a[key] == b[key]
  {
    hide KeyOf;
    assert WinnerAt(a, s, key) && WinnerAt(b, s, key);
  }

  lemma DeletedIdIsUnique(a: map<Id, set<Id>>, b: map<Id, set<Id>>, s: set<Packet>, id: Id)
    requires IsDeletedIdsOf(a, s) && IsDeletedIdsOf(b, s)
    ensures id in a <==> id in b
    ensures id in a && id in b ==> a[id] == b[id]
  {
    hide DeletesId;
    assert DeletedIdAt(a, s, id) && DeletedIdAt(b, s, id);
    if id in a {
      var pubkey :| pubkey in a[id];
      assert DeletedBy(s, id, pubkey);
    }
    if id in b {
      var pubkey :| pubkey in b[id];
      assert DeletedBy(s, id, pubkey);
    }
  }

  lemma DeletedAddressIsUnique(a: map<ReplaceableKey, U64>, b: map<ReplaceableKey, U64>, s: set<Packet>, key: ReplaceableKey)
    requires IsDeletedAddressesOf(a, s) && IsDeletedAddressesOf(b, s)
    ensures key in a <==> key in b
    ensures key in a && key in b ==> a[key] == b[key]
  {
    hide DeletesAddress;
    assert DeletedAddressAt(a, s, key) && DeletedAddressAt(b, s, key);
  }

  // ----- merging summaries -----

  function MergeWinners(a: map<ReplaceableKey, Winner>, b: map<ReplaceableKey, Winner>): map<ReplaceableKey, Winner> {
    map key | key in a.Keys + b.Keys ::
      if key !in b then a[key] else if key !in a then b[key] else Better(b[key], a[key])
  }

  function Members(deleted: map<Id, set<Id>>, id: Id): set<Id> {
    if id in deleted then deleted[id] else {}
  }

  function MergeDeletedIds(a: map<Id, set<Id>>, b: map<Id, set<Id>>): map<Id, set<Id>> {
    map id | id in a.Keys + b.Keys :: Members(a, id) + Members(b, id)
  }

  function Max(a: U64, b: U64): U64 {
    if a < b then b else a
  }

  function MergeDeletedAddresses(a: map<ReplaceableKey, U64>, b: map<ReplaceableKey, U64>): map<ReplaceableKey, U64> {
    map key | key in a.Keys + b.Keys ::
      if key !in b then a[key] else if key !in a then b[key] else Max(a[key], b[key])
  }

  function MergeSummaries(a: Summary, b: Summary): Summary {
    Summary(MergeWinners(a.winners, b.winners), MergeDeletedIds(a.deletedIds, b.deletedIds),
            MergeDeletedAddresses(a.deletedAddresses, b.deletedAddresses))
  }

  /** Merging the summaries of two sets gives the summary of their union. */
  lemma MergeSummarisesUnion(a: Summary, b: Summary, s: set<Packet>, t: set<Packet>)
    requires Summarises(a, s) && Summarises(b, t)
    ensures Summarises(MergeSummaries(a, b), s + t)
  {
    hide IsWinnersOf, IsDeletedIdsOf, IsDeletedAddressesOf, MergeWinners, MergeDeletedIds, MergeDeletedAddresses;
    MergeWinnersOfUnion(a.winners, b.winners, s, t);
    MergeDeletedIdsOfUnion(a.deletedIds, b.deletedIds, s, t);
    MergeDeletedAddressesOfUnion(a.deletedAddresses, b.deletedAddresses, s, t);
  }

  lemma MergeWinnersOfUnion(a: map<ReplaceableKey, Winner>, b: map<ReplaceableKey, Winner>, s: set<Packet>, t: set<Packet>)
    requires IsWinnersOf(a, s) && IsWinnersOf(b, t)
    ensures IsWinnersOf(MergeWinners(a, b), s + t)
  {
    forall key
      ensures WinnerAt(MergeWinners(a, b), s + t, key)
    {
      assert WinnerAt(a, s, key) && WinnerAt(b, t, key);
      MergeWinnersAt(a, b, s, t, key);
    }
  }

  lemma MergeWinnersAt(a: map<ReplaceableKey, Winner>, b: map<ReplaceableKey, Winner>, s: set<Packet>, t: set<Packet>, key: ReplaceableKey)
    requires WinnerAt(a, s, key) && WinnerAt(b, t, key)
    ensures WinnerAt(MergeWinners(a, b), s + t, key)
  {
    hide KeyOf;
    var m := MergeWinners(a, b);
    assert key in m <==> key in a || key in b;
    if key in m {
      if key in a && m[key] == a[key] {
        var p :| p in s && KeyOf(p) == Some(key) && WinnerOf(p) == a[key];
        assert p in s + t;
      } else {
        var p :| p in t && KeyOf(p) == Some(key) && WinnerOf(p) == b[key];
        assert p in s + t;
      }
    }
  }

  lemma MergeDeletedIdsOfUnion(a: map<Id, set<Id>>, b: map<Id, set<Id>>, s: set<Packet>, t: set<Packet>)
    requires IsDeletedIdsOf(a, s) && IsDeletedIdsOf(b, t)
    ensures IsDeletedIdsOf(MergeDeletedIds(a, b), s + t)
  {
    forall id
      ensures DeletedIdAt(MergeDeletedIds(a, b), s + t, id)
    {
      assert DeletedIdAt(a, s, id) && DeletedIdAt(b, t, id);
      MergeDeletedIdsAt(a, b, s, t, id);
    }
  }

  lemma MergeDeletedIdsAt(a: map<Id, set<Id>>, b: map<Id, set<Id>>, s: set<Packet>, t: set<Packet>, id: Id)
    requires DeletedIdAt(a, s, id) && DeletedIdAt(b, t, id)
    ensures DeletedIdAt(MergeDeletedIds(a, b), s + t, id)
  {
    hide DeletesId;
    var m := MergeDeletedIds(a, b);
    assert id in m <==> id in a || id in b;
    if id in m {
      assert m[id] == Members(a, id) + Members(b, id);
      forall pubkey | pubkey in m[id]
        ensures DeletedBy(s + t, id, pubkey)
      {
        assert DeletedBy(s, id, pubkey) || DeletedBy(t, id, pubkey);
      }
    }
  }

  lemma MergeDeletedAddressesOfUnion(a: map<ReplaceableKey, U64>, b: map<ReplaceableKey, U64>, s: set<Packet>, t: set<Packet>)
    requires IsDeletedAddressesOf(a, s) && IsDeletedAddressesOf(b, t)
    ensures IsDeletedAddressesOf(MergeDeletedAddresses(a, b), s + t)
  {
    forall key
      ensures DeletedAddressAt(MergeDeletedAddresses(a, b), s + t, key)
    {
      assert DeletedAddressAt(a, s, key) && DeletedAddressAt(b, t, key);
      MergeDeletedAddressesAt(a, b, s, t, key);
    }
  }

  lemma MergeDeletedAddressesAt(a: map<ReplaceableKey, U64>, b: map<ReplaceableKey, U64>, s: set<Packet>, t: set<Packet>, key: ReplaceableKey)
    requires DeletedAddressAt(a, s, key) && DeletedAddressAt(b, t, key)
    ensures DeletedAddressAt(MergeDeletedAddresses(a, b), s + t, key)
  {
    hide DeletesAddress;
    var m := MergeDeletedAddresses(a, b);
    assert key in m <==> key in a || key in b;
    if key in m {
      if key in a && m[key] == a[key] {
        var p :| p in s && DeletesAddress(p, key) && p.createdAt == a[key];
        assert p in s + t;
      } else {
        var p :| p in t && DeletesAddress(p, key) && p.createdAt == b[key];
        assert p in s + t;
      }
    }
  }

  /** Summaries form a join-semilattice under merging. */
  lemma MergeIsJoin(a: Summary, b: Summary, c: Summary)
    ensures MergeSummaries(a, a) == a
    ensures MergeSummaries(a, b) == MergeSummaries(b, a)
    ensures MergeSummaries(MergeSummaries(a, b), c) == MergeSummaries(a, MergeSummaries(b, c))
  {
    hide MergeWinners, MergeDeletedIds, MergeDeletedAddresses;
    MergeWinnersIsJoin(a.winners, b.winners, c.winners);
    MergeDeletedIdsIsJoin(a.deletedIds, b.deletedIds, c.deletedIds);
    MergeDeletedAddressesIsJoin(a.deletedAddresses, b.deletedAddresses, c.deletedAddresses);
  }

  lemma MergeWinnersIsJoin(a: map<ReplaceableKey, Winner>, b: map<ReplaceableKey, Winner>, c: map<ReplaceableKey, Winner>)
    ensures MergeWinners(a, a) == a
    ensures MergeWinners(a, b) == MergeWinners(b, a)
    ensures MergeWinners(MergeWinners(a, b), c) == MergeWinners(a, MergeWinners(b, c))
  {
    var left, right := MergeWinners(MergeWinners(a, b), c), MergeWinners(a, MergeWinners(b, c));
    assert left.Keys == right.Keys;
    forall key | key in left
      ensures left[key] == right[key]
    {
      if key in a && key in b && key in c {
        BetterIsJoin(a[key], b[key], c[key]);
      }
    }
    forall key | key in a && key in b
      ensures Better(b[key], a[key]) == Better(a[key], b[key])
    {
      BetterIsJoin(a[key], b[key], a[key]);
    }
    assert MergeWinners(a, b) == MergeWinners(b, a);
    assert MergeWinners(a, a) == a;
  }

  lemma BetterIsJoin(x: Winner, y: Winner, z: Winner)
    ensures Better(x, x) == x
    ensures Better(x, y) == Better(y, x)
    ensures Better(z, Better(y, x)) == Better(Better(z, y), x)
  {
  }

  lemma MembersOfMerge(a: map<Id, set<Id>>, b: map<Id, set<Id>>)
    ensures MergeDeletedIds(a, b).Keys == a.Keys + b.Keys
    ensures forall id :: Members(MergeDeletedIds(a, b), id) == Members(a, id) + Members(b, id)
  {
  }

  lemma SameMembers(a: map<Id, set<Id>>, b: map<Id, set<Id>>)
    requires a.Keys == b.Keys && forall id :: Members(a, id) == Members(b, id)
    ensures a == b
  {
    forall id | id in a
      ensures id in b && a[id] == b[id]
    {
      assert a[id] == Members(a, id) == Members(b, id);
    }
  }

  lemma MergeDeletedIdsIsJoin(a: map<Id, set<Id>>, b: map<Id, set<Id>>, c: map<Id, set<Id>>)
    ensures MergeDeletedIds(a, a) == a
    ensures MergeDeletedIds(a, b) == MergeDeletedIds(b, a)
    ensures MergeDeletedIds(MergeDeletedIds(a, b), c) == MergeDeletedIds(a, MergeDeletedIds(b, c))
  {
    hide MergeDeletedIds, Members;
    var ab, bc := MergeDeletedIds(a, b), MergeDeletedIds(b, c);
    MembersOfMerge(a, a);
    MembersOfMerge(a, b);
    MembersOfMerge(b, a);
    MembersOfMerge(b, c);
    MembersOfMerge(ab, c);
    MembersOfMerge(a, bc);
    SameMembers(MergeDeletedIds(a, a), a);
    SameMembers(ab, MergeDeletedIds(b, a));
    forall id
      ensures Members(MergeDeletedIds(ab, c), id) == Members(MergeDeletedIds(a, bc), id)
    {
      assert Members(a, id) + Members(b, id) + Members(c, id) == Members(a, id) + (Members(b, id) + Members(c, id));
    }
    SameMembers(MergeDeletedIds(ab, c), MergeDeletedIds(a, bc));
  }

  lemma MergeDeletedAddressesIsJoin(a: map<ReplaceableKey, U64>, b: map<ReplaceableKey, U64>, c: map<ReplaceableKey, U64>)
    ensures MergeDeletedAddresses(a, a) == a
    ensures MergeDeletedAddresses(a, b) == MergeDeletedAddresses(b, a)
    ensures MergeDeletedAddresses(MergeDeletedAddresses(a, b), c) == MergeDeletedAddresses(a, MergeDeletedAddresses(b, c))
  {
  }

  // ----- building summaries -----

  method UpdateWinner(winners: map<ReplaceableKey, Winner>, key: ReplaceableKey, candidate: Winner)
    returns (updated: map<ReplaceableKey, Winner>)
    ensures updated == MergeWinners(winners, map[key := candidate])
  {
    updated := winners;
    if key !in winners || CompareWinner(candidate, winners[key]) == Less {
      updated := winners[key := candidate];
    }
  }

  class VisibilitySummary {
    var replaceableWinners: map<ReplaceableKey, Winner>
    var deletedIds: map<Id, set<Id>>
    var deletedAddresses: map<ReplaceableKey, U64>

    ghost function View(): Summary
      reads this
    {
      Summary(replaceableWinners, deletedIds, deletedAddresses)
    }

    constructor ()
      ensures Summarises(View(), {})
    {
      replaceableWinners, deletedIds, deletedAddresses := map[], map[], map[];
    }

    method AddPacket(p: Packet, ghost s: set<Packet>)
      requires Summarises(View(), s)
      modifies this
      ensures Summarises(View(), s + {p})
    {
      hide IsWinnersOf, IsDeletedIdsOf, IsDeletedAddressesOf, MergeWinners;
      var key := KeyOf(p);
      if key.Some? {
        replaceableWinners := UpdateWinner(replaceableWinners, key.value, WinnerOf(p));
        OneWinner(p);
        MergeWinnersOfUnion(old(replaceableWinners), map[key.value := WinnerOf(p)], s, {p});
      } else {
        NoWinner(replaceableWinners, s, p);
      }
      if p.kind == DELETION_KIND {
        ApplyDeletion(p, s);
      } else {
        NoDeletion(deletedIds, deletedAddresses, s, p);
      }
    }

    method ApplyDeletion(p: Packet, ghost s: set<Packet>)
      requires p.kind == DELETION_KIND
      requires IsDeletedIdsOf(deletedIds, s) && IsDeletedAddressesOf(deletedAddresses, s)
      modifies this`deletedIds, this`deletedAddresses
      ensures IsDeletedIdsOf(deletedIds, s + {p}) && IsDeletedAddressesOf(deletedAddresses, s + {p})
    {
      hide IsDeletedIdsOf, IsDeletedAddressesOf;
      NothingNamedYet(deletedIds, deletedAddresses, s, p);
      for i := 0 to |p.tags|
        invariant IsDeletedIdsOf(deletedIds, s + {Upto(p, i)})
        invariant IsDeletedAddressesOf(deletedAddresses, s + {Upto(p, i)})
      {
        AddDeletedIdAt(deletedIds, s, p, i);
        AddDeletedAddressAt(deletedAddresses, s, p, i);
        var id := TagId(p.tags[i]);
        if id.Some? {
          deletedIds := AddDeletedId(deletedIds, id.value, p.pubkey);
        }
        var key := TagAddress(p.tags[i], p.pubkey);
        if key.Some? {
          deletedAddresses := AddDeletedAddress(deletedAddresses, key.value, p.createdAt);
        }
      }
      assert Upto(p, |p.tags|) == p;
    }
  }

  lemma OneWinner(p: Packet)
    requires KeyOf(p).Some?
    ensures IsWinnersOf(map[KeyOf(p).value := WinnerOf(p)], {p})
  {
    hide KeyOf;
    assert p in {p};
  }

  lemma NoWinner(winners: map<ReplaceableKey, Winner>, s: set<Packet>, p: Packet)
    requires KeyOf(p).None? && IsWinnersOf(winners, s)
    ensures IsWinnersOf(winners, s + {p})
  {
    hide KeyOf;
    forall key
      ensures WinnerAt(winners, s + {p}, key)
    {
      assert WinnerAt(winners, s, key);
    }
  }

  lemma NoDeletion(ids: map<Id, set<Id>>, addresses: map<ReplaceableKey, U64>, s: set<Packet>, p: Packet)
    requires p.kind != DELETION_KIND && IsDeletedIdsOf(ids, s) && IsDeletedAddressesOf(addresses, s)
    ensures IsDeletedIdsOf(ids, s + {p}) && IsDeletedAddressesOf(addresses, s + {p})
  {
    hide TagId, TagAddress;
    assert forall id :: !DeletesId(p, id);
    assert forall key :: !DeletesAddress(p, key);
    StillDeleted(ids, addresses, s, p);
  }

  /** A packet that deletes nothing leaves the deletions as they are. */
  lemma StillDeleted(ids: map<Id, set<Id>>, addresses: map<ReplaceableKey, U64>, s: set<Packet>, p: Packet)
    requires forall id :: !DeletesId(p, id)
    requires forall key :: !DeletesAddress(p, key)
    requires IsDeletedIdsOf(ids, s) && IsDeletedAddressesOf(addresses, s)
    ensures IsDeletedIdsOf(ids, s + {p}) && IsDeletedAddressesOf(addresses, s + {p})
  {
    hide DeletesId, DeletesAddress;
    forall id
      ensures DeletedIdAt(ids, s + {p}, id)
    {
      assert DeletedIdAt(ids, s, id);
      forall pubkey | DeletedBy(s, id, pubkey)
        ensures DeletedBy(s + {p}, id, pubkey)
      {
        var q :| q in s && DeletesId(q, id) && q.pubkey == pubkey;
        assert q in s + {p};
      }
    }
    forall key
      ensures DeletedAddressAt(addresses, s + {p}, key)
    {
      assert DeletedAddressAt(addresses, s, key);
    }
  }

  function AddDeletedId(deleted: map<Id, set<Id>>, id: Id, pubkey: Id): map<Id, set<Id>> {
    deleted[id := Members(deleted, id) + {pubkey}]
  }

  function AddDeletedAddress(deleted: map<ReplaceableKey, U64>, key: ReplaceableKey, createdAt: U64): map<ReplaceableKey, U64> {
    deleted[key := if key in deleted then Max(deleted[key], createdAt) else createdAt]
  }

  /** The packet with its first `n` tags only. */
  function Upto(p: Packet, n: nat): Packet
    requires n <= |p.tags|
  {
    p.(tags := p.tags[..n])
  }

  lemma NothingNamedYet(ids: map<Id, set<Id>>, addresses: map<ReplaceableKey, U64>, s: set<Packet>, p: Packet)
    requires IsDeletedIdsOf(ids, s) && IsDeletedAddressesOf(addresses, s)
    ensures IsDeletedIdsOf(ids, s + {Upto(p, 0)}) && IsDeletedAddressesOf(addresses, s + {Upto(p, 0)})
  {
    StillDeleted(ids, addresses, s, Upto(p, 0));
  }

  lemma DeletesUpto(p: Packet, n: nat, id: Id, key: ReplaceableKey)
    requires n < |p.tags| && p.kind == DELETION_KIND
    ensures DeletesId(Upto(p, n + 1), id) <==> DeletesId(Upto(p, n), id) || TagId(p.tags[n]) == Some(id)
    ensures DeletesAddress(Upto(p, n + 1), key) <==> DeletesAddress(Upto(p, n), key) || TagAddress(p.tags[n], p.pubkey) == Some(key)
  {
    hide TagId, TagAddress;
    var q, r := Upto(p, n), Upto(p, n + 1);
    assert r.tags[n] == p.tags[n];
    assert forall i :: 0 <= i < n ==> q.tags[i] == p.tags[i] == r.tags[i];
    if DeletesId(q, id) {
      var i :| 0 <= i < |q.tags| && TagId(q.tags[i]) == Some(id);
      assert TagId(r.tags[i]) == Some(id);
    }
    if DeletesAddress(q, key) {
      var i :| 0 <= i < |q.tags| && TagAddress(q.tags[i], p.pubkey) == Some(key);
      assert TagAddress(r.tags[i], p.pubkey) == Some(key);
    }
  }

  lemma AddDeletedIdAt(deleted: map<Id, set<Id>>, s: set<Packet>, p: Packet, n: nat)
    requires n < |p.tags| && p.kind == DELETION_KIND && IsDeletedIdsOf(deleted, s + {Upto(p, n)})
    ensures IsDeletedIdsOf(
      if TagId(p.tags[n]).Some? then AddDeletedId(deleted, TagId(p.tags[n]).value, p.pubkey) else deleted, s + {Upto(p, n + 1)})
  {
    hide TagId;
    var q, r := Upto(p, n), Upto(p, n + 1);
    var m := if TagId(p.tags[n]).Some? then AddDeletedId(deleted, TagId(p.tags[n]).value, p.pubkey) else deleted;
    forall id
      ensures DeletedIdAt(m, s + {r}, id)
    {
      assert DeletedIdAt(deleted, s + {q}, id);
      DeletesUpto(p, n, id, ReplaceableKey(p.pubkey, p.kind, None));
      hide DeletesId;
      if id in m {
        forall pubkey | pubkey in m[id]
          ensures DeletedBy(s + {r}, id, pubkey)
        {
          if id in deleted && pubkey in deleted[id] {
            assert DeletedBy(s + {q}, id, pubkey);
            var x :| x in s + {q} && DeletesId(x, id) && x.pubkey == pubkey;
            assert x in s + {r} || x == q;
          }
          assert r in s + {r};
        }
      }
    }
  }

  lemma AddDeletedAddressAt(deleted: map<ReplaceableKey, U64>, s: set<Packet>, p: Packet, n: nat)
    requires n < |p.tags| && p.kind == DELETION_KIND && IsDeletedAddressesOf(deleted, s + {Upto(p, n)})
    ensures IsDeletedAddressesOf(
      if TagAddress(p.tags[n], p.pubkey).Some? then AddDeletedAddress(deleted, TagAddress(p.tags[n], p.pubkey).value, p.createdAt)
      else deleted, s + {Upto(p, n + 1)})
  {
    hide TagAddress;
    var q, r := Upto(p, n), Upto(p, n + 1);
    var tag := TagAddress(p.tags[n], p.pubkey);
    var m := if tag.Some? then AddDeletedAddress(deleted, tag.value, p.createdAt) else deleted;
    forall key
      ensures DeletedAddressAt(m, s + {r}, key)
    {
      assert DeletedAddressAt(deleted, s + {q}, key);
      DeletesUpto(p, n, 0, key);
      hide DeletesAddress;
      if key in m {
        if key in deleted && m[key] == deleted[key] {
          var x :| x in s + {q} && DeletesAddress(x, key) && x.createdAt == deleted[key];
          assert x in s + {r} || x == q;
        }
        assert r in s + {r};
      }
    }
  }

  method SummaryFromPackets(packets: seq<Packet>) returns (summary: VisibilitySummary)
    ensures fresh(summary) && Summarises(summary.View(), Elements(packets))
  {
    hide Summarises;
    summary := new VisibilitySummary();
    assert Elements(packets[..0]) == {};
    for i := 0 to |packets|
      invariant fresh(summary) && Summarises(summary.View(), Elements(packets[..i]))
    {
      summary.AddPacket(packets[i], Elements(packets[..i]));
      assert Elements(packets[..i + 1]) == Elements(packets[..i]) + {packets[i]};
    }
    assert packets[..|packets|] == packets;
  }

  // ----- the in-memory test -----

  /** The hot visibility test against a summary. */
  predicate IndexVisible(summary: Summary, p: Packet) {
    p.kind == DELETION_KIND ||
    (var key := KeyOf(p);
     && (key.Some? && key.value in summary.winners ==> summary.winners[key.value].id == p.id)
     && !(p.id in summary.deletedIds && p.pubkey in summary.deletedIds[p.id])
     && (key.Some? && key.value in summary.deletedAddresses ==> p.createdAt > summary.deletedAddresses[key.value]))
  }

  class VisibilityIndex {
    var replaceableWinners: map<ReplaceableKey, Winner>
    var deletedIds: map<Id, set<Id>>
    var deletedAddresses: map<ReplaceableKey, U64>

    ghost function View(): Summary
      reads this
    {
      Summary(replaceableWinners, deletedIds, deletedAddresses)
    }

    constructor FromPackets(packets: seq<Packet>)
      ensures Summarises(View(), Elements(packets))
    {
      hide Summarises;
      replaceableWinners, deletedIds, deletedAddresses := map[], map[], map[];
      new;
      var summary := SummaryFromPackets(packets);
      Merge(Summary(summary.replaceableWinners, summary.deletedIds, summary.deletedAddresses));
      MergeIntoEmpty(summary.View());
    }

    method Merge(summary: Summary)
      modifies this
      ensures View() == MergeSummaries(old(View()), summary)
    {
      replaceableWinners := UpdateWinners(replaceableWinners, summary.winners);
      deletedIds := ExtendDeletedIds(deletedIds, summary.deletedIds);
      deletedAddresses := RaiseDeletedAddresses(deletedAddresses, summary.deletedAddresses);
    }

    method IsVisible(p: Packet) returns (visible: bool)
      ensures visible == IndexVisible(View(), p)
    {
      if p.kind == DELETION_KIND {
        return true;
      }
      var key := KeyOf(p);
      if key.Some? && key.value in replaceableWinners && replaceableWinners[key.value].id != p.id {
        return false;
      }
      if p.id in deletedIds && p.pubkey in deletedIds[p.id] {
        return false;
      }
      if key.None? {
        return true;
      }
      visible := key.value !in deletedAddresses || p.createdAt > deletedAddresses[key.value];
    }
  }

  method UpdateWinners(current: map<ReplaceableKey, Winner>, other: map<ReplaceableKey, Winner>)
    returns (merged: map<ReplaceableKey, Winner>)
    ensures merged == MergeWinners(current, other)
  {
    hide MergeWinners, Restrict;
    merged := current;
    var keys := other.Keys;
    RestrictAll(other);
    assert MergeWinners(current, map[]) == current by {
      MergeNothing(Summary(current, map[], map[]));
    }
    while keys != {}
      invariant keys <= other.Keys
      invariant merged == MergeWinners(current, Restrict(other, other.Keys - keys))
      decreases |keys|
    {
      var key :| key in keys;
      MergeOneWinner(current, other, other.Keys - keys, key);
      merged := UpdateWinner(merged, key, other[key]);
      assert other.Keys - (keys - {key}) == (other.Keys - keys) + {key};
      keys := keys - {key};
    }
    assert other.Keys - keys == other.Keys;
  }

  method ExtendDeletedIds(current: map<Id, set<Id>>, other: map<Id, set<Id>>) returns (merged: map<Id, set<Id>>)
    ensures merged == MergeDeletedIds(current, other)
  {
    hide MergeDeletedIds, Restrict;
    merged := current;
    var ids := other.Keys;
    RestrictAll(other);
    assert MergeDeletedIds(current, map[]) == current by {
      MergeNothing(Summary(map[], current, map[]));
    }
    while ids != {}
      invariant ids <= other.Keys
      invariant merged == MergeDeletedIds(current, Restrict(other, other.Keys - ids))
      decreases |ids|
    {
      var id :| id in ids;
      MergeOneDeletedId(current, other, other.Keys - ids, id);
      merged := merged[id := Members(merged, id) + other[id]];
      assert other.Keys - (ids - {id}) == (other.Keys - ids) + {id};
      ids := ids - {id};
    }
    assert other.Keys - ids == other.Keys;
  }

  method RaiseDeletedAddresses(current: map<ReplaceableKey, U64>, other: map<ReplaceableKey, U64>)
    returns (merged: map<ReplaceableKey, U64>)
    ensures merged == MergeDeletedAddresses(current, other)
  {
    hide MergeDeletedAddresses, Restrict;
    merged := current;
    var keys := other.Keys;
    RestrictAll(other);
    assert MergeDeletedAddresses(current, map[]) == current by {
      MergeNothing(Summary(map[], map[], current));
    }
    while keys != {}
      invariant keys <= other.Keys
      invariant merged == MergeDeletedAddresses(current, Restrict(other, other.Keys - keys))
      decreases |keys|
    {
      var key :| key in keys;
      MergeOneDeletedAddress(current, other, other.Keys - keys, key);
      merged := AddDeletedAddress(merged, key, other[key]);
      assert other.Keys - (keys - {key}) == (other.Keys - keys) + {key};
      keys := keys - {key};
    }
    assert other.Keys - keys == other.Keys;
  }

  function Restrict<K, V>(m: map<K, V>, keys: set<K>): map<K, V> {
    map key | key in m && key in keys :: m[key]
  }

  lemma RestrictAll<K, V>(m: map<K, V>)
    ensures Restrict(m, m.Keys) == m && Restrict(m, m.Keys - m.Keys) == map[]
  {
  }

  lemma MergeNothing(a: Summary)
    ensures MergeSummaries(a, Summary(map[], map[], map[])) == a
  {
    MembersOfMerge(a.deletedIds, map[]);
    SameMembers(MergeDeletedIds(a.deletedIds, map[]), a.deletedIds);
  }

  lemma MergeIntoEmpty(b: Summary)
    ensures MergeSummaries(Summary(map[], map[], map[]), b) == b
  {
    MergeNothing(b);
    MergeIsJoin(Summary(map[], map[], map[]), b, b);
  }

  lemma MergeOneWinner(a: map<ReplaceableKey, Winner>, b: map<ReplaceableKey, Winner>, done: set<ReplaceableKey>, key: ReplaceableKey)
    requires key in b && key !in done
    ensures MergeWinners(MergeWinners(a, Restrict(b, done)), map[key := b[key]]) == MergeWinners(a, Restrict(b, done + {key}))
  {
    hide Better;
  }

  lemma MergeOneDeletedId(a: map<Id, set<Id>>, b: map<Id, set<Id>>, done: set<Id>, id: Id)
    requires id in b && id !in done
    ensures var m := MergeDeletedIds(a, Restrict(b, done));
      m[id := Members(m, id) + b[id]] == MergeDeletedIds(a, Restrict(b, done + {id}))
  {
    var m, n := MergeDeletedIds(a, Restrict(b, done)), MergeDeletedIds(a, Restrict(b, done + {id}));
    forall x
      ensures Members(m[id := Members(m, id) + b[id]], x) == Members(n, x)
    {
      MembersOfMerge(a, Restrict(b, done));
      MembersOfMerge(a, Restrict(b, done + {id}));
    }
    SameMembers(m[id := Members(m, id) + b[id]], n);
  }

  lemma MergeOneDeletedAddress(a: map<ReplaceableKey, U64>, b: map<ReplaceableKey, U64>, done: set<ReplaceableKey>, key: ReplaceableKey)
    requires key in b && key !in done
    ensures AddDeletedAddress(MergeDeletedAddresses(a, Restrict(b, done)), key, b[key]) == MergeDeletedAddresses(a, Restrict(b, done + {key}))
  {
    hide Max;
  }

  /** A newer version, or the same age with the smaller id, supersedes a replaceable packet. */
  predicate Supersedes(h: Packet, p: Packet) {
    KeyOf(p).Some? && KeyOf(h) == KeyOf(p) && Before(h, p)
  }

  /** A deletion by the same author names the packet, or its address no earlier than it. */
  predicate Deletes(h: Packet, p: Packet) {
    && h.pubkey == p.pubkey
    && (DeletesId(h, p.id) || (KeyOf(p).Some? && DeletesAddress(h, KeyOf(p).value) && p.createdAt <= h.createdAt))
  }

  predicate Hides(h: Packet, p: Packet) {
    p.kind != DELETION_KIND && (Supersedes(h, p) || Deletes(h, p))
  }

  /** For a packet of the summarised set, the in-memory test says: nothing in the set hides it. */
  lemma IndexVisibleIffNotHidden(summary: Summary, s: set<Packet>, p: Packet)
    requires Summarises(summary, s) && IdsDetermine(s) && p in s
    ensures IndexVisible(summary, p) <==> forall h :: h in s ==> !Hides(h, p)
  {
    hide KeyOf, DeletesId, DeletesAddress;
    SummaryAt(summary, s, p);
    var key := KeyOf(p);
    if key.Some? && key.value in summary.winners {
      var w :| w in s && KeyOf(w) == key && WinnerOf(w) == summary.winners[key.value];
      assert w.id == p.id ==> w == p;
      assert w.id != p.id ==> Supersedes(w, p);
    }
    if key.Some? && key.value in summary.deletedAddresses {
      var h :| h in s && DeletesAddress(h, key.value) && h.createdAt == summary.deletedAddresses[key.value];
      AddressIsOwn(h, key.value);
      KeyIsOwn(p);
      assert p.createdAt <= h.createdAt ==> Deletes(h, p);
    }
    if p.id in summary.deletedIds && p.pubkey in summary.deletedIds[p.id] {
      var h :| h in s && DeletesId(h, p.id) && h.pubkey == p.pubkey;
      assert Deletes(h, p);
    }
  }

  lemma KeyIsOwn(p: Packet)
    ensures KeyOf(p).Some? ==> KeyOf(p).value.pubkey == p.pubkey && KeyOf(p).value.kind == p.kind && WellFormedKey(KeyOf(p).value)
  {
  }

  lemma AddressIsOwn(h: Packet, key: ReplaceableKey)
    requires DeletesAddress(h, key)
    ensures key.pubkey == h.pubkey && WellFormedKey(key)
  {
    hide ParseAddressTag;
  }

  lemma SummaryAt(summary: Summary, s: set<Packet>, p: Packet)
    requires Summarises(summary, s)
    ensures KeyOf(p).Some? ==> WinnerAt(summary.winners, s, KeyOf(p).value)
    ensures KeyOf(p).Some? ==> DeletedAddressAt(summary.deletedAddresses, s, KeyOf(p).value)
    ensures DeletedIdAt(summary.deletedIds, s, p.id)
    ensures p.id in summary.deletedIds && p.pubkey in summary.deletedIds[p.id] ==> DeletedBy(s, p.id, p.pubkey)
  {
    hide KeyOf, DeletesId, DeletesAddress;
    assert DeletedIdAt(summary.deletedIds, s, p.id);
  }

  /** For any packet, a hider in the summarised set hides it. */
  lemma IndexHides(summary: Summary, s: set<Packet>, h: Packet, p: Packet)
    requires Summarises(summary, s) && h in s && Hides(h, p) && IdsDetermine(s + {p})
    ensures !IndexVisible(summary, p)
  {
    hide KeyOf, DeletesId, DeletesAddress;
    SummaryAt(summary, s, p);
  }

  /** For a packet outside the summarised set, the in-memory test hides more: any version of the
      same replaceable key hides it, an older one too. */
  lemma IndexVisibleOutside(summary: Summary, s: set<Packet>, p: Packet)
    requires Summarises(summary, s) && IdsDetermine(s + {p}) && p !in s
    ensures IndexVisible(summary, p) <==>
      p.kind == DELETION_KIND || forall h :: h in s ==> !(KeyOf(p).Some? && KeyOf(h) == KeyOf(p)) && !Deletes(h, p)
  {
    hide KeyOf, DeletesId, DeletesAddress;
    SummaryAt(summary, s, p);
    var key := KeyOf(p);
    if key.Some? && key.value in summary.deletedAddresses {
      var h :| h in s && DeletesAddress(h, key.value) && h.createdAt == summary.deletedAddresses[key.value];
      AddressIsOwn(h, key.value);
      KeyIsOwn(p);
      assert p.createdAt <= h.createdAt ==> Deletes(h, p);
    }
    if p.id in summary.deletedIds && p.pubkey in summary.deletedIds[p.id] {
      var h :| h in s && DeletesId(h, p.id) && h.pubkey == p.pubkey;
      assert Deletes(h, p);
    }
  }

  function Profile(id: Id, createdAt: U64): Packet {
    Packet(createdAt, id, 7, 0, [], [])
  }

  /** So the newest version of a profile is invisible next to an index that holds an older one only,
      though nothing supersedes or deletes it. */
  lemma NewestVersionCanBeInvisible(summary: Summary)
    requires Summarises(summary, {Profile(1, 10)})
    ensures IdsDetermine({Profile(1, 10)} + {Profile(2, 20)}) && Profile(2, 20) !in {Profile(1, 10)}
    ensures (forall h :: h in {Profile(1, 10)} ==> !Hides(h, Profile(2, 20))) && Supersedes(Profile(2, 20), Profile(1, 10))
    ensures !IndexVisible(summary, Profile(2, 20))
  {
    var s, p := {Profile(1, 10)}, Profile(2, 20);
    IndexVisibleOutside(summary, s, p);
    assert KeyOf(Profile(1, 10)) == KeyOf(p);
  }
}
