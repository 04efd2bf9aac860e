/** The stored event, the query filter, the newest-first order and the partition day. */
module Events {

  const SECONDS_PER_DAY: nat := 24 * 60 * 60
  const U64_MAX: nat := 0xFFFF_FFFF_FFFF_FFFF
  const U32_MAX: nat := 0xFFFF_FFFF
  const ID_LIMIT: nat := 0x1_0000000000000000_0000000000000000_0000000000000000_0000000000000000

  type U64 = n: nat | n <= U64_MAX
  type U32 = n: nat | n <= U32_MAX
  type Byte = n: nat | n < 256
  type Bytes = seq<Byte>

  /** A 32-byte id or public key, as the number its bytes spell most significant first;
      the byte-wise order of the arrays is the order of these numbers. */
  type Id = n: nat | n < ID_LIMIT

  /** Normalised search text and search terms, one element per character. */
  type Text = seq<char>
  type Term = seq<char>

  datatype Option<+T> = None | Some(value: T)

  /** A tag element: plain text, or a packed 32-byte id that prints as 64 hex digits. */
  datatype Element = TextElement(value: Bytes) | IdElement(value: Bytes)

  /** An event packet together with what the source decodes from its payload on demand. */
  datatype Packet = Packet(
    createdAt: U64,
    id: Id,
    pubkey: Id,
    kind: U32,
    tags: seq<seq<Element>>,
    text: Text
  )

  function UnixDay(p: Packet): U64 {
    p.createdAt / SECONDS_PER_DAY
  }

  // ----- the newest-first order -----

  datatype Ordering = Less | Equal | Greater

  function CompareNat(a: nat, b: nat): Ordering {
    if a < b then Less else if a == b then Equal else Greater
  }

  function ComparePackets(a: Packet, b: Packet): Ordering {
    match CompareNat(b.createdAt, a.createdAt)
    case Equal => CompareNat(a.id, b.id)
    case other => other
  }

  /** `a` is listed strictly before `b`: newer, or equally old with the smaller id. */
  predicate Before(a: Packet, b: Packet) {
    a.createdAt > b.createdAt || (a.createdAt == b.createdAt && a.id < b.id)
  }

  /** Ids are hashes of the signed content, so within one store an id names one packet. */
  ghost predicate IdsDetermine(s: set<Packet>) {
    forall p, q :: p in s && q in s && p.id == q.id ==> p == q
  }

  predicate Sorted(s: seq<Packet>) {
    forall i, j :: 0 <= i < j < |s| ==> !Before(s[j], s[i])
  }

  predicate StrictlySorted(s: seq<Packet>) {
    forall i, j :: 0 <= i < j < |s| ==> Before(s[i], s[j])
  }

  function Elements<T>(s: seq<T>): set<T> {
    set p | p in s
  }

  /** What of a sequence passes a test, in order. */
  function Retain<T>(keep: T -> bool, s: seq<T>): (r: seq<T>)
    ensures |r| <= |s|
  {
    if s == [] then []
    else
      var n := |s| - 1;
      Retain(keep, s[..n]) + (if keep(s[n]) then [s[n]] else [])
  }

  lemma {:induction false} RetainMembers<T>(keep: T -> bool, s: seq<T>)
    ensures forall x :: x in Retain(keep, s) <==> x in s && keep(x)
  {
    if s != [] {
      var n := |s| - 1;
      RetainMembers(keep, s[..n]);
      assert s == s[..n] + [s[n]];
    }
  }

  /** The test that only `x` fails. */
  function OtherThan<T(==)>(x: T): T -> bool {
    y => y != x
  }

  function IdsOf(s: set<Packet>): set<Id> {
    set p | p in s :: p.id
  }

  // ----- sorting by the packet of each item -----

  predicate SortedBy<T>(packetOf: T -> Packet, s: seq<T>) {
    forall i, j :: 0 <= i < j < |s| ==> !Before(packetOf(s[j]), packetOf(s[i]))
  }

  predicate NoneBefore<T>(packetOf: T -> Packet, s: seq<T>, x: T) {
    forall i :: 0 <= i < |s| ==> !Before(packetOf(s[i]), packetOf(x))
  }

  function Insert<T(!new)>(packetOf: T -> Packet, x: T, s: seq<T>): (r: seq<T>)
    requires SortedBy(packetOf, s)
    ensures SortedBy(packetOf, r) && multiset(r) == multiset{x} + multiset(s)
    ensures forall y :: NoneBefore(packetOf, s, y) && !Before(packetOf(x), packetOf(y)) ==> NoneBefore(packetOf, r, y)
  {
    if s == [] || ComparePackets(packetOf(x), packetOf(s[0])) != Greater then
      AtFront(packetOf, x, s);
      [x] + s
    else
      assert s == [s[0]] + s[1..];
      assert NoneBefore(packetOf, s[1..], s[0]);
      hide ComparePackets;
      var rest := Insert(packetOf, x, s[1..]);
      AtFront(packetOf, s[0], rest);
      [s[0]] + rest
  }

  lemma AtFront<T(!new)>(packetOf: T -> Packet, x: T, s: seq<T>)
    requires SortedBy(packetOf, s)
    ensures NoneBefore(packetOf, s, x) || (s != [] && !Before(packetOf(s[0]), packetOf(x))) ==> SortedBy(packetOf, [x] + s)
    ensures forall y :: NoneBefore(packetOf, s, y) && !Before(packetOf(x), packetOf(y)) ==> NoneBefore(packetOf, [x] + s, y)
  {
    forall i | 0 <= i < |s| && !Before(packetOf(s[0]), packetOf(x))
      ensures !Before(packetOf(s[i]), packetOf(x))
    {
      assert i == 0 || !Before(packetOf(s[i]), packetOf(s[0]));
    }
  }

  function SortBy<T(!new)>(packetOf: T -> Packet, s: seq<T>): (r: seq<T>)
    ensures SortedBy(packetOf, r) && multiset(r) == multiset(s)
  {
    if s == [] then []
    else
      assert s == [s[0]] + s[1..];
      Insert(packetOf, s[0], SortBy(packetOf, s[1..]))
  }

  function SortPackets(s: seq<Packet>): (r: seq<Packet>)
    ensures Sorted(r) && multiset(r) == multiset(s)
  {
    SortBy((p: Packet) => p, s)
  }

  // ----- filters -----

  /** A query filter; `terms` are the normalised search terms of its `search` string. */
  datatype Filter = Filter(
    ids: Option<seq<Id>>,
    authors: Option<seq<Id>>,
    kinds: Option<seq<U32>>,
    since: Option<U64>,
    until: Option<U64>,
    limit: Option<nat>,
    tags: seq<(nat, seq<Bytes>)>,
    terms: seq<Term>
  )

  predicate MatchesIds(f: Filter, p: Packet) {
    f.ids.None? || f.ids.value == [] || p.id in f.ids.value
  }

  predicate MatchesAuthors(f: Filter, p: Packet) {
    f.authors.None? || f.authors.value == [] || p.pubkey in f.authors.value
  }

  predicate MatchesKinds(f: Filter, p: Packet) {
    f.kinds.None? || f.kinds.value == [] || p.kind in f.kinds.value
  }

  predicate MatchesSince(f: Filter, createdAt: U64) {
    f.since.None? || f.since.value <= createdAt
  }

  predicate MatchesUntil(f: Filter, createdAt: U64) {
    f.until.None? || createdAt <= f.until.value
  }

  /** The tag carries the one-letter ASCII name and one of the values. */
  predicate TagAnswers(tag: seq<Element>, name: nat, values: seq<Bytes>) {
    |tag| >= 2 && tag[0].TextElement? && name < 128 && tag[0].value == [name] && tag[1].value in values
  }

  predicate MatchesTags(f: Filter, p: Packet) {
    forall i :: 0 <= i < |f.tags| && f.tags[i].1 != [] ==>
      exists k :: 0 <= k < |p.tags| && TagAnswers(p.tags[k], f.tags[i].0, f.tags[i].1)
  }

  predicate MatchesWithoutSearch(f: Filter, p: Packet) {
    && MatchesIds(f, p)
    && MatchesAuthors(f, p)
    && MatchesKinds(f, p)
    && MatchesSince(f, p.createdAt)
    && MatchesUntil(f, p.createdAt)
    && MatchesTags(f, p)
  }

  /** `term` occurs in `text` at `at`. */
  predicate OccursAt<T(==)>(text: seq<T>, term: seq<T>, at: int) {
    0 <= at && at + |term| <= |text| && text[at..at + |term|] == term
  }

  predicate Contains<T(==)>(text: seq<T>, term: seq<T>) {
    exists at :: 0 <= at <= |text| && OccursAt(text, term, at)
  }

  predicate HasTerms(text: Text, terms: set<Term>) {
    forall term :: term in terms ==> Contains(text, term)
  }

  predicate MatchesFilter(f: Filter, p: Packet) {
    MatchesWithoutSearch(f, p) && HasTerms(p.text, Elements(f.terms))
  }

  // ----- day pruning -----

  function SaturatingMul(a: U64, b: U64): U64 {
    if a * b <= U64_MAX then a * b else U64_MAX
  }

  function SaturatingAdd(a: U64, b: U64): U64 {
    if a + b <= U64_MAX then a + b else U64_MAX
  }

  function DayStart(day: U64): U64 {
    SaturatingMul(day, SECONDS_PER_DAY)
  }

  function DayEnd(day: U64): U64 {
    SaturatingAdd(DayStart(day), SECONDS_PER_DAY - 1)
  }

  predicate DayOverlapsFilter(day: U64, f: Filter) {
    var since := if f.since.Some? then f.since.value else 0;
    var until := if f.until.Some? then f.until.value else U64_MAX;
    since <= DayEnd(day) && until >= DayStart(day)
  }

  /** Days are counted in 86400 seconds. */
  lemma DayOfPacket(p: Packet, day: nat)
    ensures UnixDay(p) == day <==> 86_400 * day <= p.createdAt < 86_400 * (day + 1)
  {
    assert p.createdAt == 86_400 * (p.createdAt / 86_400) + p.createdAt % 86_400;
  }

  /** A timestamp lies between the saturated bounds of its own day, the last one included. */
  lemma TimestampWithinItsDay(t: U64)
    ensures DayStart(t / SECONDS_PER_DAY) <= t <= DayEnd(t / SECONDS_PER_DAY)
  {
    var day := t / SECONDS_PER_DAY;
    assert day * SECONDS_PER_DAY <= t < day * SECONDS_PER_DAY + SECONDS_PER_DAY;
  }

  /** For a day some timestamp falls on, the saturated bounds describe exactly that day. */
  lemma TimestampsOfDay(day: U64, t: U64)
    requires day <= U64_MAX / SECONDS_PER_DAY
    ensures t / SECONDS_PER_DAY == day <==> DayStart(day) <= t <= DayEnd(day)
  {
    assert day * SECONDS_PER_DAY <= U64_MAX;
    if t / SECONDS_PER_DAY == day {
      TimestampWithinItsDay(t);
    }
    assert t == (t / SECONDS_PER_DAY) * SECONDS_PER_DAY + t % SECONDS_PER_DAY;
  }

  /** Skipping a day is sound: no packet of a non-overlapping day matches the filter. */
  lemma PruningIsSound(f: Filter, p: Packet)
    requires MatchesWithoutSearch(f, p)
    ensures DayOverlapsFilter(UnixDay(p), f)
  {
    TimestampWithinItsDay(p.createdAt);
  }

  /** Pruning keeps exactly the days with timestamps on the right side of each bound. When the
      bounds are not in reverse order, one timestamp of the day then passes both. */
  lemma PruningIsExact(f: Filter, day: U64)
    requires day <= U64_MAX / SECONDS_PER_DAY
    ensures DayOverlapsFilter(day, f) <==>
              && (exists t: U64 :: t / SECONDS_PER_DAY == day && MatchesSince(f, t))
              && (exists t: U64 :: t / SECONDS_PER_DAY == day && MatchesUntil(f, t))
    ensures !(f.since.Some? && f.until.Some? && f.since.value > f.until.value) ==>
              (DayOverlapsFilter(day, f) <==>
                 exists t: U64 :: t / SECONDS_PER_DAY == day && MatchesSince(f, t) && MatchesUntil(f, t))
  {
    forall t: U64
      ensures t / SECONDS_PER_DAY == day <==> DayStart(day) <= t <= DayEnd(day)
    {
      TimestampsOfDay(day, t);
    }
    assert day * SECONDS_PER_DAY <= U64_MAX;
    assert DayStart(day) / SECONDS_PER_DAY == day && DayEnd(day) / SECONDS_PER_DAY == day;
    if DayOverlapsFilter(day, f) {
      var since := if f.since.Some? then f.since.value else 0;
      var t := if since >= DayStart(day) then since else DayStart(day);
      assert t / SECONDS_PER_DAY == day && MatchesSince(f, t);
      assert DayStart(day) / SECONDS_PER_DAY == day && MatchesUntil(f, DayStart(day));
    }
  }

  /** The three-way comparison of the sort is the strict order, and equality of both keys. */
  lemma CompareIsOrder(a: Packet, b: Packet)
    ensures ComparePackets(a, b) == Less <==> Before(a, b)
    ensures ComparePackets(a, b) == Greater <==> Before(b, a)
    ensures ComparePackets(a, b) == Equal <==> a.createdAt == b.createdAt && a.id == b.id
  {
  }
}
