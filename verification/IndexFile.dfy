/** The search index file: writer, validating reader, and what acceptance guarantees. Sizes and
    positions are 64-bit; sums of packet lengths wrap as unchecked 64-bit additions do. */
module IndexFile {
  import opened Events
  import opened Encoding
  import Bloom
  import HotFile

  const MAGIC: Bytes := [83, 82, 67, 72, 83, 73, 48, 49]  // SRCHSI01
  const RECORD_BYTES: nat := 12
  const OFFSET_BYTES: nat := 8
  const HEADER_BYTES: nat := 40

  datatype FileRecord = FileRecord(packetOffset: U64, packetLen: U32)

  datatype Contents = Contents(
    count: U64, bytes: U64, hash: U64, kindsHash: U64,
    records: seq<FileRecord>, offsets: seq<U64>, bloom: Bytes, text: Bytes
  )

  // ----- fixed-width sections -----

  function Pack<T>(items: seq<T>, encode: T -> Bytes): Bytes {
    if items == [] then [] else encode(items[0]) + Pack(items[1..], encode)
  }

  ghost predicate HasWidth<T(!new)>(encode: T -> Bytes, width: nat) {
    forall x :: |encode(x)| == width
  }

  lemma {:induction false} PackLength<T(!new)>(items: seq<T>, encode: T -> Bytes, width: nat)
    requires HasWidth(encode, width)
    ensures |Pack(items, encode)| == width * |items|
  {
    if items != [] {
      PackLength(items[1..], encode, width);
      assert |encode(items[0])| == width;
      assert width * |items| == width + width * |items[1..]|;
    }
  }

  /** Item `i` of a section is found at `width * i`. */
  lemma {:induction false} PackedAt<T(!new)>(items: seq<T>, encode: T -> Bytes, width: nat, i: nat)
    requires HasWidth(encode, width) && i < |items|
    ensures 0 <= width * i && width * i + width <= |Pack(items, encode)|
    ensures Pack(items, encode)[width * i..width * i + width] == encode(items[i])
  {
    var first, rest := encode(items[0]), Pack(items[1..], encode);
    assert |first| == width;
    if i == 0 {
      assert width * i == 0;
      assert (first + rest)[..width] == first;
    } else {
      PackedAt(items[1..], encode, width, i - 1);
      var at := width * (i - 1);
      assert width * i == width + at;
      assert (first + rest)[width + at..width + at + width] == rest[at..at + width];
    }
  }

  /** A byte string whose chunks are the encodings of the items is the section of the items. */
  lemma {:induction false} PackOfChunks<T(!new)>(items: seq<T>, encode: T -> Bytes, width: nat, bytes: Bytes)
    requires HasWidth(encode, width) && |bytes| == width * |items|
    requires forall i :: 0 <= i < |items| ==> 0 <= width * i && width * i + width <= |bytes| && bytes[width * i..width * i + width] == encode(items[i])
    ensures Pack(items, encode) == bytes
  {
    if items != [] {
      var rest := bytes[width..];
      assert width * |items| == width + width * |items[1..]|;
      assert bytes[width * 0..width * 0 + width] == encode(items[0]);
      forall i | 0 <= i < |items[1..]|
        ensures 0 <= width * i && width * i + width <= |rest| && rest[width * i..width * i + width] == encode(items[1..][i])
      {
        assert width * (i + 1) == width + width * i;
        assert bytes[width * (i + 1)..width * (i + 1) + width] == encode(items[i + 1]);
      }
      PackOfChunks(items[1..], encode, width, rest);
      assert bytes == bytes[..width] + rest;
    }
  }

  // ----- writing -----

  function EncodeU64(n: U64): Bytes {
    Le(8, n)
  }

  function EncodeRecord(r: FileRecord): Bytes {
    Le(8, r.packetOffset) + Le(4, r.packetLen)
  }

  function Header(c: Contents): Bytes {
    MAGIC + EncodeU64(c.count) + EncodeU64(c.bytes) + EncodeU64(c.hash) + EncodeU64(c.kindsHash)
  }

  function Written(c: Contents): Bytes {
    Header(c) + Pack(c.records, EncodeRecord) + Pack(c.offsets, EncodeU64) + c.bloom + c.text
  }

  method WriteSearchIndexParts(c: Contents) returns (file: Bytes)
    ensures file == Written(c)
  {
    file := MAGIC;
    file := file + Le(8, c.count);
    file := file + Le(8, c.bytes);
    file := file + Le(8, c.hash);
    file := file + Le(8, c.kindsHash);
    for i := 0 to |c.records|
      invariant file + Pack(c.records[i..], EncodeRecord) == Header(c) + Pack(c.records, EncodeRecord)
    {
      assert c.records[i..][1..] == c.records[i + 1..];
      file := file + Le(8, c.records[i].packetOffset);
      file := file + Le(4, c.records[i].packetLen);
    }
    ghost var done := Header(c) + Pack(c.records, EncodeRecord);
    for i := 0 to |c.offsets|
      invariant file + Pack(c.offsets[i..], EncodeU64) == done + Pack(c.offsets, EncodeU64)
    {
      assert c.offsets[i..][1..] == c.offsets[i + 1..];
      file := file + Le(8, c.offsets[i]);
    }
    file := file + c.bloom;
    file := file + c.text;
  }

  // ----- reading at a position -----

  function U64At(file: Bytes, at: nat): U64
    requires at + 8 <= |file|
  {
    UnLeRoundTrip(file[at..at + 8]);
    Widths();
    UnLe(file[at..at + 8])
  }

  function U32At(file: Bytes, at: nat): U32
    requires at + 4 <= |file|
  {
    UnLeRoundTrip(file[at..at + 4]);
    Widths();
    UnLe(file[at..at + 4])
  }

  lemma U64AtEncodes(file: Bytes, at: nat, n: U64)
    requires at + 8 <= |file|
    ensures file[at..at + 8] == EncodeU64(n) <==> U64At(file, at) == n
  {
    Widths();
    UnLeRoundTrip(file[at..at + 8]);
    LeRoundTrip(8, n);
  }

  lemma U32AtEncodes(file: Bytes, at: nat, n: U32)
    requires at + 4 <= |file|
    ensures file[at..at + 4] == Le(4, n) <==> U32At(file, at) == n
  {
    Widths();
    UnLeRoundTrip(file[at..at + 4]);
    LeRoundTrip(4, n);
  }

  // ----- the sections of a file -----

  /** A file long enough for its header and the sections its record count announces; `file` is
      addressed by 64-bit positions. */
  predicate Sized(file: Bytes) {
    HEADER_BYTES <= |file| <= U64_MAX && TextStart(U64At(file, 8)) <= |file|
  }

  function RecordsStart(): nat { HEADER_BYTES }

  function OffsetsStart(count: nat): nat { RecordsStart() + RECORD_BYTES * count }

  function BloomStart(count: nat): nat { OffsetsStart(count) + OFFSET_BYTES * (count + 1) }

  function TextStart(count: nat): nat { BloomStart(count) + Bloom.BLOOM_BYTES }

  /** Record `i`, read in place. */
  function RecordAt(file: Bytes, i: nat): FileRecord
    requires Sized(file) && i < U64At(file, 8)
  {
    FileRecord(U64At(file, RecordsStart() + RECORD_BYTES * i), U32At(file, RecordsStart() + RECORD_BYTES * i + 8))
  }

  /** Offset `i`, read in place; there is one more offset than records. */
  function OffsetAt(file: Bytes, i: nat): U64
    requires Sized(file) && i <= U64At(file, 8)
  {
    U64At(file, OffsetsStart(U64At(file, 8)) + OFFSET_BYTES * i)
  }

  /** What a sized file says. */
  function ContentsOf(file: Bytes): Contents
    requires Sized(file)
  {
    var count := U64At(file, 8);
    Contents(
      count, U64At(file, 16), U64At(file, 24), U64At(file, 32),
      seq(count, i requires 0 <= i < count => RecordAt(file, i)),
      seq(count + 1, i requires 0 <= i < count + 1 => OffsetAt(file, i)),
      file[BloomStart(count)..TextStart(count)],
      file[TextStart(count)..])
  }

  lemma ContentsInPlace(file: Bytes)
    requires Sized(file)
    ensures var c := ContentsOf(file);
            && |c.records| == c.count == U64At(file, 8) && |c.offsets| == c.count + 1
            && (forall i :: 0 <= i < c.count ==> c.records[i] == RecordAt(file, i))
            && (forall i :: 0 <= i < c.count + 1 ==> c.offsets[i] == OffsetAt(file, i))
  {
  }

  // ----- validation -----

  function SumLengths(records: seq<FileRecord>, n: nat): nat
    requires n <= |records|
  {
    if n == 0 then 0 else SumLengths(records, n - 1) + 4 + records[n - 1].packetLen
  }

  /** An unchecked 64-bit result. */
  function Wrap(n: nat): U64 {
    n % (U64_MAX + 1)
  }

  lemma WrapOfSum(a: nat, b: nat)
    ensures Wrap(Wrap(a) + b) == Wrap(a + b)
  {
  }

  lemma WrapOfSmall(n: nat)
    ensures Wrap(n) == n <==> n <= U64_MAX
  {
  }

  /** The records tile the events file as far as 64-bit sums can tell. */
  ghost predicate TilesWrapping(records: seq<FileRecord>, bytes: U64) {
    && (forall i :: 0 <= i < |records| ==> records[i].packetOffset == OffsetOf(records, i))
    && bytes == OffsetOf(records, |records|)
  }

  ghost predicate Tiles(records: seq<FileRecord>, bytes: U64) {
    && (forall i :: 0 <= i < |records| ==> records[i].packetOffset == SumLengths(records, i))
    && bytes == SumLengths(records, |records|)
  }

  predicate Monotone(offsets: seq<U64>) {
    forall i :: 0 <= i < |offsets| - 1 ==> offsets[i] <= offsets[i + 1]
  }

  /** Offsets ascend from zero and span exactly the text. */
  predicate Spans(offsets: seq<U64>, textLength: nat) {
    offsets != [] && offsets[0] == 0 && offsets[|offsets| - 1] == textLength && Monotone(offsets)
  }

  /** What the reader demands of the contents of a file. */
  ghost predicate WellFormed(c: Contents) {
    && |c.records| == c.count && |c.offsets| == c.count + 1 && |c.bloom| == Bloom.BLOOM_BYTES
    && Spans(c.offsets, |c.text|)
    && TilesWrapping(c.records, c.bytes)
  }

  ghost predicate Acceptable(file: Bytes, kindsHash: U64) {
    && Sized(file) && file[..8] == MAGIC
    && WellFormed(ContentsOf(file)) && ContentsOf(file).kindsHash == kindsHash
  }

  datatype Error =
    | Truncated | PositionOverflow | InvalidMagic | InvalidOffsets | NonMonotonicOffsets
    | FingerprintMismatch | KindsMismatch | PacketOffsetMismatch | PacketLengthMismatch

  datatype Result<+T> = Ok(value: T) | Err(error: Error)

  /** A range read moves the position behind the range, or fails before the end of the file. */
  function ReadBytes(file: Bytes, position: U64, length: U64): Result<U64> {
    if position + length > U64_MAX then Err(PositionOverflow)
    else if position + length > |file| then Err(Truncated)
    else Ok(position + length)
  }

  function CheckedAdvance(position: U64, count: U64, itemSize: U64): Result<U64> {
    if count * itemSize > U64_MAX || position + count * itemSize > U64_MAX then Err(PositionOverflow)
    else Ok(position + count * itemSize)
  }


  method IsMonotonic(file: Bytes) returns (ok: bool)
    requires Sized(file)
    ensures ok == Monotone(ContentsOf(file).offsets)
  {
    var count := U64At(file, 8);
    var previous := None;
    for index := 0 to count + 1
      invariant index == 0 ==> previous == None
      invariant index > 0 ==> previous == Some(OffsetAt(file, index - 1))
      invariant forall i :: 0 <= i < index - 1 ==> OffsetAt(file, i) <= OffsetAt(file, i + 1)
    {
      var current := OffsetAt(file, index);
      if previous.Some? && previous.value > current {
        assert !(ContentsOf(file).offsets[index - 1] <= ContentsOf(file).offsets[index - 1 + 1]);
        return false;
      }
      previous := Some(current);
    }
    ok := true;
  }

  /** The offset expected behind a record. */
  function NextOffset(expected: U64, record: FileRecord): U64 {
    Wrap(expected + 4 + record.packetLen)
  }

  /** The offset expected at a record, from the lengths of the records before it. */
  function OffsetOf(records: seq<FileRecord>, i: nat): U64
    requires i <= |records|
  {
    Wrap(SumLengths(records, i))
  }

  lemma OffsetOfFirst(records: seq<FileRecord>)
    ensures OffsetOf(records, 0) == 0
  {
  }

  lemma NextExpected(records: seq<FileRecord>, i: nat, expected: U64)
    requires i < |records| && expected == OffsetOf(records, i)
    ensures NextOffset(expected, records[i]) == OffsetOf(records, i + 1)
  {
    WrapOfSum(SumLengths(records, i), 4 + records[i].packetLen);
  }

  method ValidateSearchIndexRecords(file: Bytes, eventsBytes: U64) returns (r: Result<()>)
    requires Sized(file)
    ensures r.Ok? <==> TilesWrapping(ContentsOf(file).records, eventsBytes)
  {
    hide Wrap, ContentsOf, RecordAt, TextStart, U64At, NextOffset, OffsetOf;
    ghost var records := ContentsOf(file).records;
    ContentsInPlace(file);
    OffsetOfFirst(records);
    var count := U64At(file, 8);
    var expectedOffset: U64 := 0;
    for index := 0 to count
      invariant expectedOffset == OffsetOf(records, index)
      invariant forall i :: 0 <= i < index ==> records[i].packetOffset == OffsetOf(records, i)
    {
      var record := RecordAt(file, index);
      if record.packetOffset != expectedOffset {
        return Err(PacketOffsetMismatch);
      }
      NextExpected(records, index, expectedOffset);
      expectedOffset := NextOffset(expectedOffset, record);
    }
    if expectedOffset != eventsBytes {
      return Err(PacketLengthMismatch);
    }
    r := Ok(());
  }

  /** Walks the sections; every size is checked before the product or sum that uses it, so
      `count + 1` cannot overflow once the records have been found to fit. */
  method ReadSections(file: Bytes) returns (r: Result<()>)
    requires |file| <= U64_MAX
    ensures r.Ok? <==> Sized(file) && file[..8] == MAGIC
  {
    var position: U64 := 0;
    var next := ReadBytes(file, position, |MAGIC|);
    if next.Err? { return Err(next.error); }
    if file[position..next.value] != MAGIC { return Err(InvalidMagic); }
    position := next.value;
    next := ReadBytes(file, position, 8);
    if next.Err? { return Err(next.error); }
    var count := U64At(file, position);
    position := next.value;
    next := ReadBytes(file, position, 8);
    if next.Err? { return Err(next.error); }
    next := ReadBytes(file, next.value, 8);
    if next.Err? { return Err(next.error); }
    next := ReadBytes(file, next.value, 8);
    if next.Err? { return Err(next.error); }
    position := next.value;
    next := CheckedAdvance(position, count, RECORD_BYTES);
    if next.Err? { return Err(next.error); }
    position := next.value;
    next := ReadBytes(file, position, 0);
    if next.Err? { return Err(next.error); }
    assert count + 1 <= U64_MAX;
    next := CheckedAdvance(position, count + 1, OFFSET_BYTES);
    if next.Err? { return Err(next.error); }
    position := next.value;
    next := ReadBytes(file, position, 0);
    if next.Err? { return Err(next.error); }
    next := CheckedAdvance(position, Bloom.BLOOM_BYTES, 1);
    if next.Err? { return Err(next.error); }
    position := next.value;
    next := ReadBytes(file, position, 0);
    if next.Err? { return Err(next.error); }
    r := Ok(());
  }

  datatype HeaderFingerprint = HeaderFingerprint(count: U64, bytes: U64, hash: U64)

  function FingerprintOf(c: Contents): HeaderFingerprint {
    HeaderFingerprint(c.count, c.bytes, c.hash)
  }

  /** The validating reader accepts exactly the files that are acceptable, and what it hands out
      reads the file in place. */
  method ReadSearchIndex(file: Bytes, expected: Option<HeaderFingerprint>, kindsHash: U64) returns (r: Result<Contents>)
    requires |file| <= U64_MAX
    ensures r.Ok? <==> Acceptable(file, kindsHash) && (expected.Some? ==> FingerprintOf(ContentsOf(file)) == expected.value)
    ensures r.Ok? ==> r.value == ContentsOf(file)
  {
    var sections := ReadSections(file);
    if sections.Err? { return Err(sections.error); }
    hide Monotone, TilesWrapping, RecordAt, OffsetAt, U64At;
    ContentsInPlace(file);
    var c := ContentsOf(file);
    if OffsetAt(file, 0) != 0 || OffsetAt(file, c.count) != |c.text| {
      return Err(InvalidOffsets);
    }
    var monotonic := IsMonotonic(file);
    if !monotonic { return Err(NonMonotonicOffsets); }
    if expected.Some? && FingerprintOf(c) != expected.value { return Err(FingerprintMismatch); }
    if c.kindsHash != kindsHash { return Err(KindsMismatch); }
    var records := ValidateSearchIndexRecords(file, c.bytes);
    if records.Err? { return Err(records.error); }
    r := Ok(c);
  }

  /** Reads only the Bloom section of a file that belongs to an events file of `eventsLength`. */
  method ReadSearchBloom(file: Bytes, eventsLength: U64, kindsHash: U64) returns (r: Result<Bytes>)
    requires |file| <= U64_MAX
    ensures r.Ok? <==> Sized(file) && file[..8] == MAGIC && ContentsOf(file).bytes == eventsLength && ContentsOf(file).kindsHash == kindsHash
    ensures r.Ok? ==> r.value == ContentsOf(file).bloom && |r.value| == Bloom.BLOOM_BYTES
  {
    var sections := ReadSections(file);
    if sections.Err? { return Err(sections.error); }
    var c := ContentsOf(file);
    if c.bytes != eventsLength { return Err(PacketLengthMismatch); }
    if c.kindsHash != kindsHash { return Err(KindsMismatch); }
    r := Ok(c.bloom);
  }

  // ----- round trips -----

  lemma EncodersHaveWidth()
    ensures HasWidth(EncodeU64, OFFSET_BYTES) && HasWidth(EncodeRecord, RECORD_BYTES)
  {
  }

  /** Where the sections of a written file are. */
  lemma WrittenLayout(c: Contents)
    requires |c.records| == c.count && |c.offsets| == c.count + 1 && |c.bloom| == Bloom.BLOOM_BYTES
    ensures var file := Written(c);
            && |file| == TextStart(c.count) + |c.text|
            && file[..HEADER_BYTES] == Header(c)
            && file[RecordsStart()..OffsetsStart(c.count)] == Pack(c.records, EncodeRecord)
            && file[OffsetsStart(c.count)..BloomStart(c.count)] == Pack(c.offsets, EncodeU64)
            && file[BloomStart(c.count)..TextStart(c.count)] == c.bloom
            && file[TextStart(c.count)..] == c.text
  {
    EncodersHaveWidth();
    PackLength(c.records, EncodeRecord, RECORD_BYTES);
    PackLength(c.offsets, EncodeU64, OFFSET_BYTES);
  }

  lemma HeaderFields(file: Bytes, c: Contents)
    requires |file| >= HEADER_BYTES && file[..HEADER_BYTES] == Header(c)
    ensures file[..8] == MAGIC && U64At(file, 8) == c.count && U64At(file, 16) == c.bytes
    ensures U64At(file, 24) == c.hash && U64At(file, 32) == c.kindsHash
  {
    var head := file[..HEADER_BYTES];
    assert head[8..16] == EncodeU64(c.count) && head[16..24] == EncodeU64(c.bytes);
    assert head[24..32] == EncodeU64(c.hash) && head[32..40] == EncodeU64(c.kindsHash);
    assert file[8..16] == head[8..16] && file[16..24] == head[16..24] && file[24..32] == head[24..32] && file[32..40] == head[32..40];
    U64AtEncodes(file, 8, c.count);
    U64AtEncodes(file, 16, c.bytes);
    U64AtEncodes(file, 24, c.hash);
    U64AtEncodes(file, 32, c.kindsHash);
    assert file[..8] == head[..8] == MAGIC;
  }

  lemma SliceOfSlice(s: Bytes, a: nat, b: nat, x: nat, y: nat)
    requires a <= b <= |s| && x <= y <= b - a
    ensures s[a..b][x..y] == s[a + x..a + y]
  {
    assert forall k :: 0 <= k < y - x ==> s[a..b][x..y][k] == s[a + x..a + y][k];
  }

  lemma WrittenRecords(file: Bytes, c: Contents)
    requires Sized(file) && U64At(file, 8) == c.count == |c.records|
    requires file[RecordsStart()..OffsetsStart(c.count)] == Pack(c.records, EncodeRecord)
    ensures forall i :: 0 <= i < c.count ==> RecordAt(file, i) == c.records[i]
  {
    hide Pack, EncodeRecord, RecordAt;
    EncodersHaveWidth();
    forall i | 0 <= i < c.count
      ensures RecordAt(file, i) == c.records[i]
    {
      PackedAt(c.records, EncodeRecord, RECORD_BYTES, i);
      var at := RecordsStart() + RECORD_BYTES * i;
      SliceOfSlice(file, RecordsStart(), OffsetsStart(c.count), RECORD_BYTES * i, RECORD_BYTES * i + RECORD_BYTES);
      RecordDecodes(file, i, c.records[i]);
    }
  }

  lemma WrittenOffsets(file: Bytes, c: Contents)
    requires Sized(file) && U64At(file, 8) == c.count && |c.offsets| == c.count + 1
    requires file[OffsetsStart(c.count)..BloomStart(c.count)] == Pack(c.offsets, EncodeU64)
    ensures forall i :: 0 <= i < c.count + 1 ==> OffsetAt(file, i) == c.offsets[i]
  {
    hide Pack, EncodeU64, U64At;
    EncodersHaveWidth();
    forall i | 0 <= i < c.count + 1
      ensures OffsetAt(file, i) == c.offsets[i]
    {
      PackedAt(c.offsets, EncodeU64, OFFSET_BYTES, i);
      var at := OffsetsStart(c.count) + OFFSET_BYTES * i;
      SliceOfSlice(file, OffsetsStart(c.count), BloomStart(c.count), OFFSET_BYTES * i, OFFSET_BYTES * i + 8);
      U64AtEncodes(file, at, c.offsets[i]);
    }
  }

  /** Reading a written index gives back the same records, offsets, Bloom bits and text. */
  lemma ReadWritten(c: Contents)
    requires |c.records| == c.count && |c.offsets| == c.count + 1 && |c.bloom| == Bloom.BLOOM_BYTES
    requires TextStart(c.count) + |c.text| <= U64_MAX
    ensures Sized(Written(c)) && Written(c)[..8] == MAGIC && ContentsOf(Written(c)) == c
  {
    hide Written, Header, RecordAt, OffsetAt, U64At, Pack;
    var file := Written(c);
    WrittenLayout(c);
    HeaderFields(file, c);
    WrittenRecords(file, c);
    WrittenOffsets(file, c);
    assert ContentsOf(file).records == c.records;
    assert ContentsOf(file).offsets == c.offsets;
  }

  lemma RecordDecodes(file: Bytes, i: nat, r: FileRecord)
    requires Sized(file) && i < U64At(file, 8)
    ensures var at := RecordsStart() + RECORD_BYTES * i;
            file[at..at + RECORD_BYTES] == EncodeRecord(r) <==> RecordAt(file, i) == r
  {
    var at := RecordsStart() + RECORD_BYTES * i;
    var chunk := file[at..at + RECORD_BYTES];
    assert chunk[..8] == file[at..at + 8] && chunk[8..] == file[at + 8..at + 12];
    assert chunk == chunk[..8] + chunk[8..];
    assert EncodeRecord(r)[..8] == Le(8, r.packetOffset) && EncodeRecord(r)[8..] == Le(4, r.packetLen);
    U64AtEncodes(file, at, r.packetOffset);
    U32AtEncodes(file, at + 8, r.packetLen);
  }

  lemma RecordsSection(file: Bytes)
    requires Sized(file)
    ensures var c := ContentsOf(file); Pack(c.records, EncodeRecord) == file[RecordsStart()..OffsetsStart(c.count)]
  {
    hide Pack, EncodeRecord, RecordAt, U64At, OffsetAt;
    var c := ContentsOf(file);
    var records := file[RecordsStart()..OffsetsStart(c.count)];
    EncodersHaveWidth();
    forall i | 0 <= i < |c.records|
      ensures 0 <= RECORD_BYTES * i && RECORD_BYTES * i + RECORD_BYTES <= |records|
      ensures records[RECORD_BYTES * i..RECORD_BYTES * i + RECORD_BYTES] == EncodeRecord(c.records[i])
    {
      RecordDecodes(file, i, c.records[i]);
      var at := RecordsStart() + RECORD_BYTES * i;
      SliceOfSlice(file, RecordsStart(), OffsetsStart(c.count), RECORD_BYTES * i, RECORD_BYTES * i + RECORD_BYTES);
    }
    PackOfChunks(c.records, EncodeRecord, RECORD_BYTES, records);
  }

  lemma OffsetsSection(file: Bytes)
    requires Sized(file)
    ensures var c := ContentsOf(file); Pack(c.offsets, EncodeU64) == file[OffsetsStart(c.count)..BloomStart(c.count)]
  {
    hide Pack, EncodeU64, RecordAt, U64At;
    var c := ContentsOf(file);
    var offsets := file[OffsetsStart(c.count)..BloomStart(c.count)];
    EncodersHaveWidth();
    forall i | 0 <= i < |c.offsets|
      ensures 0 <= OFFSET_BYTES * i && OFFSET_BYTES * i + OFFSET_BYTES <= |offsets|
      ensures offsets[OFFSET_BYTES * i..OFFSET_BYTES * i + OFFSET_BYTES] == EncodeU64(c.offsets[i])
    {
      var at := OffsetsStart(c.count) + OFFSET_BYTES * i;
      U64AtEncodes(file, at, c.offsets[i]);
      SliceOfSlice(file, OffsetsStart(c.count), BloomStart(c.count), OFFSET_BYTES * i, OFFSET_BYTES * i + OFFSET_BYTES);
    }
    PackOfChunks(c.offsets, EncodeU64, OFFSET_BYTES, offsets);
  }

  lemma HeaderSection(file: Bytes)
    requires Sized(file) && file[..8] == MAGIC
    ensures Header(ContentsOf(file)) == file[..HEADER_BYTES]
  {
    hide EncodeU64, RecordAt, U64At, OffsetAt;
    var c := ContentsOf(file);
    U64AtEncodes(file, 8, c.count);
    U64AtEncodes(file, 16, c.bytes);
    U64AtEncodes(file, 24, c.hash);
    U64AtEncodes(file, 32, c.kindsHash);
    assert file[..HEADER_BYTES] == file[..8] + file[8..16] + file[16..24] + file[24..32] + file[32..40];
  }

  /** The format is canonical: writing what an accepted file says gives the same bytes. */
  lemma WriteRead(file: Bytes)
    requires Sized(file) && file[..8] == MAGIC
    ensures Written(ContentsOf(file)) == file
  {
    hide Pack, Header, RecordAt, OffsetAt, U64At;
    var c := ContentsOf(file);
    HeaderSection(file);
    RecordsSection(file);
    OffsetsSection(file);
    assert file == file[..HEADER_BYTES] + file[RecordsStart()..OffsetsStart(c.count)] + file[OffsetsStart(c.count)..BloomStart(c.count)] + c.bloom + c.text;
  }

  /** A file is accepted if and only if it was written from well-formed contents. */
  lemma AcceptableIffWritten(file: Bytes, kindsHash: U64)
    requires |file| <= U64_MAX
    ensures Acceptable(file, kindsHash) <==>
            exists c: Contents :: WellFormed(c) && c.kindsHash == kindsHash && Written(c) == file
  {
    if Acceptable(file, kindsHash) {
      WriteRead(file);
      assert Written(ContentsOf(file)) == file;
    }
    if c: Contents :| WellFormed(c) && c.kindsHash == kindsHash && Written(c) == file {
      WrittenLayout(c);
      ReadWritten(c);
    }
  }

  // ----- what acceptance guarantees -----

  lemma {:induction false} MonotoneSpan(offsets: seq<U64>, i: nat, j: nat)
    requires Monotone(offsets) && i <= j < |offsets|
    ensures offsets[i] <= offsets[j]
  {
    if i < j {
      MonotoneSpan(offsets, i, j - 1);
    }
  }

  /** The text of record `i` lies inside the text section of an accepted file. */
  lemma RecordTextInBounds(c: Contents, i: nat)
    requires WellFormed(c) && i < c.count
    ensures c.offsets[i] <= c.offsets[i + 1] <= |c.text|
  {
    hide TilesWrapping;
    MonotoneSpan(c.offsets, i + 1, c.count);
  }

  lemma {:induction false} SumLengthsGrows(records: seq<FileRecord>, i: nat, j: nat)
    requires i <= j <= |records|
    ensures SumLengths(records, i) + 4 * (j - i) <= SumLengths(records, j) <= SumLengths(records, i) + (U32_MAX + 4) * (j - i)
  {
    if i < j {
      SumLengthsGrows(records, i, j - 1);
    }
  }

  /** Accepted records tile the events file exactly if and only if the packets they announce
      fit a 64-bit length together. */
  lemma TilesExactlyIff(records: seq<FileRecord>, bytes: U64)
    requires TilesWrapping(records, bytes)
    ensures Tiles(records, bytes) <==> SumLengths(records, |records|) <= U64_MAX
  {
    hide Wrap;
    WrapOfSmall(SumLengths(records, |records|));
    forall i | 0 <= i < |records|
      ensures SumLengths(records, |records|) <= U64_MAX ==> Wrap(SumLengths(records, i)) == SumLengths(records, i)
    {
      SumLengthsGrows(records, i, |records|);
      WrapOfSmall(SumLengths(records, i));
    }
  }

  const MAX_SAFE_RECORDS: nat := 0xFFFF_FFFD

  /** Up to 2^32 - 3 records the sums cannot wrap: every accepted index tiles exactly. */
  lemma FewRecordsTile(records: seq<FileRecord>, bytes: U64)
    requires TilesWrapping(records, bytes) && |records| <= MAX_SAFE_RECORDS
    ensures Tiles(records, bytes)
  {
    SumLengthsGrows(records, 0, |records|);
    assert (U32_MAX + 4) * |records| <= (U32_MAX + 4) * MAX_SAFE_RECORDS <= U64_MAX;
    TilesExactlyIff(records, bytes);
  }

  /** One record more, and there is an accepted file whose records do not tile. */
  lemma ManyRecordsMayNotTile(n: nat, kindsHash: U64) returns (c: Contents)
    requires n > MAX_SAFE_RECORDS && TextStart(n) <= U64_MAX
    ensures c.count == n && Acceptable(Written(c), kindsHash) && ContentsOf(Written(c)) == c
    ensures !Tiles(c.records, c.bytes)
  {
    hide Wrap;
    var longest := U32_MAX + 4;
    var records := seq(n, i requires 0 <= i => FileRecord(Wrap(longest * i), U32_MAX));
    LongestSum(records, n);
    c := Contents(n, Wrap(longest * n), 0, kindsHash, records, seq(n + 1, _ => 0), seq(Bloom.BLOOM_BYTES, _ => 0), []);
    forall i | 0 <= i < n
      ensures records[i].packetOffset == Wrap(SumLengths(records, i))
    {
      LongestSum(records, i);
    }
    assert longest * n >= longest * (MAX_SAFE_RECORDS + 1) > U64_MAX;
    TilesExactlyIff(c.records, c.bytes);
    ReadWritten(c);
  }

  lemma {:induction false} LongestSum(records: seq<FileRecord>, n: nat)
    requires n <= |records| && forall i :: 0 <= i < |records| ==> records[i].packetLen == U32_MAX
    ensures SumLengths(records, n) == (U32_MAX + 4) * n
  {
    if n > 0 {
      LongestSum(records, n - 1);
    }
  }

  // ----- the index of a file, written -----

  /** The numbers of an in-memory index fit the file format. */
  ghost predicate FitsFormat(view: HotFile.IndexView) {
    && view.fingerprint.count <= U64_MAX && view.fingerprint.bytes <= U64_MAX
    && (forall i :: 0 <= i < |view.records| ==> view.records[i].packetOffset <= U64_MAX && view.records[i].packetLen <= U32_MAX)
    && (forall i :: 0 <= i < |view.offsets| ==> view.offsets[i] <= U64_MAX)
  }

  /** The contents `write_built_search_index` writes for an in-memory index. */
  ghost function BuiltContents(view: HotFile.IndexView, kindsHash: U64, bloom: Bytes): Contents
    requires FitsFormat(view)
  {
    Contents(
      view.fingerprint.count, view.fingerprint.bytes, view.fingerprint.hash, kindsHash,
      seq(|view.records|, i requires 0 <= i < |view.records| => FileRecord(view.records[i].packetOffset, view.records[i].packetLen)),
      seq(|view.offsets|, i requires 0 <= i < |view.offsets| => view.offsets[i]),
      bloom, view.text)
  }

  lemma BuiltIndexFits(packets: seq<Bytes>, normalize: Bytes -> Bytes)
    requires forall k :: 0 <= k < |packets| ==> HotFile.Fits(packets[k])
    requires |HotFile.FileOf(packets)| <= U64_MAX && TextStart(|packets|) + |HotFile.IndexOf(packets, normalize).text| <= U64_MAX
    ensures FitsFormat(HotFile.IndexOf(packets, normalize))
  {
    hide HotFile.IndexOf, HotFile.FileOf, HotFile.StartOf;
    HotFile.IndexDescribes(packets, normalize);
    HotFile.FileLength(packets);
    var view := HotFile.IndexOf(packets, normalize);
    forall i | 0 <= i < |view.records|
      ensures view.records[i].packetOffset <= U64_MAX && view.records[i].packetLen <= U32_MAX
    {
      HotFile.StartOfGrows(packets, i, |packets|);
      assert HotFile.Fits(packets[i]);
    }
    var index := view.TextIndex();
    forall i | 0 <= i < |view.offsets|
      ensures view.offsets[i] <= |view.text|
    {
      assert index.offsets[i] <= index.offsets[|index.offsets| - 1];
    }
  }

  lemma BuiltIndexTiles(packets: seq<Bytes>, records: seq<FileRecord>, bytes: U64)
    requires |records| == |packets| && bytes == HotFile.StartOf(packets, |packets|)
    requires forall i :: 0 <= i < |packets| ==> records[i].packetOffset == HotFile.StartOf(packets, i) && records[i].packetLen == |packets[i]|
    ensures Tiles(records, bytes) && TilesWrapping(records, bytes)
  {
    hide Wrap;
    forall i | 0 <= i <= |packets|
      ensures SumLengths(records, i) == HotFile.StartOf(packets, i) == OffsetOf(records, i)
    {
      BuiltSums(packets, records, i);
      HotFile.StartOfGrows(packets, i, |packets|);
      WrapOfSmall(SumLengths(records, i));
    }
  }

  lemma BuiltIndexIsWellFormed(packets: seq<Bytes>, normalize: Bytes -> Bytes, kindsHash: U64, bloom: Bytes)
    requires forall k :: 0 <= k < |packets| ==> HotFile.Fits(packets[k])
    requires |HotFile.FileOf(packets)| <= U64_MAX && |bloom| == Bloom.BLOOM_BYTES
    requires TextStart(|packets|) + |HotFile.IndexOf(packets, normalize).text| <= U64_MAX
    ensures FitsFormat(HotFile.IndexOf(packets, normalize))
    ensures var c := BuiltContents(HotFile.IndexOf(packets, normalize), kindsHash, bloom);
            WellFormed(c) && c.count == |packets| && c.bytes == |HotFile.FileOf(packets)| && Tiles(c.records, c.bytes)
  {
    hide HotFile.IndexOf, HotFile.FileOf, TilesWrapping, Tiles, HotFile.StartOf;
    BuiltIndexFits(packets, normalize);
    HotFile.IndexDescribes(packets, normalize);
    HotFile.FileLength(packets);
    var c := BuiltContents(HotFile.IndexOf(packets, normalize), kindsHash, bloom);
    BuiltIndexTiles(packets, c.records, c.bytes);
  }

  /** The index built over a file is accepted when it is read back, and its records tile the
      file exactly. */
  lemma BuiltIndexIsAccepted(packets: seq<Bytes>, normalize: Bytes -> Bytes, kindsHash: U64, bloom: Bytes)
    requires forall k :: 0 <= k < |packets| ==> HotFile.Fits(packets[k])
    requires |HotFile.FileOf(packets)| <= U64_MAX && |bloom| == Bloom.BLOOM_BYTES
    requires TextStart(|packets|) + |HotFile.IndexOf(packets, normalize).text| <= U64_MAX
    ensures FitsFormat(HotFile.IndexOf(packets, normalize))
    ensures var c := BuiltContents(HotFile.IndexOf(packets, normalize), kindsHash, bloom);
            && Acceptable(Written(c), kindsHash) && ContentsOf(Written(c)) == c
            && c.bytes == |HotFile.FileOf(packets)| && Tiles(c.records, c.bytes)
  {
    hide ContentsOf, Written, HotFile.IndexOf, HotFile.FileOf, Spans, TilesWrapping, Tiles, FitsFormat;
    BuiltIndexIsWellFormed(packets, normalize, kindsHash, bloom);
    ReadWritten(BuiltContents(HotFile.IndexOf(packets, normalize), kindsHash, bloom));
  }

  lemma {:induction false} BuiltSums(packets: seq<Bytes>, records: seq<FileRecord>, n: nat)
    requires n <= |packets| == |records| && forall i :: 0 <= i < |packets| ==> records[i].packetLen == |packets[i]|
    ensures SumLengths(records, n) == HotFile.StartOf(packets, n)
  {
    if n > 0 {
      BuiltSums(packets, records, n - 1);
    }
  }
}
