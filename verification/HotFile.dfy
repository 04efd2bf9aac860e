/** The framed event file and the in-memory search index that mirrors it. */
module HotFile {
  import opened Events
  import opened Encoding
  import opened SearchLookup

  // ----- framing -----

  const LEN_BYTES: nat := 4

  predicate Fits(data: Bytes) {
    |data| <= U32_MAX
  }

  function Frame(data: Bytes): Bytes {
    Le(LEN_BYTES, |data|) + data
  }

  function FileOf(packets: seq<Bytes>): Bytes {
    if packets == [] then [] else FileOf(packets[..|packets| - 1]) + Frame(packets[|packets| - 1])
  }

  /** One packet read at a position: `EndOfFile` when not even a length is left there. */
  datatype Read = EndOfFile | Truncated | Whole(data: Bytes)

  function ReadPacket(file: Bytes, at: nat): Read {
    if at + LEN_BYTES > |file| then EndOfFile
    else
      var length := UnLe(file[at..at + LEN_BYTES]);
      if at + LEN_BYTES + length > |file| then Truncated
      else Whole(file[at + LEN_BYTES..at + LEN_BYTES + length])
  }

  /** Where packet `i` of a file starts. */
  function StartOf(packets: seq<Bytes>, i: nat): nat
    requires i <= |packets|
  {
    if i == 0 then 0 else StartOf(packets, i - 1) + LEN_BYTES + |packets[i - 1]|
  }

  lemma {:induction false} FileLength(packets: seq<Bytes>)
    ensures |FileOf(packets)| == StartOf(packets, |packets|)
  {
    if packets != [] {
      var n := |packets| - 1;
      FileLength(packets[..n]);
      StartOfPrefix(packets[..n], packets, n);
      assert StartOf(packets, n + 1) == StartOf(packets, n) + LEN_BYTES + |packets[n]|;
      hide StartOf;
      assert |FileOf(packets)| == |FileOf(packets[..n])| + |Frame(packets[n])|;
    }
  }

  lemma {:induction false} StartOfGrows(packets: seq<Bytes>, i: nat, j: nat)
    requires i <= j <= |packets|
    ensures StartOf(packets, i) <= StartOf(packets, j)
  {
    if i < j {
      StartOfGrows(packets, i, j - 1);
    }
  }

  lemma {:induction false} StartOfPrefix(part: seq<Bytes>, whole: seq<Bytes>, i: nat)
    requires part <= whole && i <= |part|
    ensures StartOf(part, i) == StartOf(whole, i)
  {
    if i > 0 {
      StartOfPrefix(part, whole, i - 1);
    }
  }

  lemma ReadPrefix(file: Bytes, more: Bytes, at: nat)
    requires ReadPacket(file, at).Whole?
    ensures ReadPacket(file + more, at) == ReadPacket(file, at)
  {
    var length := UnLe(file[at..at + LEN_BYTES]);
    assert (file + more)[at..at + LEN_BYTES] == file[at..at + LEN_BYTES];
    assert (file + more)[at + LEN_BYTES..at + LEN_BYTES + length] == file[at + LEN_BYTES..at + LEN_BYTES + length];
  }

  lemma ReadFrame(file: Bytes, data: Bytes)
    requires Fits(data)
    ensures ReadPacket(file + Frame(data), |file|) == Whole(data)
  {
    var whole, at := file + Frame(data), |file|;
    Widths();
    LeRoundTrip(LEN_BYTES, |data|);
    assert whole[at..at + LEN_BYTES] == Le(LEN_BYTES, |data|);
    assert whole[at + LEN_BYTES..at + LEN_BYTES + |data|] == data;
  }

  /** Reading at the start of packet `i` returns packet `i`, and nothing follows the last. */
  lemma {:induction false} ReadsPacket(packets: seq<Bytes>, i: nat)
    requires i <= |packets| && forall k :: 0 <= k < |packets| ==> Fits(packets[k])
    ensures ReadPacket(FileOf(packets), StartOf(packets, i)) == if i < |packets| then Whole(packets[i]) else EndOfFile
    decreases |packets|
  {
    FileLength(packets);
    if i < |packets| {
      var n := |packets| - 1;
      var init := packets[..n];
      FileLength(init);
      StartOfPrefix(init, packets, i);
      if i < n {
        ReadsPacket(init, i);
        ReadPrefix(FileOf(init), Frame(packets[n]), StartOf(init, i));
      } else {
        ReadFrame(FileOf(init), packets[n]);
      }
    }
  }

  /** Reads a file packet by packet from its start. */
  method ReadEventPackets(file: Bytes, ghost packets: seq<Bytes>) returns (read: seq<Bytes>)
    requires file == FileOf(packets) && forall k :: 0 <= k < |packets| ==> Fits(packets[k])
    ensures read == packets
  {
    read := [];
    var at := 0;
    while true
      invariant |read| <= |packets| && read == packets[..|read|] && at == StartOf(packets, |read|)
      decreases |packets| - |read|
    {
      ReadsPacket(packets, |read|);
      match ReadPacket(file, at)
      case Whole(data) =>
        read := read + [data];
        at := at + LEN_BYTES + |data|;
      case EndOfFile => return;
      case Truncated => assert false;
    }
  }

  // ----- the index as a value -----

  // `normalize` gives the UTF-8 bytes of the searchable text of a payload.

  const FNV_OFFSET_BASIS: U64 := 0xcbf2_9ce4_8422_2325
  const FNV_PRIME: U64 := 0x0000_0100_0000_01b3

  function UpdateHash(hash: U64, bytes: Bytes): U64 {
    if bytes == [] then hash
    else
      var last := bytes[|bytes| - 1];
      WrappingMul(Xor(UpdateHash(hash, bytes[..|bytes| - 1]), last), FNV_PRIME)
  }

  /** The exclusive or of the lowest `n` bits. */
  function XorBelow(n: nat, p: nat, b: nat): (r: nat)
    ensures r < Pow2(n)
  {
    if n == 0 then 0 else (p + b) % 2 + 2 * XorBelow(n - 1, p / 2, b / 2)
  }

  function XorByte(p: Byte, b: Byte): Byte {
    assert Pow2(4) == 16;
    XorBelow(8, p, b)
  }

  /** Exclusive or with one byte touches the lowest byte only. */
  function Xor(a: U64, b: Byte): U64 {
    a - a % 256 + XorByte(a % 256, b)
  }

  function WrappingMul(a: U64, b: U64): U64 {
    (a * b) % (U64_MAX + 1)
  }

  datatype Fingerprint = Fingerprint(count: nat, bytes: nat, hash: U64)

  datatype Record = Record(packetOffset: nat, packetLen: nat)

  datatype IndexView = IndexView(fingerprint: Fingerprint, records: seq<Record>, offsets: seq<nat>, text: Bytes)
  {
    function TextIndex(): TextIndex<Byte> {
      SearchLookup.TextIndex(offsets, text)
    }
  }

  const EmptyView := IndexView(Fingerprint(0, 0, FNV_OFFSET_BASIS), [], [0], [])

  function HashPacket(hash: U64, data: Bytes): U64 {
    UpdateHash(UpdateHash(hash, Le(LEN_BYTES, |data|)), data)
  }

  function Append(view: IndexView, data: Bytes, text: Bytes): IndexView {
    IndexView(
      Fingerprint(view.fingerprint.count + 1, view.fingerprint.bytes + LEN_BYTES + |data|, HashPacket(view.fingerprint.hash, data)),
      view.records + [Record(view.fingerprint.bytes, |data|)],
      view.offsets + [|view.text + text|],
      view.text + text)
  }

  /** The index of a file: its packets appended one by one. */
  function IndexOf(packets: seq<Bytes>, normalize: Bytes -> Bytes): IndexView {
    if packets == [] then EmptyView
    else
      var last := packets[|packets| - 1];
      Append(IndexOf(packets[..|packets| - 1], normalize), last, normalize(last))
  }

  lemma IndexOfNothing(normalize: Bytes -> Bytes)
    ensures IndexOf([], normalize) == EmptyView
  {
  }

  lemma IndexOfNext(packets: seq<Bytes>, normalize: Bytes -> Bytes, i: nat)
    requires i < |packets|
    ensures IndexOf(packets[..i + 1], normalize) == Append(IndexOf(packets[..i], normalize), packets[i], normalize(packets[i]))
  {
    assert packets[..i + 1][..i] == packets[..i];
  }

  /** Record `i` locates packet `i`, and the byte count is the file's. */
  ghost predicate LocatesPackets(view: IndexView, packets: seq<Bytes>) {
    && |view.records| == view.fingerprint.count == |packets|
    && view.fingerprint.bytes == StartOf(packets, |packets|)
    && forall i :: 0 <= i < |packets| ==> view.records[i] == Record(StartOf(packets, i), |packets[i]|)
  }

  /** Record `i` owns exactly the text of packet `i`. */
  ghost predicate HoldsTexts(index: TextIndex<Byte>, packets: seq<Bytes>, normalize: Bytes -> Bytes) {
    && index.Valid() && index.Records() == |packets|
    && forall i :: 0 <= i < |packets| ==> index.RecordText(i) == normalize(packets[i])
  }

  lemma AppendLocates(view: IndexView, packets: seq<Bytes>, data: Bytes, text: Bytes)
    requires LocatesPackets(view, packets)
    ensures LocatesPackets(Append(view, data, text), packets + [data])
  {
    hide HashPacket, StartOf;
    var whole := packets + [data];
    forall i | 0 <= i <= |packets|
      ensures StartOf(packets, i) == StartOf(whole, i)
    {
      StartOfPrefix(packets, whole, i);
    }
    StartOfLast(packets, data);
  }

  lemma StartOfLast(packets: seq<Bytes>, data: Bytes)
    ensures StartOf(packets + [data], |packets| + 1) == StartOf(packets + [data], |packets|) + LEN_BYTES + |data|
  {
  }

  lemma AppendHolds(index: TextIndex<Byte>, packets: seq<Bytes>, data: Bytes, normalize: Bytes -> Bytes)
    requires HoldsTexts(index, packets, normalize)
    ensures HoldsTexts(TextIndex(index.offsets + [|index.text + normalize(data)|], index.text + normalize(data)), packets + [data], normalize)
  {
    var text, n := normalize(data), |packets|;
    var after := TextIndex(index.offsets + [|index.text + text|], index.text + text);
    forall i | 0 <= i < n
      ensures after.text[after.offsets[i]..after.offsets[i + 1]] == normalize(packets[i])
    {
      assert index.offsets[i] <= index.offsets[i + 1] <= |index.text|;
      assert after.text[index.offsets[i]..index.offsets[i + 1]] == index.RecordText(i);
    }
    assert after.text[|index.text|..|index.text + text|] == text;
  }

  /** The index of a file describes exactly its packets, in order. */
  lemma {:induction false} IndexDescribes(packets: seq<Bytes>, normalize: Bytes -> Bytes)
    ensures LocatesPackets(IndexOf(packets, normalize), packets)
    ensures HoldsTexts(IndexOf(packets, normalize).TextIndex(), packets, normalize)
  {
    if packets != [] {
      hide HashPacket, LocatesPackets, HoldsTexts;
      var init, last := packets[..|packets| - 1], packets[|packets| - 1];
      IndexDescribes(init, normalize);
      AppendLocates(IndexOf(init, normalize), init, last, normalize(last));
      AppendHolds(IndexOf(init, normalize).TextIndex(), init, last, normalize);
      assert packets == init + [last];
    }
  }

  /** Reads the packet a record locates, checking the length stored in the file. */
  function ReadEventPacketAt(file: Bytes, record: Record): Option<Bytes> {
    match ReadPacket(file, record.packetOffset)
    case Whole(data) => if |data| == record.packetLen then Some(data) else None
    case _ => None
  }

  /** Random access through the index agrees with the sequential scan. */
  lemma SeekReadsPacket(packets: seq<Bytes>, normalize: Bytes -> Bytes, i: nat)
    requires i < |packets| && forall k :: 0 <= k < |packets| ==> Fits(packets[k])
    ensures |IndexOf(packets, normalize).records| == |packets|
    ensures ReadEventPacketAt(FileOf(packets), IndexOf(packets, normalize).records[i]) == Some(packets[i])
  {
    IndexDescribes(packets, normalize);
    ReadsPacket(packets, i);
  }

  // ----- the index as an object -----

  class SearchIndex {
    var fingerprint: Fingerprint
    var records: seq<Record>
    var offsets: seq<nat>
    var text: Bytes

    ghost function View(): IndexView
      reads this
    {
      IndexView(fingerprint, records, offsets, text)
    }

    constructor Empty()
      ensures View() == EmptyView
    {
      fingerprint, records, offsets, text := Fingerprint(0, 0, FNV_OFFSET_BASIS), [], [0], [];
    }

    method AppendToSearchIndex(data: Bytes, normalize: Bytes -> Bytes)
      modifies this
      ensures View() == Append(old(View()), data, normalize(data))
    {
      hide UpdateHash;
      records := records + [Record(fingerprint.bytes, |data|)];
      text := text + normalize(data);
      offsets := offsets + [|text|];
      var hash := UpdateHash(fingerprint.hash, Le(LEN_BYTES, |data|));
      fingerprint := Fingerprint(fingerprint.count + 1, fingerprint.bytes + LEN_BYTES + |data|, UpdateHash(hash, data));
    }

    /** One-shot build: the same index as appending the packets one by one. */
    constructor Build(packets: seq<Bytes>, normalize: Bytes -> Bytes)
      ensures View() == IndexOf(packets, normalize)
    {
      hide UpdateHash, HashPacket, IndexOf;
      records, offsets, text := [], [0], [];
      new;
      IndexOfNothing(normalize);
      var packetOffset := 0;
      for i := 0 to |packets|
        invariant records == IndexOf(packets[..i], normalize).records
        invariant offsets == IndexOf(packets[..i], normalize).offsets
        invariant text == IndexOf(packets[..i], normalize).text
        invariant packetOffset == IndexOf(packets[..i], normalize).fingerprint.bytes
      {
        IndexOfNext(packets, normalize, i);
        records := records + [Record(packetOffset, |packets[i]|)];
        packetOffset := packetOffset + LEN_BYTES + |packets[i]|;
        text := text + normalize(packets[i]);
        offsets := offsets + [|text|];
      }
      assert packets[..|packets|] == packets && packets[..0] == [];
      fingerprint := EventsFingerprint(packets, normalize);
    }
  }

  method EventsFingerprint(packets: seq<Bytes>, ghost normalize: Bytes -> Bytes) returns (fingerprint: Fingerprint)
    ensures fingerprint == IndexOf(packets, normalize).fingerprint
  {
    hide UpdateHash;
    var bytes: nat, hash := 0, FNV_OFFSET_BASIS;
    for i := 0 to |packets|
      invariant Fingerprint(i as nat, bytes, hash) == IndexOf(packets[..i], normalize).fingerprint
    {
      IndexOfNext(packets, normalize, i);
      bytes := bytes + LEN_BYTES + |packets[i]|;
      hash := UpdateHash(hash, Le(LEN_BYTES, |packets[i]|));
      hash := UpdateHash(hash, packets[i]);
    }
    assert packets[..|packets|] == packets;
    fingerprint := Fingerprint(|packets|, bytes, hash);
  }

  // ----- the hot file with its index -----

  /** The append-only hot file; `packets` is what it holds. */
  class HotState {
    const normalize: Bytes -> Bytes
    var file: Bytes
    var hotSearchIndex: SearchIndex
    ghost var packets: seq<Bytes>

    ghost predicate Valid()
      reads this, hotSearchIndex
    {
      && (forall k :: 0 <= k < |packets| ==> Fits(packets[k]))
      && file == FileOf(packets)
      && hotSearchIndex.View() == IndexOf(packets, normalize)
    }

    /** Opening rebuilds the index from the file. */
    constructor Open(file: Bytes, normalize: Bytes -> Bytes, ghost packets: seq<Bytes>)
      requires file == FileOf(packets) && forall k :: 0 <= k < |packets| ==> Fits(packets[k])
      ensures Valid() && this.packets == packets && this.normalize == normalize && fresh(hotSearchIndex)
    {
      var read := ReadEventPackets(file, packets);
      var index := new SearchIndex.Build(read, normalize);
      this.normalize, this.file, this.packets := normalize, file, packets;
      hotSearchIndex := index;
    }

    /** A packet too long to frame is refused before anything is written. */
    method AppendPacket(data: Bytes) returns (ok: bool)
      requires Valid()
      modifies this`file, this`packets, hotSearchIndex
      ensures Valid() && ok == Fits(data)
      ensures packets == if ok then old(packets) + [data] else old(packets)
    {
      hide UpdateHash, HashPacket;
      if |data| > U32_MAX {
        return false;
      }
      file := file + (Le(LEN_BYTES, |data|) + data);
      hotSearchIndex.AppendToSearchIndex(data, normalize);
      packets := packets + [data];
      assert packets[..|packets| - 1] == old(packets);
      ok := true;
    }

    /** Hands the file over for compaction and starts an empty one with an empty index. */
    method RotateForCompaction() returns (rotated: Bytes)
      requires Valid()
      modifies this
      ensures Valid() && rotated == FileOf(old(packets)) && packets == [] && fresh(hotSearchIndex)
    {
      hide UpdateHash;
      rotated := file;
      file, packets := [], [];
      hotSearchIndex := new SearchIndex.Empty();
    }

    /** The snapshot a query starts from: the hot packets, then those still being compacted,
        with an index that describes exactly this sequence. */
    method HotSnapshot(compacting: seq<Bytes>) returns (snapshot: seq<Bytes>, index: SearchIndex)
      requires Valid()
      ensures snapshot == packets + compacting
      ensures index.View() == IndexOf(snapshot, normalize)
    {
      var hotPackets := ReadEventPackets(file, packets);
      if compacting == [] {
        assert packets + compacting == packets;
        return hotPackets, hotSearchIndex;
      }
      snapshot := hotPackets + compacting;
      index := new SearchIndex.Build(snapshot, normalize);
    }
  }
}
