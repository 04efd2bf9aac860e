# Verification of the searchnos storage engine

searchnos stores Nostr events in an append-only hot file and in one sorted partition file per day, and answers
queries and subscriptions from both. This project models that storage engine in Dafny and proves what its parts
promise together:

- **Answers.** Both query engines refine one declarative answer that knows nothing of days, partitions or
  cursors: for each filter the distinct matching, visible events in the order of NIP-01 (newest first, then smallest
  id), cut at `limit`, and for a query the sorted union of its filters' cuts.
- **Compaction.** Appends, rotation, the per-day merges of parallel workers, the removal of the compacted file,
  failures, crashes and recovery interleave with the reads of a query. Over every run no event is lost, none is
  missed by a query that began after it was appended, and no hidden event becomes visible meanwhile.
- **Derived indexes.** The search index (offset table, binary search, file format with its validating reader, Bloom
  filter) and the visibility summaries (in memory and as an ordered key-value store) mean what the events say.
- **Coordination.** The compaction flags, the priority lock, the snapshot dispatcher and the handover from a
  snapshot to live events keep their invariants in every interleaving.

Loops and objects of the source are methods and classes proved against specification functions; protocols between
threads are step functions with an invariant that every run keeps. Where a promise does not hold on all inputs the
exact condition is proved, and beside it an input that shows the failure:

| promise | holds if and only if | fails at |
|---|---|---|
| the index lookup of a term is exact | `SearchLookup.LookupIsExactIff` | `SearchLookup.BorderedTermIsMissed` |
| the Bloom filter misses no contained term | `BloomHash.NoFalseNegativesIff` | `BloomHash.OneCharacterIsMissed` |
| an accepted index tiles its event file | `IndexFile.TilesExactlyIff` | `IndexFile.ManyRecordsMayNotTile` |
| both engines send the same for a query | `StreamingQuery.EnginesAgreeIff` | `EnginesDiffer.EnginesCanDiffer` |
| an index shows what nothing in it hides | `Visibility.IndexVisibleOutside` | `Visibility.NewestVersionCanBeInvisible` |
| a process opens after a crash without another one | `StorageProgress.RecoveryOpensIff` | a recovery in which a day has failed (its "only if") |
| a deletion of an address hides what it names | `AddressKeys.AddressDeletionHidesIff` | an address of more than 255 bytes (its "only if") |
| a compaction asked for takes place | `CompactionFollows.CompactionFollowsIff` | `CompactionFollows.LostBehindTheLastLook`, `CompactionFollows.LostBehindAnEmptyFile`, `CompactionFollows.LostToALateSwap` |
| the request for a compaction is looked at | `CompactionRequests.RequestIsSeenIff` | `CompactionFollows.LostBehindTheLastLook`, `CompactionFollows.LostBehindAnEmptyFile` |

## Files

| file | part |
|---|---|
| Events.dfy, FilterMatching.dfy, Answer.dfy, Days.dfy | events, filters, order, day pruning; laws of matching; the declarative answer; packets by day |
| SearchMatcher.dfy, BatchedSpec.dfy, BatchedQuery.dfy | the batched query engine |
| Cursor.dfy, StreamingQuery.dfy, EnginesDiffer.dfy | the streaming query engine, where the two engines agree, and a run after which they do not |
| SearchLookup.dfy, Utf8.dfy, Bloom.dfy, BloomHash.dfy, SearchAnswers.dfy | term lookup, characters and bytes, Bloom filter and its hashes, and all of them seen by the engines |
| Encoding.dfy, HotFile.dfy, IndexFile.dfy, Formats.dfy, Fingerprints.dfy | byte encodings, framed event file with its index, index file format, the formats as bytes, what a fingerprint tells |
| Visibility.dfy, VisibilityStore.dfy, AddressKeys.dfy, TagParsing.dfy | visibility summaries, in-memory index, key-value store, which packets share a key and who hides whom, how deletion tags are read |
| Compaction.dfy, CompactHotFile.dfy, CompactionProtocol.dfy, StorageRuns.dfy, StorageProgress.dfy | merging a day, compacting a file, the protocol, what its runs keep, and that they get on |
| Ownership.dfy, CompactionRequests.dfy, CompactionFollows.dfy, SidecarQueue.dfy | compaction flags, requests left for the owner and whether they are served, priority lock |
| Dispatcher.dfy, Handover.dfy, SnapshotBatch.dfy, ServedRuns.dfy | snapshot dispatcher, subscriptions, a worker's batch from the query to the end markers, joint runs of storage and subscriptions |
| Guards.dfy | when each step of these protocols is possible |

## Assumptions

- An id names one packet (`IdsDetermine`): ids are verified before an event is appended (src/db/mod.rs:229).
- A packet carries what the source decodes from its payload on demand; ids and keys are numbers whose order is the
  byte order of the arrays.
- SHA-256, text normalisation and the overlapping multi-pattern search are parameters or specification functions. A
  theorem that needs two address texts not to collide says so (`NoCollision`). `Bloom` holds for every hash;
  `BloomHash` is about the hash of the source.
- What a query reads is a `Source`: the hot snapshot, the partition version read of each day, and the visibility
  tests as they answered when they were asked. The batched engine asks the store about no packet twice (proved), and
  in the streaming engine each filter has a source of its own (`Ask`), so the store may change while a query runs;
  `StorageRuns` connects sources to the runs of the storage.
- A closed channel takes nothing any more (`SnapshotBatch.ClosedIsFinal`), as the channels of the source promise.

## Model

| member | source | states |
|---|---|---|
| Events.CompareIsOrder | src/storage/query.rs:61-65 | The sort comparison is the strict newest-first order of NIP-01, and says equal only for equal time and id |
| Events.TimestampsOfDay | src/storage/query.rs:46-55 | The saturating day bounds describe exactly the timestamps of the day, the last 64-bit day included |
| Events.DayOfPacket | src/storage/event.rs:34-36 | A packet's day is the number of whole 86400-second days before it |
| Events.PruningIsSound | src/storage/query.rs:46-55 | A matching packet is never on a day that pruning skips |
| Events.PruningIsExact | src/storage/query.rs:46-55 | For all filters a day is kept if and only if some timestamp of it passes `since` and some timestamp passes `until`; unless the bounds are in reverse order, one timestamp then passes both |
| FilterMatching.TagsMatch | src/storage/event.rs:99-137 | The loop over conditions and tags decides exactly whether every condition with values is answered by some tag |
| FilterMatching.OwnFilterMatches | src/storage/event.rs:38-51 | A packet matches the filter of its own id, author, kind, time and one-letter tags, and every filter got from it by dropping conditions or allowing more |
| FilterMatching.FieldDecides | src/storage/event.rs:61-97 | Another id, author, kind or time in place of a matching packet's matches exactly if the filter lists it or does not restrict it; the text is never asked |
| FilterMatching.TagsMatchIff | src/storage/event.rs:99-137 | Tags match exactly if for each condition with values some tag is spelled with that ASCII letter and one of the values |
| FilterMatching.OnlyTagDecides | src/storage/event.rs:99-137 | Another tag in place of the only answering one keeps the match exactly if it answers too |
| FilterMatching.ContainsIff | src/storage/event.rs:139-158 | A term occurs exactly if the text is something, the term, and something |
| FilterMatching.UnlimitedQueryLists | src/storage/batched_query.rs:561-628 | Without limit and search terms batched sends every stored packet that meets the conditions, and streaming those of them that are hot or shown by the store |
| FilterMatching.AuthorsQueryLists | src/storage/event.rs:68-75 | A query for authors lists exactly the stored packets of these authors, and the live path sends exactly theirs |
| FilterMatching.LiveMatchIff | src/db/subscription.rs:84-96 | A live event goes to a subscription without filters, or with a filter all of whose conditions and terms it meets |
| FilterMatching.WantsAllIff | src/storage/event.rs:38-51 | A query wants, through a filter without limit and search terms, exactly the packets that meet all conditions of such a filter |
| Answer.CutIsFirstLimit | src/storage/cursor.rs:224-243 | The declarative cut of a filter's matches is the first `limit` of their newest-first listing |
| Answer.CutSize | src/storage/cursor.rs:224-243 | A cut holds `limit` packets, or all matches when there are fewer |
| Answer.ListingIsUnique | src/storage/query.rs:57-65 | An answer set has one listing, so equal sets mean equal output sequences |
| Answer.ListingExists | src/storage/query.rs:57-65 | Every set of packets with distinct ids has a listing |
| Answer.CutOfRest | src/storage/streaming_query.rs:257-270 | Cutting by what is left of a limit after the settled packets equals cutting by the limit and removing them |
| Answer.TakeFromCut | src/storage/batched_query.rs:561-628 | The next match ahead of which all matches are settled is in the cut exactly while limit is left, and spends one |
| Days.GroupByDay | src/storage/batched_query.rs:171-177 | Every packet is under its own day, in the order given, and no day is invented |
| Days.LatestDayNext | src/storage/batched_query.rs:187-215 | Taking days latest first settles packets in answer order: nothing later can come ahead of a settled day |
| BatchedSpec.BloomOnlyPrunes | src/storage/batched_query.rs:537-559 | With a truthful Bloom test the batched answer mentions neither days nor Bloom tests |
| BatchedSpec.EmitKeepsProgress | src/storage/batched_query.rs:561-628 | One emission keeps, for every query and filter, the tie between limits, emitted ids, log and settled packets |
| BatchedSpec.SkipKeepsProgress | src/storage/batched_query.rs:187-286 | Settling a packet that no live filter wants changes nothing any query is owed |
| SearchMatching.SearchMatcher.constructor | src/storage/batched_query.rs:77-113 | A new matcher is valid for the groups it was given |
| SearchMatching.SearchMatcher.MarkOccurring | src/storage/batched_query.rs:115-147 | After the scan a term's stamp is the current generation exactly if the term occurs in the text |
| SearchMatching.SearchMatcher.MatchingGroups | src/storage/batched_query.rs:115-147 | Over any number of calls, 32-bit wrap included, a group is reported exactly if enabled, requested and all its terms occur |
| SearchMatching.ReportIsUnique | src/storage/batched_query.rs:115-147 | The report is determined by the arguments: the matcher's history cannot show |
| BatchedQuery.BuildFilterStates | src/storage/batched_query.rs:373-408 | One state for each filter of each query with its whole limit; its group has exactly its term set, and groups are distinct |
| BatchedQuery.RequestedSearchesForDay | src/storage/batched_query.rs:421-443 | A group, or plain matching, is requested exactly if some filter that can still be answered on the day asks for it |
| BatchedQuery.HotCandidates | src/storage/batched_query.rs:445-470 | The candidates are hot packets with their matching groups; a packet left out is wanted by no requested group |
| BatchedQuery.PartitionCandidateSource.NextCandidate | src/storage/batched_query.rs:489-534 | Returns the next packet asked for, with its exact groups; everything passed over is asked for by nobody |
| BatchedQuery.ReadBatchedSearchIndex | src/storage/batched_query.rs:537-559 | A group is enabled exactly if requested and let through by the Bloom filter; the index is used if any group is |
| BatchedQuery.BatchRun.RefreshActiveQueries | src/storage/batched_query.rs:410-419 | Exactly the queries found inactive are switched off, and the round of asking is remembered with the deliveries made before it |
| BatchedQuery.BatchRun.Test | src/storage/batched_query.rs:572-606 | A filter takes a candidate exactly if it has limit left, is active, overlaps the day, selects and may see it; visibility is asked at most once |
| BatchedQuery.BatchRun.SelectQueries | src/storage/batched_query.rs:570-617 | Every filter that takes the packet spends one; the list has no duplicates and names exactly the queries one of whose filters takes it and which have not got it yet; the store is asked at most once |
| BatchedQuery.BatchRun.Send | src/storage/batched_query.rs:622-626 | The delivery is logged and exactly the queries the client names become inactive; they receive nothing more |
| BatchedQuery.BatchRun.EmitCandidate | src/storage/batched_query.rs:561-628 | Delivers to exactly the listed queries; queries the client refuses are dropped; succeeds exactly if the client has taken everything, this delivery included |
| BatchedQuery.TakeKeepsCover | src/storage/batched_query.rs:238-285 | A look-ahead candidate fetched for groups that were requested earlier stays valid: requests only shrink within a day |
| BatchedQuery.FetchKeepsCover | src/storage/batched_query.rs:248-256 | What a fetch passes over is owed to nobody, so hot look-ahead, partition look-ahead and rest still cover the day |
| BatchedQuery.ChosenIsFirst | src/storage/batched_query.rs:258-272 | The packet the two-way merge chooses has none of the day's remaining packets ahead of it |
| BatchedQuery.BatchRun.MergeDay | src/storage/batched_query.rs:229-286 | Merging hot candidates with the partition settles the whole day, whatever is skipped on demand |
| BatchedQuery.BatchRun.ProcessDay | src/storage/batched_query.rs:187-286 | One day settles exactly the packets of that day and keeps all progress; it fails only if the client fails |
| BatchedQuery.QueryStreamingBatch | src/storage/batched_query.rs:151-302 | Every query receives the sorted, duplicate-free union of its filters' cuts; the client is asked once for each day between newer and other deliveries; a query is dropped exactly if found inactive then or named in a reply, holds a prefix and receives nothing from that point on, without effect on the others; the run stops behind the first delivery the client fails, and only then; the store is asked about no packet twice |
| Cursors.KeptMembers | src/storage/cursor.rs:144-222 | A cursor hands out exactly the packets that match, contain the terms and are visible |
| Cursors.PacketCursor.NextPacket | src/storage/cursor.rs:144-203 | Advances by exactly one kept packet, in order |
| Cursors.PacketCursor.Peek | src/storage/cursor.rs:130-135 | Looking ahead buffers the next packet and changes nothing of what will be handed out |
| Cursors.PacketCursor.Pop | src/storage/cursor.rs:137-142 | Pops the first packet of the remaining stream, peeked before or not |
| Cursors.BestCursorIndex | src/storage/cursor.rs:245-258 | The cursor chosen shows a packet that none of the others precedes; none is chosen only if all are exhausted |
| Cursors.MergedCursor.NextMergedPacket | src/storage/cursor.rs:224-243 | The next packet of the merge is the first of the pool not delivered yet, never a duplicate, within the limit |
| Cursors.MergedCursor.Pop | src/storage/cursor.rs:114-142 | Delivers the cut of the pool in order and without duplicates, and ends only when all of it is delivered |
| Cursors.MergedCursor.Peek | src/storage/cursor.rs:130-135 | A peek delivers nothing and shows the packet the next pop returns |
| StreamingQuery.PrepareFilter | src/storage/streaming_query.rs:45-81 | A filter's days are exactly those with hot answers or overlapping partitions, and it starts with its whole limit |
| StreamingQuery.OpenDay | src/storage/streaming_query.rs:87-260 | The day's merged cursor has exactly the filter's answers of the day as its goal; there is none only if it has nothing to give |
| StreamingQuery.BestDayCursorIndex | src/storage/cursor.rs:260-275 | Across the filters' cursors the one chosen shows a packet with nothing left ahead of it |
| StreamingQuery.DrainDay | src/storage/streaming_query.rs:262-275 | Emits exactly the union of the day's cuts once each in order; every filter spends one for each packet of its own, duplicates included |
| StreamingQuery.StreamDay | src/storage/streaming_query.rs:83-276 | From one day to the next every filter has what the settled days leave of its limit, and the output lists the settled target |
| StreamingQuery.QueryStreaming | src/storage/streaming_query.rs:35-305 | The output is the sorted, duplicate-free union of the filters' cuts, or a prefix of it that ends behind the first packet the client refused, and only then; though every filter may read other partition versions and another store |
| StreamingQuery.SearchFiltersAgree | src/storage/streaming_query.rs:100-255 | For a search filter both engines count the same packets, for any behaviour of the Bloom test |
| StreamingQuery.EnginesAgreeIff | src/storage/streaming_query.rs:196-202 | Batched and streamed output of a query are equal packet by packet, limits included, if and only if the store shows everything its filters without search terms answer from partitions alone |
| EnginesDiffer.EnginesCanDiffer | src/storage/batched_query.rs:590-606 | For every packet that is no deletion there is a run (append it and a deletion of it, compact, query) after which batched sends it and streaming, asking the store that run leaves, does not |
| StreamingQuery.EnginesAgree | src/storage/batched_query.rs:151-302 | For queries whose filters all search, batched and streamed output are equal packet by packet |
| StreamingQuery.PlainFiltersAgreeIff | src/storage/streaming_query.rs:196-202 | Without search terms and limit the engines count the same packets exactly if the visibility store shows every matching partition packet that is not hot |
| SearchLookup.EventAt | src/storage/search.rs:597-619 | Returns the one record that owns the position, and none exactly if no record does, empty records included |
| SearchLookup.TermMatches | src/storage/search.rs:580-595 | Returns the records that hold one of the occurrences found by resuming behind each occurrence |
| SearchLookup.FoundContains | src/storage/search.rs:580-595 | Every record returned contains the term in its own text, never across a record boundary |
| SearchLookup.LookupIsExact | src/storage/search.rs:580-595 | For a term without border exactly the containing records are returned |
| SearchLookup.BorderedTermIsMissed | src/storage/search.rs:587 | For every term with a border there is an index whose lookup misses a containing record |
| SearchLookup.LookupIsExactIff | src/storage/search.rs:580-595 | The lookup of a term is exact on every index if and only if no proper prefix of the term is its suffix |
| SearchLookup.CandidateIndexes | src/storage/search.rs:238-269 | Without terms there is no restriction; otherwise exactly the records found for all terms, early stop included |
| SearchLookup.CandidatesAreExact | src/storage/search.rs:254-268 | For terms without borders exactly the records containing all of them |
| Bloom.InsertBloomGram | src/storage/search.rs:751-757 | Adds exactly the gram's positions to the bits set |
| Bloom.InsertTermGrams | src/storage/search.rs:728-749 | One pass sets exactly the positions of all 2- and 3-grams, or of the term itself if it has one character |
| Bloom.InsertTextGrams | src/storage/search.rs:719-726 | Sets exactly the positions of the grams of the text's words |
| Bloom.GramsOfContained | src/storage/search.rs:771-796 | Every gram of a contained space-free term of two characters or more is a gram of the text |
| Bloom.BloomByAppend | src/storage/search.rs:271-294 | Appending record by record sets exactly the bits of the records' grams |
| Bloom.BloomByBuild | src/storage/search.rs:296-325 | Building over the concatenated text sets exactly the bits of the grams of that text |
| Formats.TextGramsAre | src/storage/search.rs:719-749 | The grams of a text are its space-free parts of two and three characters, and its one-character words |
| Formats.PassesIff | src/storage/search.rs:692-711 | A filter lets a term through exactly if each of the seven positions of each of its grams is one of some gram of some text |
| Bloom.NoFalseNegatives | src/storage/search.rs:692-711 | Terms of two characters or more contained in some record pass the filter, whichever way it was filled |
| BloomHash.OneCharacterIsMissed | src/storage/search.rs:746-769 | With the two FNV hashes of the source, every one-character term is missed by the filter of some text that contains it |
| BloomHash.NoFalseNegativesIff | src/storage/search.rs:692-769 | With these hashes the filter never hides a record containing the term, for all texts and either way of filling it, if and only if the term has two characters or more |
| Utf8.ContainsIffBytes | src/storage/search.rs:47-53 | A term occurs in a text exactly if its UTF-8 bytes occur in the bytes the index stores, so a byte match never starts inside a character |
| Utf8.UnborderedIffBytes | src/storage/search.rs:580-595 | A term overlaps itself as characters exactly if it does as bytes |
| Formats.EncodedCharacters | src/storage/search.rs:47-53 | Characters of one to four bytes are encoded as UTF-8 prescribes |
| SearchAnswers.SnapshotIndexDescribes | src/storage/hot.rs:390-406 | The index a snapshot comes with holds, record by record, the bytes of its packets' texts |
| SearchAnswers.HotLookupIsExact | src/storage/query.rs:103-132 | With the byte index of the snapshot the hot lookup finds exactly the packets whose text contains all terms, for terms without borders |
| SearchAnswers.BloomIsTruthful | src/storage/search.rs:382-400 | A filter filled from a partition's texts never hides the partition from a query it can answer |
| SearchAnswers.SearchAnswerIsDeclarative | src/storage/streaming_query.rs:35-305 | For such terms both engines count exactly the matching, containing, visible packets; index and filter do not show |
| HotFile.ReadsPacket | src/storage/event.rs:183-203 | Reading where packet i starts returns packet i, and behind the last one end of file |
| Formats.ReadOutcome | src/storage/event.rs:183-203 | A packet whose length is complete is read or found truncated, and a file that ends before or inside a length is at its end |
| HotFile.ReadEventPackets | src/storage/event.rs:173-181 | Scanning a written file returns exactly the packets written, in order |
| HotFile.IndexDescribes | src/storage/search.rs:271-325 | Record i locates packet i and owns exactly its text, and the byte count is the file's length |
| HotFile.SeekReadsPacket | src/storage/search.rs:563-578 | Random access through record i returns the i-th packet of the sequential scan |
| HotFile.SearchIndex.AppendToSearchIndex | src/storage/search.rs:271-294 | The index becomes that of the file with one packet more |
| HotFile.SearchIndex.Build | src/storage/search.rs:296-325 | The one-shot build gives the same fingerprint, records, offsets and text as appending one by one |
| HotFile.EventsFingerprint | src/storage/search.rs:546-561 | The fingerprint of a list of packets is the one kept by repeated append |
| Fingerprints.FingerprintOfFile | src/storage/search.rs:546-560 | The fingerprint holds the number of packets, the length of the file and the FNV-1a hash of all its bytes |
| Fingerprints.OneByteTellsFingerprint | src/storage/search.rs:875-881 | Changing one byte of one packet changes the fingerprint |
| Fingerprints.XorBit | src/storage/search.rs:875-881 | Every bit of the hash is the exclusive or of its own and the byte's |
| Fingerprints.HashOfLetterA | src/storage/mod.rs:31-32 | The hash of "a" is the published FNV-1a value |
| HotFile.HotState.Open | src/storage/hot.rs:98-107 | Opening a framed file restores an index that describes exactly its packets |
| HotFile.HotState.AppendPacket | src/storage/hot.rs:164-180 | File and index grow together by one packet; a packet too long to frame changes neither |
| HotFile.HotState.RotateForCompaction | src/storage/compaction.rs:195-205 | The rotated file holds all packets so far; the new hot file is empty with an empty index |
| HotFile.HotState.HotSnapshot | src/storage/hot.rs:390-406 | The snapshot is the hot packets followed by those being compacted, and its index describes exactly this sequence |
| IndexFile.WriteSearchIndexParts | src/storage/search.rs:621-651 | Writes header, records, offsets, Bloom bits and text, section by section |
| IndexFile.ReadSections | src/storage/search.rs:470-544 | Accepts the section sizes exactly if the file has the magic and the length its count requires, with no overflow in any product or sum |
| IndexFile.IsMonotonic | src/storage/search.rs:157-169 | True exactly if the offsets never decrease |
| IndexFile.ValidateSearchIndexRecords | src/storage/search.rs:798-814 | True exactly if each record starts where the wrapping sum of the packets before it ends, up to the events length |
| IndexFile.ReadSearchIndex | src/storage/search.rs:470-544 | Succeeds exactly on acceptable files, and hands out the contents the file holds in place |
| IndexFile.ReadSearchBloom | src/storage/search.rs:432-468 | Succeeds exactly if sizes, magic, events length and kinds hash fit, and returns the file's Bloom section |
| IndexFile.ReadWritten | src/storage/search.rs:470-544 | Reading a written index gives back the same records, offsets, Bloom bits and text |
| IndexFile.WriteRead | src/storage/search.rs:621-651 | The format is canonical: writing what an accepted file says gives the same bytes |
| Formats.IndexLayout | src/storage/search.rs:621-651 | Magic, count, bytes, hash, kinds hash, filter and text stand at their positions in the written file, numbers least significant byte first |
| Formats.RecordLayout | src/storage/search.rs:640-643 | Record i stands at byte 40 + 12 i |
| Formats.OffsetLayout | src/storage/search.rs:644-646 | Offset k stands eight bytes apart behind the records |
| IndexFile.AcceptableIffWritten | src/storage/search.rs:470-544 | A file is accepted if and only if it was written from well-formed contents |
| IndexFile.RecordTextInBounds | src/storage/search.rs:41-45 | Every later record text access lies inside the text of an accepted file |
| IndexFile.TilesExactlyIff | src/storage/search.rs:798-814 | Accepted records tile the events file exactly if and only if their lengths together fit 64 bits |
| IndexFile.FewRecordsTile | src/storage/search.rs:798-814 | Up to 2^32 - 3 records the sums cannot wrap, so accepted records tile exactly |
| IndexFile.ManyRecordsMayNotTile | src/storage/search.rs:798-814 | For every larger count there is an accepted file whose records do not tile |
| IndexFile.BuiltIndexIsAccepted | src/storage/search.rs:346-359 | The index built over a file is accepted when read back, with the same contents, and tiles the file exactly |
| Encoding.LeRoundTrip | src/storage/search.rs:850-868 | Decoding the little-endian bytes of a number that fits gives the number |
| Encoding.UnLeRoundTrip | src/storage/search.rs:850-868 | Encoding the number that bytes spell gives the bytes |
| Formats.LittleEndian | src/storage/search.rs:636-645 | Byte i of a little-endian number is its i-th least significant byte |
| Formats.BigEndian | src/storage/visibility.rs:442-450 | Byte i of a big-endian number, from the end, is its i-th least significant byte |
| Visibility.ParseAddressTag | src/storage/visibility.rs:410-424 | An address that parses has a `d` value exactly if its kind is not a regular replaceable one |
| TagParsing.HexDigitIff | src/storage/visibility.rs:430-440 | A digit is one of sixteen characters, in either case |
| TagParsing.OtherPairs | src/storage/visibility.rs:430-440 | Two characters make a byte only if the second is a digit and the first a digit or a plus sign |
| TagParsing.IdIsNamedBy | src/storage/visibility.rs:430-440 | Exactly 64 characters whose pairs make the bytes of an id name it |
| TagParsing.PlusIsRead | src/storage/visibility.rs:410-412 | The kind of an address may have a plus sign in front |
| TagParsing.AddressWithoutD | src/storage/visibility.rs:410-424 | An address without a second colon parses with an empty `d` value, or none for a replaceable kind |
| TagParsing.WrittenInLowerCase | src/storage/visibility.rs:510-518 | Keys are written in lower case, most significant digit first |
| TagParsing.WrittenInDecimal | src/storage/visibility.rs:477-479 | Kinds are written in decimal digits without leading zeros |
| Visibility.UpdateWinner | src/storage/visibility.rs:345-358 | One update is the merge with the single candidate: the newest, then smallest id, survives |
| Visibility.VisibilitySummary.AddPacket | src/storage/visibility.rs:281-298 | The summary of a set becomes the summary of the set with the packet |
| Visibility.VisibilitySummary.ApplyDeletion | src/storage/visibility.rs:300-343 | All ids the deletion names, and its own author's addresses, are recorded with author and latest time, and nothing else |
| Visibility.SummaryFromPackets | src/storage/visibility.rs:271-279 | The result summarises exactly the set of the packets |
| Visibility.SummaryIsUnique | src/storage/visibility.rs:271-279 | A set has one summary: packet order and repetition cannot show |
| Visibility.MergeSummarisesUnion | src/storage/visibility.rs:95-108 | Merging the summaries of two sets is summarising their union |
| Visibility.MergeIsJoin | src/storage/visibility.rs:95-108 | Merging is idempotent, commutative and associative |
| Visibility.UpdateWinners | src/storage/visibility.rs:96-98 | Merging winners key by key, in any order of keys, gives the join of the two maps |
| Visibility.ExtendDeletedIds | src/storage/visibility.rs:99-101 | Merging deleted ids key by key gives the union of authors for each id |
| Visibility.RaiseDeletedAddresses | src/storage/visibility.rs:102-107 | Merging deleted addresses key by key gives the latest deletion of each |
| Visibility.VisibilityIndex.FromPackets | src/storage/visibility.rs:58-62 | The index holds the summary of its packets |
| Visibility.VisibilityIndex.Merge | src/storage/visibility.rs:95-108 | The index becomes the join of what it held and the summary |
| Visibility.VisibilityIndex.IsVisible | src/storage/visibility.rs:64-93 | The branches compute the visibility predicate of the held summary |
| Visibility.IndexVisibleIffNotHidden | src/storage/visibility.rs:64-93 | A packet of the summarised set is visible exactly if no packet of the set supersedes or deletes it |
| Visibility.IndexVisibleOutside | src/storage/visibility.rs:69-76 | A packet outside the set is visible exactly if the set has no version of its key at all and nothing deletes it |
| Visibility.NewestVersionCanBeInvisible | src/storage/visibility.rs:69-76 | Next to an index of an older version only, the newest version is invisible though nothing supersedes or deletes it |
| Visibility.IndexHides | src/storage/visibility.rs:64-93 | A hider in the summarised set hides any packet, inside or outside the set |
| AddressKeys.KeyHoldsD | src/storage/visibility.rs:374-412 | The key of a packet of an addressable kind holds the value of its first `d` tag, empty if there is none or it is longer than 255 bytes |
| AddressKeys.SameKeyIff | src/storage/visibility.rs:366-390 | Two packets share a key exactly if author and kind agree, the kind has keys and, for an addressable kind, the `d` texts agree |
| AddressKeys.AddressNamesPacket | src/storage/visibility.rs:414-430 | The address text of a key parses to the key of exactly the packets of that author, kind and `d` text |
| AddressKeys.SupersedesIff | src/storage/visibility.rs:360-364 | A packet is superseded exactly by a newer one, or an equally old one with a smaller id, of the same author, kind and `d` text |
| AddressKeys.DifferentDsAreVisible | src/storage/visibility.rs:64-93 | Packets of one author and kind with different `d` texts are visible next to each other in index and store |
| AddressKeys.AddressDeletionHidesIff | src/storage/visibility.rs:300-343 | A deletion of an address hides the packet exactly if it is of the same author, no older, and the address has at most 255 bytes |
| AddressKeys.IdDeletionHidesIff | src/storage/visibility.rs:300-343 | A deletion of an id hides exactly the packet of its author with that id, whatever the times |
| AddressKeys.OthersDoNotHide | src/storage/visibility.rs:64-93 | Nobody hides another author's packet, and nothing hides a deletion |
| Formats.WinnerLayout | src/storage/visibility.rs:442-494 | A winner is kept under author, `d` value and kind, as its id and its time, each at its place in the bytes |
| Formats.DeletionLayout | src/storage/visibility.rs:452-464 | A deletion is kept under id and author, or under the hash of an address and its time |
| VisibilityStores.ReplaceKeyIsInjective | src/storage/visibility.rs:442-450 | Well-formed replaceable keys have distinct byte keys |
| VisibilityStores.DeletionKeyIsInjective | src/storage/visibility.rs:452-457 | Distinct pairs of id and author have distinct byte keys |
| VisibilityStores.WinnerRoundTrip | src/storage/visibility.rs:489-508 | A stored winner parses back to itself |
| VisibilityStores.ReplaceDeletionRoundTrip | src/storage/visibility.rs:459-475 | A stored deletion key parses back to its address hash and time |
| VisibilityStores.AddressRoundTrip | src/storage/visibility.rs:477-487 | Parsing the address text of a well-formed key gives the key back, so address texts are distinct |
| VisibilityStores.OnlyHashesCollide | src/storage/visibility.rs:477-487 | Only a hash collision of two different address texts can make one deleted address look like another |
| VisibilityStores.PrefixesAreContiguous | src/storage/visibility.rs:217-238 | In key order the keys with a given prefix are contiguous, behind the prefix itself |
| VisibilityStores.VisibilityStore.constructor | src/storage/visibility.rs:112-130 | A new store holds the empty summary |
| VisibilityStores.VisibilityStore.MergeSummary | src/storage/visibility.rs:132-170 | The three databases then hold the join of what they held and the summary |
| VisibilityStores.PutWinners | src/storage/visibility.rs:134-149 | A winner is written exactly if it beats the stored one, so the database holds the joined winners |
| VisibilityStores.PutDeletedIds | src/storage/visibility.rs:150-159 | The database then has a key for exactly the joined pairs of id and author |
| VisibilityStores.PutDeletedAddresses | src/storage/visibility.rs:160-167 | Every joined address has its latest deletion stored, and every stored key is some deletion of it |
| VisibilityStores.DeletedSince | src/storage/visibility.rs:217-238 | The prefix scan over unordered time keys decides exactly whether a held deletion with this hash is no older than the packet |
| VisibilityStores.VisibilityStore.IsVisible | src/storage/visibility.rs:187-257 | The byte-level test computes the visibility predicate of the summary held |
| VisibilityStores.StoreVisibleIffNotHidden | src/storage/visibility.rs:192-257 | The store shows a packet exactly if no summarised packet supersedes or deletes it, for every packet |
| VisibilityStores.StoreHides | src/storage/visibility.rs:192-257 | A summarised hider hides in the store, whatever the hash does |
| VisibilityStores.IndexAndStoreAgree | src/storage/visibility.rs:64-93 | For the packets of the summarised set the in-memory test equals the store test |
| Compaction.MergeIsSortedUnion | src/storage/compaction.rs:322-355 | The merged partition is sorted and holds both sides with multiplicity |
| Compaction.SortedIsUnique | src/storage/compaction.rs:296-355 | A sorted listing of a multiset of packets is unique, so the result is determined by the contents |
| Compaction.MergePacketsIntoPartition | src/storage/compaction.rs:290-364 | The new partition is the merge; file, search index and summary all describe the whole merged partition |
| Compaction.WriteMergedPacket | src/storage/compaction.rs:366-377 | File, index and summary advance together by the same packet |
| CompactHotFiles.MergeDay | src/storage/compaction.rs:290-364 | Afterwards the store holds the summary of everything it held and of the whole merged partition |
| CompactHotFiles.CompactHotFile | src/storage/compaction.rs:213-274 | Every day of the file is merged into its own partition, other partitions stay, and the store has been told of all merged days |
| CompactionProtocol.WholeFileIsSettled | src/storage/compaction.rs:138-142 | When all days are summarised, every packet of the file is in its partition and in the store |
| CompactionProtocol.RotateKeeps | src/storage/compaction.rs:189-211 | Rotation keeps the invariant: what was hot is in a listed file |
| CompactionProtocol.ReplaceKeeps | src/storage/compaction.rs:357-361 | Replacing a partition keeps the invariant though its summary is not merged yet |
| CompactionProtocol.SummariseKeeps | src/storage/compaction.rs:362 | Merging the summary keeps the invariant and settles the day |
| CompactionProtocol.UnlistKeeps | src/storage/compaction.rs:138-141 | A path leaves the list only when nothing depends on it any more |
| CompactionProtocol.RemoveFileKeeps | src/storage/compaction.rs:142-148 | Removing the file keeps the invariant, also for a query that still has its path |
| CompactionProtocol.CrashKeeps | src/storage/hot.rs:132-162 | A crash at any step leaves files, partitions and store from which nothing is lost |
| CompactionProtocol.RestartKeeps | src/storage/hot.rs:132-162 | Restart, recovery of leftover files and opening for queries keep the invariant |
| CompactionProtocol.QueryStepKeeps | src/storage/hot.rs:382-406 | Each step of a query keeps what it needs to miss nothing |
| CompactionProtocol.RunsKeepInvariant | src/storage/compaction.rs:121-364 | Every run of appends, rotations, parallel merges, removals, failures, crashes, recovery and query reads keeps the invariant |
| StorageProgress.RecoveryOpens | src/storage/hot.rs:132-162 | From every reachable state that is down or recovers without a failed day some run without crash and failure opens, with no file left and every packet hot or merged and summarised |
| StorageProgress.RecoveryOpensIff | src/storage/hot.rs:132-162 | It can open without another crash exactly if no day of the recovery has failed |
| StorageProgress.CompactionFinishes | src/storage/compaction.rs:121-165 | A compaction without a failed day can be finished from any of its states, its file merged and removed |
| StorageProgress.FailedCompactionEnds | src/storage/compaction.rs:237-274 | One with a failed day can be given up, its file kept and listed |
| StorageProgress.QueryCanRead | src/storage/hot.rs:382-406 | A query can begin whenever no other takes its snapshot, and can read everything |
| Guards.ProcessStepIsPossibleIff | src/storage/hot.rs:165-203 | An append is possible in an open process exactly while no query takes its snapshot, a rotation then exactly if no compaction is under way |
| Guards.WorkerStepIsPossibleIff | src/storage/compaction.rs:237-259 | A worker can take a waiting day exactly while fewer days are in work than there are workers |
| Guards.OwnerStepIsPossibleIff | src/storage/compaction.rs:121-165 | The path leaves the list exactly when all days are summarised, and the compaction is given up only when no worker is busy |
| Guards.WorkersOf | src/storage/compaction.rs:231-236 | Every compaction begins with as many workers as configured, but no more than days |
| StorageRuns.EveryRunConserves | src/storage/compaction.rs:189-274 | In every reachable state exactly the appended packets are stored, partitions are sorted and hold their own day, and every partition packet is in a file still read or summarised |
| StorageRuns.ScheduleDoesNotShow | src/storage/compaction.rs:233-269 | The partitions a compaction leaves do not depend on the number of workers or their schedule |
| StorageRuns.AppendOrderDoesNotShow | src/storage/compaction.rs:221-229 | Nor on the order in which the packets were appended |
| StorageRuns.NoWorkerIsStuck | src/storage/compaction.rs:237-259 | While no day has failed, an unfinished compaction always has a worker that can take, replace or summarise a day |
| StorageRuns.FailureFreeRunsKeepCopies | src/storage/compaction.rs:121-165 | Without failures and crashes every packet is stored exactly as often as it was appended |
| StorageRuns.NoEventMissed | src/storage/hot.rs:382-406 | Everything appended before a query began that matches a filter is in the snapshot or in a partition version the filter's reader reads, so every match is counted; and it reads nothing else |
| StorageRuns.ReadersAgreeOnIds | src/storage/streaming_query.rs:41-66 | The filters of a streamed query may read different versions of a day in any run; together they still form a source the engine's theorem applies to |
| StorageRuns.NoVisibilityGap | src/storage/batched_query.rs:590-606 | For each reader, the hider of a partition packet, appended before the query began, is in the hot index or in the store at the moment the store is asked |
| StorageRuns.HiddenIsNotAnswered | src/storage/cursor.rs:206-222 | So neither engine answers a search filter with such a packet |
| StorageRuns.StoreOnlyGrows | src/storage/compaction.rs:362 | What the store has been told it keeps, over every step |
| Ownership.EveryScheduleKeepsInvariant | src/storage/compaction.rs:57-119 | In every interleaving the running flag is set exactly while one thread owns compaction, and the state lock has one holder |
| Ownership.CompactionsNeverOverlap | src/storage/hot.rs:181-258 | While one thread compacts no other owns or runs a compaction, across append, manual compact, queued continuation and re-acquire |
| Ownership.RotationsHaveOneOwner | src/storage/hot.rs:187-202 | The hot file is handed over only by the owner, under the lock, while nobody compacts; then exactly one compaction runs |
| Ownership.OnlyRotationsEmptyTheHotFile | src/storage/compaction.rs:168-187 | No other step shrinks the hot file |
| Ownership.AppendOverLimitStartsCompaction | src/storage/hot.rs:180-203 | An append over the limit that finds the flag free starts a compaction unless rotation fails, whatever other threads do between its steps; otherwise another thread owns one |
| CompactionRequests.RequestIsSeenIff | src/storage/compaction.rs:75-119 | In every reachable state, the flag an append is about to set is looked at in every schedule before all threads have ended if and only if some thread is ahead of a look, or, where rotations do not fail, prepares a compaction or can take the free flag for one |
| CompactionFollows.CompactionFollowsIff | src/storage/compaction.rs:57-119 | In every reachable state in which an append is about to ask for a compaction, every schedule ends with the hot file within its limit if and only if rotations do not fail and the owner is on its way to a rotation, or nobody owns compaction and some thread will swap or has swapped the flag, or the owner will look and no other thread can clear the flag first |
| CompactionRequests.EverythingCanEnd | src/storage/compaction.rs:57-119 | From every reachable state all threads can end: no deadlock, and every step brings the end nearer |
| CompactionFollows.LostBehindTheLastLook | src/storage/hot.rs:187-196 | A schedule loses a request set after the compaction thread's last look, and the file stays over the limit |
| CompactionFollows.LostBehindAnEmptyFile | src/storage/hot.rs:248-255 | A schedule without failure loses a request set while the owner finds the hot file small enough and gives up without another look |
| CompactionFollows.LostToALateSwap | src/storage/hot.rs:247-255 | A schedule without failure in which a manual compaction that has given the flag up clears the request, and neither it nor the owner compacts |
| SidecarQueue.SidecarUpdateQueue.Acquire | src/storage/sidecar_queue.rs:41-64 | The first critical section of a thread takes the guard exactly if it need not wait, and is one step of the protocol |
| SidecarQueue.SidecarUpdateQueue.LookAgain | src/storage/sidecar_queue.rs:50-63 | A woken thread takes the guard exactly if it need not wait, and is one step of the protocol |
| SidecarQueue.SidecarUpdateQueue.Drop | src/storage/sidecar_queue.rs:67-74 | Giving the guard back frees it and wakes all, and is one step of the protocol |
| SidecarQueue.AtMostOneGuard | src/storage/sidecar_queue.rs:41-75 | In every reachable state at most one guard is live, the flag says so, and the counter is the number of waiting compactions |
| SidecarQueue.ReindexYields | src/storage/sidecar_queue.rs:50-63 | A reindex gets the guard only while no guard is live and no compaction waits |
| Guards.MoveIsPossibleIff | src/storage/compaction.rs:57-119 | A thread on its way can always go on, unless it waits for the state lock; an idle one can append when the lock is free and compact by hand at any time |
| Guards.QueueStepIsPossibleIff | src/storage/sidecar_queue.rs:41-75 | Any thread may ask for the guard, look when awake, and give it back when it holds it |
| SidecarQueue.SomeWaiterCanGoOn | src/storage/sidecar_queue.rs:67-74 | Whenever no guard is live and threads wait, one is awake and gets it when it looks, a compaction if one waits: no wakeup is lost |
| Dispatcher.SplitPending | src/db/snapshot_batch.rs:169-179 | The batches concatenate to the requests in order; as many as asked for or as there are requests, none empty, sizes never growing and differing by at most one |
| Dispatcher.Dispatcher.constructor | src/db/snapshot_batch.rs:117-120 | At the start every worker is idle and nothing waits |
| Dispatcher.Dispatcher.HandleMessage | src/db/snapshot_batch.rs:150-167 | A request joins the end of the queue; a completed worker becomes idle again; idle and busy workers stay a partition of all |
| Dispatcher.Dispatcher.DispatchReadyBatches | src/db/snapshot_batch.rs:196-210 | Batches go out in order, each to one idle worker, until one side is empty; a refused batch comes back and its worker stays idle |
| Dispatcher.Dispatcher.DispatchAvailable | src/db/snapshot_batch.rs:181-194 | Ready batches go out first, each to the worker idle last; only when they are gone and a worker is idle all pending requests are split for all workers; no request is lost or overtaken, an idle worker means that nothing waits, and it fails only if the next worker no longer listens |
| Dispatcher.Dispatcher.Turn | src/db/snapshot_batch.rs:122-143 | Every request received is handed out, ready or pending, in order; the loop stops when told to, and otherwise only when the next worker no longer listens; then each request is handed out or unregistered |
| Handover.SubscriptionManager.Register | src/db/subscription.rs:62-77 | A new entry under an id never used before, behind the others |
| Handover.SubscriptionManager.Unregister | src/db/subscription.rs:79-82 | Exactly the entry with this id is gone, the others keep their order |
| Handover.SubscriptionManager.CollectMatchingSenders | src/db/subscription.rs:84-96 | Exactly the entries without filters or with a matching filter, in order |
| Handover.MatchingIdsMembers | src/db/subscription.rs:84-96 | An id is collected if and only if some entry with it matches |
| Handover.CollectKeeps | src/db/mod.rs:487-492 | An insertion that looks for subscribers after its append reaches every one registered by then |
| Handover.StartSnapshotKeeps | src/db/mod.rs:195-205 | A snapshot that begins after registration takes over everything appended before |
| Handover.EveryRunKeepsInvariant | src/db/mod.rs:189-236 | In every interleaving each wanted event is delivered, on its way, in the snapshot's care, or came unannounced after it |
| Handover.EveryEventCanBeAnnounced | src/db/mod.rs:487-492 | From every reachable state all insertions can be announced to all their subscribers |
| Guards.HandoverStepIsPossibleIff | src/db/subscription.rs:62-96 | Subscribing, unsubscribing and inserting are possible at any time, every send when it is due |
| Guards.RegisteredIff | src/db/subscription.rs:62-82 | A subscription is registered from its first step until it leaves or a send to it fails, and nothing else takes it off |
| Handover.NoEventIsMissed | src/db/mod.rs:231-236 | Every event inserted with notification, or appended before the snapshot began, reaches a subscription that stays registered by one of the two paths |
| Handover.EndMarkerComesOnceAndLast | src/db/snapshot_batch.rs:288-296 | The end marker is sent at most once and behind every snapshot event |
| Handover.UnlimitedFilterKeepsAll | src/db/snapshot_batch.rs:261-286 | The snapshot query's answer holds every matching event of its source for a filter without limit and search terms |
| SnapshotBatch.EndedWasNotDropped | src/db/snapshot_batch.rs:261-286 | A request still active in the end, whose channel takes the end marker, was never dropped from the query |
| SnapshotBatch.ProcessBatch | src/db/snapshot_batch.rs:248-318 | The end marker goes to exactly the requests whose channels took everything, and only when every delivered packet could be encoded; each has its whole answer, with everything appended before the query began that an unlimited filter wants, in every run of the storage; nothing is sent to a channel found closed or that refused something; exactly the refusing requests, or all on failure, are unregistered |
| SnapshotBatch.GivenUpIff | src/db/snapshot_batch.rs:270-308 | A request is given up exactly if the query failed, its channel refused a delivery, or it was open and refused the end marker |
| SnapshotBatch.AnswerIsComplete | src/db/snapshot_batch.rs:261-286 | A listed answer contains everything an unlimited filter wants of what had been appended when the query began, in every run of the storage |
| SnapshotBatch.BatchTakesItsSteps | src/db/snapshot_batch.rs:288-296 | In every state of the handover a batch may send its next packet, and once all are sent the guard of the end marker holds |
| ServedRuns.RunsProject | src/db/mod.rs:189-236 | A joint run of storage and subscriptions, where end markers go out on the worker's word alone, is a run of each, and the base of every served snapshot is what had been appended when its query began |
| Guards.BatchBeginsIff | src/db/snapshot_batch.rs:248-260 | The snapshots of a batch begin together exactly if all were requested, each once, and no other is touched |
| Guards.ServedStepIsPossibleIff | src/db/mod.rs:189-236 | An insertion and the begin of a batch wait for a query that takes its snapshot and for nothing else |
| ServedRuns.WorkerCanFinish | src/db/snapshot_batch.rs:248-296 | In every joint run a worker whose query has run can send its next packet and, behind the last, the end marker |
| ServedRuns.NoEventIsMissed | src/db/mod.rs:189-236 | In every joint run each event that an unlimited filter wants, stored when the query began or inserted with notification, reaches the subscription that stays registered |

## Left out

- Decoding of ndb notes, JSON, signatures and SHA-256, NFKC normalisation, LMDB and the multi-pattern search automaton: parameters or specification functions with the contract the source relies on.
- Search terms are non-empty and free of spaces, as the tokeniser makes them; the tokeniser itself is not modelled.
- Read and decode errors of event files: the engines read intact files. `Formats.ReadOutcome` says when a packet is found truncated; what a reader then reports is not modelled.
- Malformed values in the visibility databases: the store holds only what `MergeSummary` wrote, so its two parse errors cannot occur.
- The panic of the hexadecimal id parser on 64 bytes that are not ASCII: tag values are bytes here and such a value names no id.
- Repair of a stale search sidecar during a query: the sidecar of a partition describes the partition version read.
- StreamingQuery.QueryStreaming: a partition that holds one packet twice, as a recovery may leave it, asks the store twice for it; the model gives one answer. A hidden packet stays hidden, and a second copy is never sent.
- BatchedQuery.BuildFilterStates: a filter's term list is modelled by its set, as the matcher uses it.
- SearchMatching.SearchMatcher.MarkOccurring: the automaton's enumeration of occurrences is replaced by the set of terms that occur.
- StorageRuns.NoVisibilityGap: hot packets are tested against the hot index only, as the engines do, so nothing is claimed for a target that is itself in the snapshot and whose hider has already left it.
- CompactionProtocol.RotateKeeps: rotation is one step under the state lock, and a partition is replaced together with its sidecar; errors between renaming the hot file and listing it are not modelled.
- CompactionProtocol.CrashKeeps: a crash ends the process; loss of unsynced data and half-written packets are not modelled.
- CompactionProtocol.QueryStepKeeps: one query is followed through arbitrary steps of all other threads; other queries only hold the lock and change nothing.
- Mutexes, atomics, condition variables and threads as objects: the protocols between threads (CompactionProtocol, Ownership, SidecarQueue, Handover) are step functions on values, one step for each access to shared state; the bodies of the critical sections are methods where they do more than one assignment.
- Poisoned locks and panicking threads, other than as failures of the step they belong to.
- CompactionFollows.CompactionFollowsIff: only threads already begun go on after the request is set; a later append or manual compaction may still compact. `CompactionRequests.RequestIsSeenIff` is about the flag alone: a request that is looked at can be lost, as `CompactionFollows.LostToALateSwap` shows.
- ServedRuns.RunsProject: a run is that of one process on whatever an earlier run of the storage left; one query is followed, and the snapshots of other queries keep the guard of the handover.
- Dispatcher.Dispatcher.Turn: the channels are the messages themselves; a completion is heard only from a busy worker, as the debug assertion of the source demands.
- SnapshotBatch.ProcessBatch: the answers of the channels are functions of the deliveries so far; refusing requests are unregistered after the query instead of inside its callback.
- Handover.NoEventIsMissed: only filters without limit and search terms; a full or closed channel ends the registration, as in the source.
- Release-build arithmetic other than the packet length sums of the index reader: counters and lengths are unbounded and `usize` is 64 bits wide.
- The negentropy listing, which reads the partition before the snapshot and so has no such guarantee.
- Reindexing beyond its place in the priority lock, the command line, statistics, logging, dump and load, and the purge command.
