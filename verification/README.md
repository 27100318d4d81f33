# Jepsen, verified models

Dafny models of the parts of Jepsen that have to be right for a test result to mean anything, and
proofs about them. Each part stands alone.

- **Stored histories** (`Fressian*.dfy`, `OffsetStream.dfy`). Jepsen keeps test data in Fressian, read
  back by a recursive-descent reader with two back-reference caches, and writes blocks through a stream
  that counts and checksums them. `FressianDecoder` is the reader as a function of its state,
  `FressianReader` is the object that mutates that state and is proved to agree with the function on
  every input, `FressianWriter` is everything a writer may emit, `FressianLanguage` proves that the
  reader accepts nothing else, and `FressianRuns` is what holds over every run.
- **Linearizability** (`CasRegister.dfy`, `Linearizability.dfy`, `Histories.dfy`). The register model, and
  the two shortcuts the tutorial rests on: timed-out reads may be recorded as failed, and keys may be
  checked one at a time. Together: the check Jepsen performs decides linearizability of the whole history.
- **Aerospike membership** (`Aerospike.dfy`). A heartbeat protocol over a network that drops and
  duplicates, as a state machine with proofs over every run.
- **File corruption** (`ChunkLayout.dfy`, `BitFlip.dfy`, `ChunkCopy.dfy`, `Snapshots.dfy`). Chunk
  arithmetic, bit flips, in-place copying, snapshot and restore, over arbitrary random draws.
- **Merging replicas** (`SetUnionMerge.dfy`) and **clocks** (`Timespec.dfy`): the set-union merge policy,
  and the programs that bump and strobe the wall clock.

Four properties one would expect turn out to be false of the code as written. Each is stated with the
exact condition under which it holds:

- Snapshot, then restore: restoring adds up chunk sizes to find where a chunk ends (corrupt-file.c:437),
  where saving starts from the chunk's own offset (:365), so restore finds its snapshots only for some
  options. Chunks of a region that ends beyond one chunk size are not all restored if it starts past 0, if
  the index is above 0, or if every second of four chunks is selected (`Snapshots.RestoreIff`, at
  probability 1 `Snapshots.CanRestore` is the whole condition).
- Restoring what is not skipped: a chunk skipped at probability below 1 adds nothing to that end (:431-433),
  so for those same options no chunk after the first skipped one comes back. For two chunks of one byte
  and the first one skipped, nothing is restored. With more than one selected chunk the round trip holds
  at probability 1 only (`Snapshots.RestoreIff`, `Snapshots.RestoredUpToFirstSkip`, `Snapshots.SkippedFirst`).
- `ChunkCopy.OrderIrrelevantIff`: with every chunk selected (modulus 1) and two or more chunks, a run at any
  probability can read what an earlier copy wrote, so copying in order differs from copying at once.
- `Aerospike.StableIff`: with a replication factor of 0 and an even roster, a server can gain a quorum at
  half the roster and lose it on hearing from one more.

Where the code and its own words disagree, the model follows the code, with one exception:

- aerospike.tla:87-88 quantify over `clusters`, the state variable, where the parameter `cluster` is
  meant (a function is not a set of servers, so the text as it stands has no useful meaning). The model
  uses the parameter. Line 71 sorts a set; the model takes the list of its members in succession order.
- strobe-time.c:84 calls cmp_timespec a standard comparator; it is the reverse of one, and the strobe loop
  depends on that.
- FileOffsetOutputStream.java:70 asserts that the bytes written equal the buffer's limit, which is the
  range's start plus its length. `OffsetStream.FileOffsetOutputStream.WriteRange` reports that assertion
  and proves it holds exactly for ranges that start at 0.

## Model

| member | source | states |
|---|---|---|
| FressianDecoder.ReadObject | jepsen/src/jepsen/store/FressianReader.java:283-285 | every completed object read consumes at least one byte; with the measure on the unread input, all mutually recursive reads end in a value or a failure on every finite input |
| FressianDecoder.ReadInt32 | jepsen/src/jepsen/store/FressianReader.java:716-718 | a count or index, itself written in any way (even as a cache reference), consumes input or fails |
| FressianFormat.BigEndianRoundTrip | jepsen/src/jepsen/store/FressianReader.java:400-449 | the raw big-endian reads invert big-endian writing at every width |
| FressianReader.FressianReader.constructor | jepsen/src/jepsen/store/FressianReader.java:45-50 | a new reader is in the decoder's initial state |
| FressianReader.FressianReader.ReadObject | jepsen/src/jepsen/store/FressianReader.java:283-285 | on every input and in every state, returns the decoder's value and ends in the decoder's state, or both fail |
| FressianReader.FressianReader.Read | jepsen/src/jepsen/store/FressianReader.java:287-696 | the dispatch on all 256 codes agrees with the decoder, in result, stream position, byte count and both caches |
| FressianReader.FressianReader.InternalReadInt | jepsen/src/jepsen/store/FressianReader.java:75-256 | the integer fast path gives the same integer and state as reading a whole object and asking for an integer |
| FressianReader.FressianReader.ReadInteger | jepsen/src/jepsen/store/FressianReader.java:400-449 | the integer arms yield the decoder's integer at every width |
| FressianReader.FressianReader.ReadCount | jepsen/src/jepsen/store/FressianReader.java:708-718 | an integer outside 32 bits is refused |
| FressianReader.FressianReader.ReadScalar | jepsen/src/jepsen/store/FressianReader.java:579-664 | the arms that read no further object: integers of every width, constants, doubles and floats, short bytes and texts |
| FressianReader.FressianReader.ReadList | jepsen/src/jepsen/store/FressianReader.java:617-638 | the four list encodings agree with the decoder |
| FressianReader.FressianReader.ReadBlob | jepsen/src/jepsen/store/FressianReader.java:590-615 | counted and chunked bytes and texts agree with the decoder |
| FressianReader.FressianReader.ReadStringBytes | jepsen/src/jepsen/store/FressianReader.java:724-730 | of the reused scratch buffer, whose stale tail stays behind, the first `length` bytes are exactly those read |
| FressianReader.FressianReader.InternalReadChunkedString | jepsen/src/jepsen/store/FressianReader.java:732-763 | the loop collects exactly the bytes of the chunks the recursive reading joins, ended by a counted or a packed chunk |
| FressianReader.FressianReader.InternalReadChunkedBytes | jepsen/src/jepsen/store/FressianReader.java:771-793 | the loop collects exactly the chunks the recursive reading joins, ended by a counted chunk only, and fails when the total does not fit an array |
| FressianReader.TotalLength | jepsen/src/jepsen/store/FressianReader.java:782-785 | the 32-bit sum of lengths is the true total whenever that fits |
| FressianReader.JoinChunks | jepsen/src/jepsen/store/FressianReader.java:782-792 | the result is the concatenation of the chunks, or a failure exactly when it is too long, wrap-around of the sum included |
| FressianReader.FressianReader.ReadObjects | jepsen/src/jepsen/store/FressianReader.java:822-828 | the counting loop agrees with the decoder, negative counts included |
| FressianReader.FressianReader.ReadClosedList | jepsen/src/jepsen/store/FressianReader.java:830-839 | reads up to the end code; the end of input is a failure |
| FressianReader.FressianReader.ReadOpenList | jepsen/src/jepsen/store/FressianReader.java:841-855 | reads up to the end code or the end of input, but input ending inside an item is a failure |
| FressianReader.FressianReader.LookupPriority | jepsen/src/jepsen/store/FressianReader.java:886-896 | a slot outside the cache or still under construction fails; any other gives its value and changes nothing |
| FressianReader.FressianReader.ReadReference | jepsen/src/jepsen/store/FressianReader.java:455-457 | the index is read first, then looked up in the cache as it is then |
| FressianReader.FressianReader.ReadAndCacheObject | jepsen/src/jepsen/store/FressianReader.java:940-946 | reserves a slot with the placeholder, reads, fills that slot; fails if a nested reset took the slot away; on return and when it throws, the pending slots are exactly those of the PUTs still open if they were before and the caches were not cleared meanwhile |
| FressianReader.FressianReader.ReadStructType | jepsen/src/jepsen/store/FressianReader.java:672-678 | the new type is in the struct cache before its fields are read |
| FressianReader.FressianReader.ReadIndexedStruct | jepsen/src/jepsen/store/FressianReader.java:679-683 | a struct of a cached type named by an integer |
| FressianReader.FressianReader.ReadKnownStruct | jepsen/src/jepsen/store/FressianReader.java:494-513 | a struct of a cached type; an unknown type fails |
| FressianReader.FressianReader.HandleStruct | jepsen/src/jepsen/store/FressianReader.java:698-706 | a struct without handler becomes a tagged object with its declared number of fields |
| FressianReader.FressianReader.ValidateFooter | jepsen/src/jepsen/store/FressianReader.java:666-671 | agrees with the decoder's footer check, which FooterStatesCount pins to the input bytes: wrong magic or a length that is not the number of bytes read fails; otherwise byte count and caches start afresh |
| FressianReader.FressianReader.ReadRestarted | jepsen/src/jepsen/store/FressianReader.java:666-689 | after a footer or a reset the next object is read with empty caches |
| FressianReader.FressianReader.ResetCaches | jepsen/src/jepsen/store/FressianReader.java:925-928 | empties both caches and moves nothing else; the pending slots stay those of the open PUTs if and only if no PUT is open, and every other method parts the two only by clearing the caches |
| FressianWriter.Decodes | jepsen/src/jepsen/store/FressianReader.java:287-696 | for every legal encoding of a value (all integer widths, list forms, chunkings, cache placements, counts and indices themselves written in any legal way), followed by anything, the reader returns the value meant, stops at the encoding's own end and has the caches the writer has |
| FressianWriter.RoundTrip | jepsen/src/jepsen/store/FressianReader.java:287-706 | reading what the plain writer wrote for any value tree, in any reader state and with any bytes after, returns the value and leaves exactly those bytes |
| FressianWriter.CacheTransparency | jepsen/src/jepsen/store/FressianReader.java:451-513 | however the caches are used, decoding yields the same value as decoding the cache-free stream and stops at its own end |
| FressianLanguage.SpellsObject | jepsen/src/jepsen/store/FressianReader.java:287-706 | the converse of Decodes: whatever the reader accepts, in any state, is what some legal encoding of the returned value emits, with the caches it leaves behind, unless there was a footer or the caches were cleared inside a PUT |
| FressianLanguage.AcceptedIff | jepsen/src/jepsen/store/FressianReader.java:283-706 | the accepted language: a fresh reader reads v and stops at `rest`, having met no footer and cleared no caches inside a PUT, if and only if what precedes `rest` is a legal encoding of v |
| FressianLanguage.ClassifiedCodes | jepsen/src/jepsen/store/FressianReader.java:287-694 | the switch over codes loses nothing: the kind a code is read as determines the code (for predefined types see TypeCodes; footers and unused codes aside) |
| FressianFormat.BigEndianInverse | jepsen/src/jepsen/store/FressianReader.java:400-449 | big-endian writing inverts the raw reads, for every byte sequence |
| FressianFormat.BigEndianConcat | jepsen/src/jepsen/store/FressianReader.java:400-449 | raw reads are big-endian: what comes first weighs more, and one byte is itself |
| FressianFormat.AsciiIs | jepsen/src/jepsen/store/FressianReader.java:515-577 | a predefined type's tag is its name, one byte per character |
| FressianFormat.CleanHidesNothing | jepsen/src/jepsen/store/FressianReader.java:883-884 | a value that counts as free of the placeholder has it at the end of no path through tags, fields and items |
| FressianWriter.TypeCodes | jepsen/src/jepsen/store/FressianReader.java:515-577 | each predefined type is read under its own code, with its own name and number of fields, as the writer's table has them |
| FressianLanguage.UnusedCodes | jepsen/src/jepsen/store/FressianReader.java:692-693 | the codes without an arm, listed one by one, are refused, and every other code is read as something |
| FressianWriter.PlacedIsEncodable | jepsen/src/jepsen/store/FressianReader.java:672-683 | whatever can be written in any legal way at all can be written without caches |
| FressianWriter.PlainPlaces | jepsen/src/jepsen/store/FressianReader.java:287-449 | the plain writer's encoding of any value is legal wherever it stands and means that value |
| FressianWriter.DecodesInt | jepsen/src/jepsen/store/FressianReader.java:291-449 | an integer is read back from every width that can hold it, negatives included |
| FressianWriter.DecodesBlob | jepsen/src/jepsen/store/FressianReader.java:579-615 | bytes, and the bytes of texts, are read back from every split into chunks |
| FressianWriter.DecodesDelimited | jepsen/src/jepsen/store/FressianReader.java:830-855 | closed lists are read back; open lists too, whether ended by the end code or, where nothing follows, by the end of input |
| FressianWriter.DecodesPut | jepsen/src/jepsen/store/FressianReader.java:940-946 | a cached object reads back as itself and its slot holds it afterwards |
| FressianWriter.DecodesStructType | jepsen/src/jepsen/store/FressianReader.java:672-678 | a struct with its type reads back as a tagged object and registers the type |
| FressianRuns.ObjectEvolves | jepsen/src/jepsen/store/FressianReader.java:287-696 | what every object read keeps: no placeholder in values or caches, no new pending slot, and, unless the caches are cleared, caches that only grow, lookups that never touch a pending slot and a byte count that matches what was consumed |
| FressianRuns.NoPlaceholderLeaks | jepsen/src/jepsen/store/FressianReader.java:883-896 | over every input, resets and footers anywhere: no returned value contains the placeholder, however deep, no slot stays pending, and there is one slot per PUT since the last clearing |
| FressianRuns.PendingSlotsAreOpenPuts | jepsen/src/jepsen/store/FressianReader.java:883-946 | the slots that hold the placeholder are exactly those of the PUTs whose object is being read: in a fresh reader, one PUT deeper whenever so before it, and after any completed reads unless they clear the caches inside a PUT |
| FressianRuns.PutOwnsItsSlot | jepsen/src/jepsen/store/FressianReader.java:940-946 | the k-th PUT since the last clearing, at any depth, has its value in slot k when complete and through every later read that clears nothing; nothing inside it looked up its slot or that of an enclosing PUT |
| FressianRuns.PendingReferenceFails | jepsen/src/jepsen/store/FressianReader.java:886-896 | a reference to an enclosing PUT fails, in both its forms |
| FressianRuns.NestedResetClobbers | jepsen/src/jepsen/store/FressianReader.java:685-689 | a concrete stream with a reset inside a PUT after which the first PUT since the reset does not own slot 0: the condition on slot ownership is needed |
| FressianRuns.ObjectWithin | jepsen/src/jepsen/store/FressianReader.java:283-285 | a read that does not run into the end of input is the same whatever follows its input and whatever came before |
| FressianRuns.FooterAccepted | jepsen/src/jepsen/store/FressianReader.java:902-913 | after a footer stating the true length, the reader does exactly what a fresh reader does |
| FressianRuns.FooterStatesCount | jepsen/src/jepsen/store/FressianReader.java:666-671 | where a footer code stands and an object is read, the input has the magic, exactly the number of bytes read before the footer, and four bytes more; so wrong magic, a wrong length and a short tail all fail |
| FressianRuns.FooterIff | jepsen/src/jepsen/store/FressianReader.java:902-913 | where a footer code stands, an object is read if and only if the footer states the number of bytes read before it and a fresh reader reads an object from what follows |
| FressianRuns.SegmentThenRest | jepsen/src/jepsen/store/FressianReader.java:666-671 | after a segment, arbitrary following bytes are decoded, or refused, exactly as a fresh reader would |
| FressianRuns.SegmentsAreIndependent | jepsen/src/jepsen/store/FressianReader.java:902-928 | concatenated segments decode to the concatenation of what a fresh reader decodes from each alone |
| CasRegister.ReplayMapIsPerKey | doc/tutorial/04-checker.md:59-74 | a map of registers accepts a sequence of operations iff each register accepts its own subsequence |
| CasRegister.ReplayIff | doc/tutorial/04-checker.md:59-74 | a register accepts a sequence if and only if every compare-and-set found, and every read that returned something returned, what the last write or compare-and-set before it put there; that is also what it ends with |
| Linearizability.Locality | doc/tutorial/06-refining.md:104-106 | operations on many keys are linearizable against a map of registers iff each key's operations are against one register |
| Linearizability.HeadIsFree | doc/tutorial/06-refining.md:104-106 | if the first operation of one order must wait for some operation of the other, then the other's first need not wait for any of the first's, so two orders can always be merged |
| Linearizability.MergeOrders | doc/tutorial/06-refining.md:104-106 | merging orders of different keys yields an order of all their operations: every completed one, no failed one, each once, real time respected |
| Linearizability.CrashedReadsMayFail | doc/tutorial/06-refining.md:36-40 | recording any crashed reads as failed leaves the verdict unchanged, where a crashed operation may take effect at any later time or never |
| Linearizability.SequentialIff | doc/tutorial/04-checker.md:94-97 | operations without concurrency are linearizable if and only if the register accepts them in the order they happened |
| Linearizability.FailedIff | doc/tutorial/06-refining.md:36-40 | an operation that failed never happened: the verdict is that on the others |
| Linearizability.CrashedIff | doc/tutorial/06-refining.md:12-18 | with a crashed operation, the verdict is positive if and only if it is so without it, or with it completed at the very end |
| Histories.BookKept | doc/tutorial/06-refining.md:12-18 | what the pairing of invocations with completions keeps: every process waits on at most one operation, distinct from all others', and only unfinished operations count as crashed |
| Histories.OperationAt | doc/tutorial/06-refining.md:159-184 | in the log: the operation invoked at a position is done, with the value its process's next event reports, if that event is ok; failed if it is a failure; crashed if it is an info or there is none |
| Histories.OperationInvoked | doc/tutorial/06-refining.md:12-18 | every operation was invoked: there are no others |
| Histories.PrecedesInLog | doc/tutorial/04-checker.md:94-97 | one operation precedes another if and only if its process's next event is an ok that stands before the other's invocation |
| Histories.WellFormedIff | doc/tutorial/06-refining.md:12-18 | the logs admitted: indices ascend, an invocation follows no unanswered one of its process, and a completion follows and answers one on the same key |
| Histories.SubhistoryOperations | jepsen/src/jepsen/independent.clj:271-325 | splitting a history by key and pairing commute: a subhistory's operations are the history's operations on that key, and it is well formed |
| Histories.SubhistoryIs | jepsen/src/jepsen/independent.clj:287-298 | a subhistory has exactly the events on its key |
| Histories.ConvertedOperations | doc/tutorial/06-refining.md:82-85 | turning timed-out reads into failures in the log changes the operations only by failing crashed reads |
| Histories.ConvertedRecord | doc/tutorial/06-refining.md:82-85 | after conversion every read whose process's next event says it timed out has failed, and every other operation is as before |
| Histories.ConversionIsSafe | doc/tutorial/06-refining.md:36-40 | that conversion leaves the verdict on a register's history unchanged |
| Histories.KeyVerdict | doc/tutorial/06-refining.md:159-184 | the verdict on a key's converted subhistory is the verdict on its operations in the whole history; keys that do not occur are fine |
| Histories.IndependentCheckIsExact | jepsen/src/jepsen/independent.clj:327-377 | a keyed history is linearizable iff, for every key that occurs in it, the subhistory with timed-out reads failed is linearizable against one register |
| Aerospike.SuccessionSorted | aerospike/spec/aerospike.tla:70-71 | the succession list is the set in strictly ascending order, each server once |
| Aerospike.ReplicasByRank | aerospike/spec/aerospike.tla:76-76 | the roster replicas are the roster members with fewer than ReplicationFactor members ahead of them |
| Aerospike.MasterByRank | aerospike/spec/aerospike.tla:83-83 | the roster master is the roster member with nobody ahead |
| Aerospike.QuorumIff | aerospike/spec/aerospike.tla:86-100 | the quorum rule in counts and ranks: more than half of the roster with a member of rank below ReplicationFactor, or exactly half with the first |
| Aerospike.Conservation | aerospike/spec/aerospike.tla:44-62 | in every reachable state, stored counts are at least 1 and, for each message, sent plus duplicated equals in flight plus received plus dropped |
| Aerospike.NetworkMoves | aerospike/spec/aerospike.tla:119-143 | whatever is in flight can be dropped, duplicated or received next, one copy at a time |
| Aerospike.InFlightWasSent | aerospike/spec/aerospike.tla:119-128 | a message in flight was once sent, between roster members |
| Aerospike.ReceivedWasSent | aerospike/spec/aerospike.tla:131-143 | whatever is received was sent earlier in the run |
| Aerospike.ViewIsEvidence | aerospike/spec/aerospike.tla:131-138 | in every reachable state a server's view is itself and exactly those it received a heartbeat from |
| Aerospike.ViewWithinRoster | aerospike/spec/aerospike.tla:106-143 | views stay within the roster |
| Aerospike.QuorumSetsIntersect | aerospike/spec/aerospike.tla:86-100 | any two sets that satisfy the three-way quorum rule share a member |
| Aerospike.QuorumsIntersect | aerospike/spec/aerospike.tla:95-143 | in every reachable state, two servers that believe they have quorum have overlapping views |
| Aerospike.NoSplitBrain | aerospike/spec/aerospike.tla:95-143 | if the roster is split in two and no heartbeat is received across the split, servers on both sides never have quorum |
| Aerospike.QuorumGrows | aerospike/spec/aerospike.tla:76-100 | with at least one replica, a superset of a quorum is one, including from half with master to majority |
| Aerospike.ViewsGrow | aerospike/spec/aerospike.tla:131-143 | views only grow along every run |
| Aerospike.QuorumIsStable | aerospike/spec/aerospike.tla:76-143 | with at least one replica, a server that has quorum keeps it along every run |
| Aerospike.HearFrom | aerospike/spec/aerospike.tla:125-143 | from any reachable state a server can come to hear from any set of roster members |
| Aerospike.QuorumCanBeLost | aerospike/spec/aerospike.tla:76-100 | with no replicas and an even roster some run loses a quorum |
| Aerospike.StableIff | aerospike/spec/aerospike.tla:38-143 | quorum is never lost, on any run, iff there is a replica or the roster is odd or empty |
| ChunkLayout.ValidateOpts | jepsen/resources/corrupt-file.c:145-185 | options are accepted iff they satisfy every check, spelled out, which is everything the modes rely on |
| ChunkLayout.ChunkCount | jepsen/resources/corrupt-file.c:304-321 | quotient and remainder give the number of chunks it takes to use up the region, clipped to the file |
| ChunkLayout.ChunksExact | jepsen/resources/corrupt-file.c:299-321 | the chunks counted are exactly those that start inside both file and region |
| ChunkLayout.AffectedIff | jepsen/resources/corrupt-file.c:299-321 | a byte is affected iff it lies, clipped to file and region, in a counted chunk the modulus selects |
| ChunkLayout.PossibleSkips | jepsen/resources/corrupt-file.c:431-433 | below probability 1 any pattern of skipped chunks is possible, at 1 none is skipped |
| ChunkLayout.SkippedIff | jepsen/resources/corrupt-file.c:430-433 | the chunk visited k-th is skipped when the k-th draw exceeds the probability |
| BitFlip.CorruptBitflip | jepsen/resources/corrupt-file.c:563-669 | for any draws, the in-place loop over chunks turns the file into the original with a given list of bits of the concatenated selected chunks flipped, and reports their number |
| BitFlip.FlipsAreSelected | jepsen/resources/corrupt-file.c:606-664 | those bits are strictly ascending and all lie in affected bytes |
| BitFlip.FlipAt | jepsen/resources/corrupt-file.c:599-657 | the i-th flip is at the first draw plus, for each later draw, that draw but at least 1; flips go on until a position lies beyond the region |
| BitFlip.Masks | jepsen/resources/corrupt-file.c:621-622 | bit i of a byte is the one worth two to the i |
| BitFlip.LocateOnto | jepsen/resources/corrupt-file.c:592-603 | every affected byte is a byte of the concatenation |
| BitFlip.PossibleFlips | jepsen/resources/corrupt-file.c:599-657 | the lists of bits that some draws flip are exactly the strictly ascending ones in affected bytes |
| BitFlip.LeaveChunk | jepsen/resources/corrupt-file.c:659-663 | subtracting a chunk's size on leaving it, also the last, clipped one's, keeps the flips still to come |
| BitFlip.FlipAllBitAt | jepsen/resources/corrupt-file.c:619-657 | afterwards a bit differs from the original iff it was listed |
| BitFlip.FlipDistance | jepsen/resources/corrupt-file.c:639-657 | the Hamming distance from the original is exactly the number of flips |
| BitFlip.FlipTwice | jepsen/resources/corrupt-file.c:619-657 | flipping the same bits again restores the file |
| BitFlip.BitflipEffect | jepsen/resources/corrupt-file.c:563-669 | for any draws: distance equals bits flipped, bytes outside the affected chunks are unchanged, a second run with the same draws restores the file |
| ChunkCopy.LegalSourceExists | jepsen/resources/corrupt-file.c:496-510 | with two or more chunks one of the first two is legal to copy from |
| ChunkCopy.RandSourceOffset | jepsen/resources/corrupt-file.c:485-514 | no source with fewer than two chunks; otherwise the first legal chunk rolled, for any rolls |
| ChunkCopy.CopyChunk | jepsen/resources/corrupt-file.c:533-551 | one copy, in place, as CopyOneIs says byte by byte |
| ChunkCopy.CopyOneIs | jepsen/resources/corrupt-file.c:533-551 | a copy overwrites every byte of the destination chunk that lies in region and file with the byte as far into the source, if the file has one, and no other byte |
| ChunkCopy.ToCopyIff | jepsen/resources/corrupt-file.c:528-532 | a chunk is overwritten if and only if there are two chunks, it is selected, and the draw at its turn does not exceed the probability |
| ChunkCopy.RunBytes | jepsen/resources/corrupt-file.c:517-560 | a run, byte by byte: every byte of a selected chunk not skipped comes from another chunk, an unselected one for modulus above 1, as the file was just before; no other byte changes |
| ChunkCopy.CorruptCopy | jepsen/resources/corrupt-file.c:517-560 | carries out, in order and in place, a plan of copies whose destinations are exactly the selected chunks not skipped and whose sources are the successive first legal rolls, for any draws and rolls |
| ChunkCopy.RunsUnique | jepsen/resources/corrupt-file.c:485-560 | draws and rolls determine the plan carried out |
| ChunkCopy.PossiblePlans | jepsen/resources/corrupt-file.c:485-560 | every plan that copies the chunks not skipped from legal sources is one that some rolls lead to |
| ChunkCopy.SourceApart | jepsen/resources/corrupt-file.c:499-510 | source and destination of a legal copy never overlap |
| ChunkCopy.CopyAllIsSimultaneous | jepsen/resources/corrupt-file.c:517-560 | for modulus at least 2, copying in place one after the other is copying all at once from the original |
| ChunkCopy.OrderIrrelevantIff | jepsen/resources/corrupt-file.c:485-560 | over all files of a size and all draws and rolls, a run copies as if at once iff the modulus is at least 2 or there are fewer than two chunks |
| Snapshots.CorruptSnapshot | jepsen/resources/corrupt-file.c:336-410 | saves each selected chunk under its start and end |
| Snapshots.SavedIff | jepsen/resources/corrupt-file.c:362-404 | what is saved: the bytes of each selected chunk under its own name, and under every other name what the store had |
| Snapshots.CorruptRestore | jepsen/resources/corrupt-file.c:413-480 | the file after looking up each selected chunk not skipped under its start and the accumulated end, and writing back what is found, past the end of a file that has shrunk |
| Snapshots.RestoredAt | jepsen/resources/corrupt-file.c:429-475 | in closed form, for every store, file, options and skips: which bytes restore writes, with what, and how long the file then is; the name looked up for a chunk ends at the number of unskipped chunks so far times the chunk size |
| Snapshots.WhatComesBack | jepsen/resources/corrupt-file.c:336-480 | snapshot, any edits that keep the length, restore, for any options, skips and older snapshots: the bytes of exactly the selected chunks looked up under their own name come back, all others stay unless an older snapshot lies under the wrong name |
| Snapshots.FoundUpToFirstSkip | jepsen/resources/corrupt-file.c:430-441 | for the options that can restore, the chunks found are exactly those before the first one skipped |
| Snapshots.RestoredUpToFirstSkip | jepsen/resources/corrupt-file.c:336-480 | for those options and any skips, exactly the bytes of the selected chunks before the first skipped one come back |
| Snapshots.CannotRestoreLosesTrack | jepsen/resources/corrupt-file.c:436-441 | outside the stated options some selected chunk is looked up under another name than it was saved under, although none is skipped |
| Snapshots.SkippedFirst | jepsen/resources/corrupt-file.c:430-437 | a concrete file of two chunks: with the first skipped, the second, which is not skipped, does not come back |
| Snapshots.SnapshotThenRestore | jepsen/resources/corrupt-file.c:336-480 | for those options: snapshot, any edits that keep the length, restore with nothing skipped brings every affected byte back and touches no other, whatever older snapshots exist |
| Snapshots.RestoreIff | jepsen/resources/corrupt-file.c:336-480 | on a file of this content, restore brings back every selected chunk it does not skip and touches nothing else, for all edits and all draws, iff (no chunk is selected, or the region starts the file and its first chunk is selected with all others or alone, or the region ends within one chunk size) and (probability is 1 or at most one chunk is selected) |
| SetUnionMerge.AddAll | hazelcast/server/java/jepsen/hazelcast/server/SetUnionMergePolicy.java:34-40 | adds an array's elements to the tree set in order |
| SetUnionMerge.Merge | hazelcast/server/java/jepsen/hazelcast/server/SetUnionMergePolicy.java:16-53 | a new, strictly ascending array of exactly the elements of both, null counting as empty |
| SetUnionMerge.MergedIsUnion | hazelcast/server/java/jepsen/hazelcast/server/SetUnionMergePolicy.java:31-50 | inserting into a tree set gives the ascending union |
| SetUnionMerge.AlwaysKept | hazelcast/server/java/jepsen/hazelcast/server/SetUnionMergePolicy.java:16-53 | at every moment of every run of merges, a replica holds exactly what it has heard of |
| SetUnionMerge.Convergence | hazelcast/server/java/jepsen/hazelcast/server/SetUnionMergePolicy.java:16-53 | replicas that have heard from the same replicas hold the same array, whatever the order, grouping and repetition of merges |
| OffsetStream.FileOffsetOutputStream.constructor | jepsen/src/jepsen/store/FileOffsetOutputStream.java:19-26 | an empty log over the file as it is |
| OffsetStream.FileOffsetOutputStream.BytesWritten | jepsen/src/jepsen/store/FileOffsetOutputStream.java:29-31 | the length of everything written so far |
| OffsetStream.FileOffsetOutputStream.Write | jepsen/src/jepsen/store/FileOffsetOutputStream.java:45-55 | appends the low eight bits to the log; file and checksum stay those of the log |
| OffsetStream.FileOffsetOutputStream.WriteAll | jepsen/src/jepsen/store/FileOffsetOutputStream.java:57-64 | appends the whole array to the log; file and checksum stay those of the log |
| OffsetStream.FileOffsetOutputStream.WriteRange | jepsen/src/jepsen/store/FileOffsetOutputStream.java:66-73 | appends the range, or throws and changes nothing if there is no such range; the source's own assertion holds iff the range starts at 0 |
| OffsetStream.OverlayTwice | jepsen/src/jepsen/store/FileOffsetOutputStream.java:45-73 | two writes, one right after the other, are one write of both |
| OffsetStream.OverlayIff | jepsen/src/jepsen/store/FileOffsetOutputStream.java:45-73 | what the file is for a given log, byte by byte: the region is the log, every other byte is as before |
| OffsetStream.FoldConcat | jepsen/src/jepsen/store/FileOffsetOutputStream.java:54-72 | a checksum fed piece by piece is the checksum of the concatenation |
| OffsetStream.FoldByte | jepsen/src/jepsen/store/FileOffsetOutputStream.java:54-54 | one byte is one step of the checksum |
| Timespec.NanosToTime | jepsen/resources/strobe-time.c:19-26 | keeps the total for either sign; normal exactly when no borrow is needed |
| Timespec.Cell.Balance | jepsen/resources/strobe-time.c:55-64 | for any input, keeps the total and ends normal, although the first loop overshoots |
| Timespec.AddTime | jepsen/resources/strobe-time.c:67-73 | the normal time of the sum of totals |
| Timespec.SubTime | jepsen/resources/strobe-time.c:76-82 | the normal time of the difference of totals |
| Timespec.NormalUnique | jepsen/resources/strobe-time.c:54-64 | a normal time is determined by its total |
| Timespec.CmpIsReversed | jepsen/resources/strobe-time.c:85-99 | on normal times, the reverse of the order of totals |
| Timespec.Bump | jepsen/resources/bump-time.c:14-45 | the normal time delta nanoseconds from now, either way |
| Timespec.Strobe | jepsen/resources/strobe-time.c:101-151 | over every run, the clock is set alternately to monotonic plus original offset plus delta and to monotonic plus original offset; unless reading or setting the clock or a sleep fails it ends, not before the duration is over, at monotonic plus original offset with no drift, however many strobes there were; each failure ends the run where it happens |
| Timespec.StrobeUntil | jepsen/resources/strobe-time.c:127-145 | the loop's settings alternate, one per pair of readings the first of which is before the end, until a reading is not before the end or a setting or a sleep fails |

## Left out

- Read handlers and the standard extension handlers: foreign code that may read on by itself. Every struct becomes a tagged object, also those with a predefined code (map, set, uuid and so on).
- The library classes Codes, RawInput and Fns are not part of this model. Code values are those of the Fressian wire format, raw reads are unsigned big-endian, and the Adler checksum in a footer is skipped, as it is by the reader Jepsen builds (jepsen/src/jepsen/store/fressian.clj:187-189).
- UTF-8 decoding, and doubles and floats as numbers: texts and floating-point values are their bytes.
- FressianReader.FressianReader.ReadStringBytes: the source decodes from the whole scratch buffer; that decoding looks at no byte past the length it is given is assumed, so the stale tail is shown not to matter for the bytes only.
- FressianReader.FressianReader.InternalReadChunkedString: the source decodes each chunk by itself, so joining bytes is joining characters only where chunks end at character boundaries.
- FressianWriter.DecodesBlob: for texts, likewise, a split inside a character is not covered.
- readBoolean, readFloat, readDouble and the public validateFooter: they repeat the dispatch and would add only easy members.
- FressianReader.FressianReader.HandleStruct: the two handler lookups before the fallback are left out, as if no handler were registered.
- FressianLanguage.AcceptedIff: says nothing of inputs with footers or with caches cleared inside a PUT; for footers see FressianRuns.SegmentsAreIndependent.
- Exhaustion of memory or stack by a large count or deep nesting.
- FressianReader.FressianReader.ReadObjects: does not model the array allocated up front for a huge count; such a read fails where the input ends.
- The Knossos search, generators, and un-keyed operations such as the nemesis's, which do not concern the register.
- The client side of the keyed test (etcd calls and error codes): only the types of the completions it produces.
- Arguments, modes, printed statistics other than the number of flipped bits, I/O errors, directories and path names of the corruption tool. Snapshots are named by (start, end), and copies go through up to the end of the file.
- Overflow of C's off_t, time_t and int64_t and of Java's long: these are unbounded here, while the 32-bit sums and casts of the Fressian reader are modelled.
- The distribution of random draws. BitFlip takes any sequence of natural numbers; none of them stands for the infinity that rand_exp_int converts to an offset at probability 0, and at any probability when drand48 returns 0 (corrupt-file.c:271-275), which C leaves undefined. Draws and outcomes of system calls past the end of a given sequence take a default, and a run uses finitely many.
- ChunkCopy.RandSourceOffset: a run that rerolls forever is not modelled; past the rolls given, the first two chunks come up in turn.
- Snapshots.CorruptRestore: a snapshot longer than its own name says, which saving never makes, is not modelled.
- Timespec.Strobe: the period matters only through whether sleeps succeed; a failing read of the monotonic clock, which the source does not check, is not modelled; the monotonic clock is a sequence of readings that passes every moment, without which the loop need not end.
- CRC32 arithmetic: a checksum is any function folded over the bytes.
- OffsetStream.FileOffsetOutputStream.WriteAll: the channel is taken to write all bytes it is given, as the source asserts.
- aerospike.tla's Reply and HasAllRosterReplicas, which Next never uses.
- strobe-time-experiment.c, and the CockroachDB clock programs, which repeat the same arithmetic.
