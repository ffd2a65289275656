# Verified model of desync

desync splits a blob into content-defined chunks, records them in an index, and rebuilds the blob
from chunk stores and from seeds, files that already hold part of it. It also packs directory trees
into catar archives. This project models the logic of that system in Dafny and proves what it
promises, for every input and, where several goroutines are at work, for every interleaving.

| files | what they cover |
|---|---|
| `Boundary`, `RollingHash`, `Chunking`, `Chunker` | the division-free boundary test, the rolling hash, what a chunk list is, and the buffering chunker that computes it |
| `Parallel`, `ParallelProof`, `ParallelLive`, `ParallelExample` | chunking one file with N workers, as a step relation |
| `Format`, `Encoder`, `Decoder`, `GoodbyeBst`, `Catar`, `Tar`, `Archive`, `ArchiveProof` | the catar writer and reader, byte for byte |
| `IndexFile` | index files |
| `Planning`, `Sequencer`, `Retry` | seeds, plans and the validate and retry loop |
| `SelfSeed`, `Assembly`, `AssemblyProof`, `AssemblyLive`, `AssembleFile`, `Cloning` | assembling the target with N workers, and copying or cloning ranges |
| `IndexedBlob`, `ReadSeeker`, `SparseFile`, `SparseProof`, `SparseLive` | the seekable reader and the copy-on-read file |
| `DedupQueue`, `DedupLive`, `Failover` | the concurrent request protocols |
| `Prelude` | what the others share |

Code that updates variables or objects step by step is modelled by methods and classes, each proved
against a function or property of its inputs. Concurrent code is modelled as a state machine: a
`State`, an `Action` for every atomic step, `Enabled` and `Apply`, and `Reaches` for whole runs; the
theorems hold of every state any run reaches. For each of them it is proved what makes a run fail, and
that a run that has not failed can be brought to a successful end.

Hypotheses that the theorems name explicitly: the digest identifies the chunks of the index at hand
(no other bytes have one of its IDs), the store returns the data it was asked for or an error, and the
hash table, the discriminator and SipHash are parameters. While a file is assembled, a seed may write
anything at any time into its own segment, but nothing outside it, and a copy from the self-seed, which
the source does not check afterwards, is exact. Both go through the same copying and cloning code, and
`WriteInto` and `CloneIsExactIff` say when they hold: always without reflinks or where source and target differ in
alignment, and otherwise for ranges that cross two block starts, as every range of two blocks or more does.

Several natural claims are false of the code. For each there is a concrete run or input, and the exact
condition under which the claim holds:

- Parallel chunking can lose the tail of a file (`TailCanBeLost`); it is complete exactly if no worker
  handed over past the worker at which the collector stopped before the file ended (`CompleteIff`), in
  particular if no worker that had reached the end of the file was stepped over, and always with at most
  two workers (`CompleteWithTwoWorkers`).
- The division-free test differs from `IsBoundary` at one hash value, and never fires for a power of
  two (`FastTestExact`, `PowerOfTwoNeverFires`).
- Cloning a range can write more than the range (`CloneCopiesTooMuch`); whatever source and target hold,
  a clone that succeeds is exact exactly if the source has the range and either two block starts are
  crossed or the range ends the source (`CloneIsExactIff`). Clearing a range can clear more than the
  range (`CloneClearsTooMuch`); it is exact exactly if the range reaches the next block start
  (`ZerosAreExactIff`).
- A failed load of the copy-on-read file is forgotten (`FailedLoadIsForgotten`); a read is right exactly
  if the file already had what failed loads lost of its range (`ReadIsRightIff`).
- A call to a failover group can give up without having asked all of its stores
  (`GivesUpWithoutAskingAll`); that can happen exactly if no store is reliable and there are two stores
  and two calls or more (`AsksAllUnless`). Giving up at all is possible exactly if no store is reliable
  (`GivesUpIff`).

Where comments and code disagree, the model follows the code: the bit counts in the comments of
`modInverse32` are one iteration late (the start value is already right modulo 8), and the comment on
`hThreshOdd` says ceil(2^32 / odd), which for an odd part of 1 is truncated to 0.

## Model

| member | source | states |
|---|---|---|
| Boundary.NewtonStepDoubles | chunker.go:22-26 | one Newton step squares the modulus to which x is the inverse of d |
| Boundary.ModInverseCorrect | chunker.go:20-28 | for every odd d, the five steps give the inverse of d modulo 2^32 |
| Boundary.DivisibilityByInverse | chunker.go:272-276 | multiplying by the inverse lands at or below (2^32 - 1) / o exactly on the multiples of o |
| Boundary.FastTestIsDivisibility | chunker.go:151-171 | the precomputed constants make the test fire exactly if the wrapped difference h - (d-1) is a multiple of d |
| Boundary.FastTestExact | chunker.go:272-276 | the fast test equals IsBoundary for every 32-bit hash except d - 1 - 2^32 % d, where it fires and IsBoundary does not |
| Boundary.PowerOfTwoNeverFires | chunker.go:157-159 | for a power of two the threshold truncates to 0 and no hash passes |
| RollingHash.HashRoll | chunker.go:258-260 | rotating, dropping the byte that leaves and adding the one that enters gives the hash of the moved window computed from scratch |
| RollingHash.RotlIsRotateLeft | chunker.go:229 | n one-bit rotations are the shifts `x << n` and `x >> (32 - n)` put together, n taken modulo 32 |
| RollingHash.WindowHashIs | chunker.go:225-231 | the hash of a window is the exclusive or of its table entries, each rotated to the left by exactly the number of bytes after it |
| RollingHash.HashHeadOut | chunker.go:356-358 | the oldest byte of a window contributes its table entry rotated by the number of bytes after it |
| RollingHash.Rotl48 | chunker.go:97-105 | rotating by the window size of 48 swaps the halves of the word, so the table rotated ahead of time is right |
| ChunkerImpl.InitialHash | chunker.go:228-230 | the seeding loop with decreasing rotations gives the hash of the window |
| ChunkerImpl.Hash.Initialize | chunker.go:363-368 | the window holds the given bytes and the value is their hash |
| ChunkerImpl.Hash.Roll | chunker.go:351-359 | the circular window loses its oldest byte and gains b, and the value stays the hash of the window |
| ChunkerImpl.Reader.Read | chunker.go:191-200 | a reader may fragment its stream in any way; what it returns and what is left make up the stream; the chunker does not read on after the end |
| Chunking.FirstCut | chunker.go:249-281 | the first size from k on whose window passes the test, with none before it, else the upper bound |
| Chunking.Cut | chunker.go:216-223 | chunks are positive, at most max, and end inside the data |
| Chunking.CutShift | chunker.go:284-295 | a cut depends only on the bytes ahead of it |
| Chunking.Stream.ChunksAreRun | chunker.go:208-295 | the chunk list is gap-free from its start to the end of the data |
| Chunking.Stream.RunIsPrefix | chunker.go:208-295 | any run of successive cuts is a prefix of the chunk list, followed by the chunk list from where it ends |
| Chunking.Stream.SharedCut | chunker.go:208-295 | two chunkers that share one cut agree from there on |
| Chunking.Stream.NullCut | make.go:80-83 | if max zero bytes are one chunk somewhere, they are one chunk everywhere |
| ChunkerImpl.Chunker.constructor | chunker.go:136-173 | a new chunker has the whole stream pending and starts at 0 |
| ChunkerImpl.Chunker.FillBuffer | chunker.go:177-202 | refilling, with the overlapping move to the front, loses and reorders nothing, and ends with max bytes buffered or the stream used up |
| ChunkerImpl.Chunker.Scan | chunker.go:225-282 | the inlined loop over the circular window stops at the first cut of the specification |
| ChunkerImpl.Chunker.Split | chunker.go:284-295 | the chunk and what is still pending make up what was pending |
| ChunkerImpl.Chunker.Next | chunker.go:208-282 | however the stream is fragmented, the chunk is the next bytes, starts where the last one ended, and has the size the specification gives; it fails exactly if a read did |
| ChunkerImpl.Chunker.Advance | chunker.go:301-318 | skipping n bytes leaves the chunker as if the stream went on from there; if the reader fails, it has moved part of the way |
| ChunkerImpl.CutOfBuffer | chunker.go:216-223 | the cut found in the buffer is the cut of the whole stream |
| ChunkerImpl.ChunkAll | chunker.go:208-282 | repeated calls of Next give the chunk list of the stream, and a prefix of it exactly if the reader fails |
| ParallelProof.ReportsAreReal | make.go:213-231 | in every interleaving, when syncWith has reported n zero bytes, that many lie ahead of the worker, whose last chunk is a null chunk (the two offsets in the count cancel), and the floor(n/max) null chunks to be emitted are the next ones of single-stream chunking |
| ParallelProof.JumpEmits | make.go:218-231 | such a report makes the worker emit exactly the null chunks that fit into n and move its chunker past them |
| ParallelProof.EmittedChunksAreReal | make.go:220-229 | in every interleaving, while a worker emits null chunks, those to come are the next of single-stream chunking and reach exactly to where Advance has moved its chunker |
| ParallelProof.SkippedChunksAreReal | make.go:218-231 | k times max zero bytes, once a null chunk has been seen, are cut into k null chunks |
| ParallelProof.InitKeeps | make.go:68-126 | the workers as they are started satisfy the invariant |
| ParallelProof.WorkerCount | make.go:68-73 | there are n workers unless the file is too short to give each of them max bytes, and then as many as it takes |
| ParallelProof.WorkersStart | make.go:85-120 | workers start at 0 and at equal distances, each linked to the next |
| ParallelProof.StepKeeps | make.go:178-239 | every step of a worker or of the collector keeps the invariant |
| ParallelProof.RunKeeps | make.go:132-308 | every state of every interleaving satisfies the invariant |
| ParallelProof.CollectedIsPrefix | make.go:132-148 | in every interleaving of any number of workers the index collected so far is a gap-free prefix of what a single chunker gives |
| ParallelProof.CompleteIff | make.go:132-148 | a run that ends collects the whole list if and only if the worker the collector stopped at was not stepped over by one that handed over before the end of the file |
| ParallelProof.CompleteUnlessEofSkipped | make.go:233-237 | the whole list is collected whenever no worker stepped over one that had set eof |
| ParallelProof.CompleteWithTwoWorkers | make.go:68-73 | with one or two workers, which the caller's n and the file size decide, every run that ends is complete |
| ParallelLive.StepLess | make.go:178-308 | every step of a worker or of the collector leaves less to do, so no run goes on for ever |
| ParallelLive.NeverStuck | make.go:178-308 | in every interleaving, as long as the collector has not ended somebody can move, and not by failing |
| ParallelLive.FailsOnlyByFailure | make.go:138-142 | a run fails only if a worker met an error |
| ParallelLive.FailureIsReported | make.go:139-142 | an error of the first worker is the outcome |
| ParallelLive.EveryRunCanFinish | make.go:132-149 | every run without an error, whatever its steps, can be brought to its successful end |
| ParallelExample.TailCanBeLost | make.go:143-147 | a run of four workers over 601 zero bytes with max 100 that ends without error and without the last chunk |
| GoodbyeBst.FillCorrect | format.go:648-666 | below slot i the in-order walk of the heap is the given items in order, and no other slot changes |
| GoodbyeBst.Bst | format.go:648-666 | filling the array in place gives what the recursive specification gives |
| GoodbyeBst.MakeGoodbyeBst | format.go:628-646 | sorting and filling gives the specified table |
| GoodbyeBst.TableIsBst | format.go:628-646 | for every item list the table is a permutation of it whose in-order walk ascends by hash, and by offset where hashes are equal |
| GoodbyeBst.InOrderIsPermutation | format.go:648-666 | the in-order walk visits each slot exactly once |
| GoodbyeBst.Lookup | format.go:622-666 | heap descent finds an item with a hash if and only if there is one |
| Format.LeRoundTrip | writer.go:16-23 | little-endian numbers read back as written |
| Format.DecodeEncode | format.go:146-440 | every valid element decodes to itself and leaves the rest of the stream untouched |
| Format.PayloadLengthIs | format.go:265-271 | a payload is what its size declares, or what there is of it; a size that gives no signed 64-bit length holds nothing |
| Encoder.PutUint64 | writer.go:16-23 | dividing by 256 eight times gives the little-endian bytes |
| Encoder.FormatEncoder.WriteUint64 | writer.go:16-23 | the numbers one after the other, eight bytes each |
| Encoder.FormatEncoder.WriteGoodbye | format.go:566-580 | header and items, with the running count equal to the bytes written |
| Encoder.FormatEncoder.WriteTable | format.go:592-620 | header, rows and the tail that repeats the table's own length taken from the running count |
| Encoder.FormatEncoder.Encode | format.go:451-624 | for every kind of element, the writes add up to its encoding and the counts to its length |
| Tar.FsBufReader.Next | tar.go:213-220 | the entry put back, if any, comes first; otherwise the next one |
| Tar.FsBufReader.Buffer | tar.go:222-224 | an entry put back is the next one delivered |
| Catar.KeysAscend | tar.go:74-79 | the sorted attribute names are the given ones, each once, in ascending byte order: a proper prefix first, otherwise the smaller byte where two first differ |
| Catar.HeadIs | tar.go:59-91 | a node starts with its entry, then has one element per attribute, name, zero byte and value, in that order |
| Tar.TarHead | tar.go:59-91 | the entry and the attributes are written and counted |
| Tar.TarChildren | tar.go:97-137 | each child's name and encoding in order, with start and size of each noted, and nothing consumed beyond the directory |
| Tar.FixOffsets | tar.go:139-143 | offsets become distances back from the goodbye element |
| Tar.TarDir | tar.go:94-164 | the children followed by the goodbye element, and the bytes counted |
| Tar.TarNode | tar.go:36-205 | for every tree delivered depth first, the node's encoding is written, exactly its entries are consumed, and n is the number of bytes written |
| Tar.WriteArchive | tar.go:29-34 | the archive of a tree is the encoding of its elements |
| ArchiveProof.TreeValid | tar.go:36-205 | every element of an archive is one that decodes |
| Decoder.Uint64 | reader.go:14-21 | folding the bytes from the highest down gives the little-endian number |
| Decoder.FormatDecoder.ReadGoodbyeItems | format.go:346-363 | the loop reads the items the specification reads, or fails where it does |
| Decoder.FormatDecoder.ReadTableRows | format.go:397-410 | rows up to the first offset of zero |
| Decoder.FormatDecoder.Next | format.go:146-440 | after skipping what is left of the last payload, reading word by word gives the element the specification decodes, nil at the end, or an error |
| Decoder.FormatDecoder.ReadPayload | format.go:146-152 | reading part of a payload does not change where the next element starts |
| Archive.ParseEncoded | format.go:146-440 | a stream of encoded elements parses into those elements |
| Archive.ArchiveDecoder.Take | archive.go:90-103 | the element put aside comes first |
| Archive.ArchiveDecoder.Next | archive.go:76-216 | a call returns the node the elements ahead describe, and leaves the rest pending |
| Archive.Untar | untar.go:15-50 | repeated calls of Next deliver all nodes, or fail if the archive is malformed |
| Archive.StaleName | archive.go:147-162 | a name left over from a node that was skipped is never used |
| Archive.ExtrasAreIgnored | archive.go:108-115 | users, groups, labels, capabilities and access lists change nothing about the nodes found, wherever they stand |
| Archive.MalformedIsRejected | archive.go:102-146 | contents without an entry, a second entry, an attribute without a zero byte and elements of an index are errors |
| Archive.MixedContents | archive.go:174-213 | of several kinds of content a payload makes a file, otherwise a device wins over a symlink, in whatever order they come |
| ArchiveProof.ArchiveRoundTrip | archive.go:76-216 | for every tree rooted at a directory, decoding what tar wrote gives its nodes in order, with paths, attributes and contents, and unsupported kinds vanish |
| ArchiveProof.TarThenUntar | untar.go:15-50 | writing an archive and reading it back, as methods, delivers exactly the supported nodes and never fails |
| ArchiveProof.ItemLocates | tar.go:132-143 | an item's offset counted back from the goodbye is where the child's filename element starts, and its size spans the child's whole encoding |
| ArchiveProof.EveryItemLocates | tar.go:139-146 | every item of the goodbye table locates a child |
| ArchiveProof.EveryChildLocated | tar.go:139-146 | every child is located by an item of the goodbye table |
| ArchiveProof.ItemFindsName | tar.go:113-136 | decoding at the located offset gives the filename whose hash the item carries |
| ArchiveProof.TailItem | tar.go:148-164 | the tail item reaches back to the directory's own entry and carries the length of the goodbye element |
| IndexFile.WriteTo | index.go:90-124 | the bytes of the index and their number |
| IndexFile.IndexFromReader | index.go:36-86 | reading with running offsets gives what the specification reads, errors included |
| IndexFile.IndexOutcome | index.go:36-86 | reading any index that was written gives the wrong digest exactly if bit 61 of its flags does not name the library's, otherwise an error exactly if a chunk exceeds the index's own limit, otherwise the same index |
| IndexFile.IndexRoundTrip | index.go:36-124 | every contiguous index below 2^64 within its own limit and with a matching digest flag reads back as written |
| SelfSeed.Seed.Add | selfseed.go:38-68 | adding a segment changes the fields as the specification says |
| SelfSeed.Seed.GetChunk | selfseed.go:71-80 | a position is found exactly if some chunk below `written` has the ID, and it is the first such |
| SelfSeed.AddSettles | selfseed.go:38-68 | after an add, `written` is again the end of the longest initial run, all below it is recorded, and the cache holds later segments only |
| SelfSeed.AnyOrder | selfseed.go:38-68 | the same after any segments added in any order |
| SelfSeed.AllAdded | selfseed.go:38-68 | after all segments, in whatever order, all chunks are recorded and the cache is empty |
| SelfSeed.RecordedPositions | selfseed.go:55-62 | the list of an ID is exactly its positions below `written`, ascending |
| Planning.FileSeed.constructor | fileseed.go:23-35 | positions are recorded for every chunk of the seed's index |
| Planning.FileSeed.RegenerateIndex | fileseed.go:81-97 | index and positions are replaced and the seed is valid again |
| Planning.FileSeed.MaxMatchFrom | fileseed.go:113-135 | the longest run from position p that matches, within the limit |
| Planning.FileSeed.LongestMatchWith | fileseed.go:41-79 | the longest run anywhere in the seed that matches, within the limit of 100 chunks without reflinks; none exactly if the seed is invalid or lacks the chunk |
| Planning.LongestNullMatch | nullseed.go:45-74 | the longest run of null chunks, within the same limit |
| Planning.SameIdsSameBytes | fileseed.go:156-162 | runs with the same IDs have the same length in bytes |
| Sequencer.SeedSequencer.Pick | sequencer.go:56-69 | the largest offer of all seeds, or none if no usable seed has the chunk |
| Sequencer.SeedSequencer.Next | sequencer.go:56-74 | the next segment starts where the last ended and takes the largest offer, or is one chunk that no usable seed holds |
| Sequencer.SeedSequencer.Plan | sequencer.go:41-50 | the plan covers the index exactly once and every segment is chosen so; for an empty index it is one segment of a chunk that does not exist |
| Sequencer.SegmentMatches | sequencer.go:56-74 | a sourced segment matches its source ID for ID and in byte length, and a null section covers null chunks only |
| Retry.ValidateSegment | fileseed.go:183-195 | a segment is valid exactly if every chunk can be read and has its ID |
| Retry.Validate | sequencer.go:104-176 | it succeeds exactly if no segment of a named seed file fails; otherwise a seed at fault is marked, and only seeds at fault are |
| Retry.RegenerateInvalidSeeds | sequencer.go:88-99 | every invalid seed gets an index of its file and all others stay as they are; it fails only at a seed whose file cannot be read |
| Retry.SkipProgress | assemble.go:252-262 | a failed validation leaves fewer usable seeds |
| Retry.RegenerateProgress | assemble.go:247-251 | regenerating leaves fewer seeds whose index disagrees with their file |
| Retry.SeedsCounted | assemble.go:247-262 | the bounds of the retry loop count file seeds, and those still usable, and nothing else |
| Retry.FindPlan | assemble.go:238-266 | over any run of validations, a plan that covers the index and whose seed files have its chunks; skipping takes at most one attempt more than there are usable file seeds whatever happens to the files, regenerating at most one more than there are file seeds if they stay the same; it gives up only on a plan that fails, and when regenerating only at a file that cannot be read |
| AssemblyProof.ActionKeeps | assemble.go:169-233 | every step of a worker keeps the invariant on regions, ownership and the self-seed |
| AssemblyProof.RunKeeps | assemble.go:169-283 | so does every interleaving |
| AssemblyProof.AssemblyCorrect | assemble.go:31-81 | in every interleaving of N workers, byte by byte, a run without error ends with the target equal to the blob, whatever the file held and whatever the seeds wrote |
| AssemblyLive.RunFailsOnlyIf | assemble.go:169-233 | a run fails only if a worker met an error from outside, or found a seed's data wrong with no repair asked for |
| AssemblyLive.EveryRunCanComplete | assemble.go:169-283 | with at least one worker, and with seeds that are repaired or none, every run that has not failed can be completed, and the target is then the blob |
| AssemblyLive.SeedsWriteAnything | assemble.go:178-185 | while a worker copies from a seed, any byte of its segment may become anything |
| AssemblyLive.AcceptedIff | assemble.go:187-204 | after a seed was written its chunks are accepted exactly if they are the blob's; one that is not is repaired if that is asked for, and an error otherwise |
| AssemblyLive.InPlaceIff | assemble.go:32-50 | a chunk is left alone exactly if the target is not blank and has it |
| AssemblyLive.FetchedIff | assemble.go:52-66 | otherwise it is copied from the first place in the finished part of the file that has it, and fetched from the store exactly if there is none |
| AssembleFile.PlannedAssemblyIsCorrect | assemble.go:169-283 | assembling along a plan of the sequencer rebuilds the blob |
| AssembleFile.PlannedAssemblyCanComplete | assemble.go:169-283 | and every run that has not failed, with seeds that are repaired or none, can be completed |
| AssembleFile.PlanFile | assemble.go:235-284 | every run of the workers that ends without error, over the plan the retry loop ends with, rebuilds the blob, and runs that have not failed can be completed; when the loop is sure to end with a plan or at all |
| Cloning.CopyRange | fileseed.go:199-211 | however the reads are fragmented, the pieces make up one write of the range, as far as the source goes |
| Cloning.CloneRange | ioctl_linux.go:42-59 | cloned blocks read as the source's; length 0 reaches to the end of the source; it succeeds exactly if the kernel clones into the file and the range lies in the source |
| Cloning.CloneOffsets | fileseed.go:220-224 | source and target are aligned alike and the middle is whole blocks; inside one block the length wraps around |
| Cloning.Clone | fileseed.go:215-241 | it succeeds exactly if the kernel does, source and target are aligned alike, and the blocks inside the range, at least one block start, lie in the source; with two block starts or more the range is written as far as the source goes, with one everything to the end of the source follows, and the counts add up |
| Cloning.CloneIsExactIff | fileseed.go:215-241 | a clone that succeeds is exact for all contents if and only if the source has the range and it crosses two block starts or ends the source |
| Cloning.CloneCopiesTooMuch | fileseed.go:223-240 | four bytes over a block start after which the clone goes on to the end of the source |
| Cloning.WriteInto | fileseed.go:164-178 | when it succeeds, and what it writes in every such case: exactly the segment if the source still has it and it is copied, crosses two block starts, or ends the source; a wrong length changes nothing |
| Cloning.Tiled | fileseed.go:226-240 | head, tail and cloned middle together are one write of the range |
| Cloning.CloneBlocks | nullseed.go:151-157 | the loop clears exactly the whole blocks |
| Cloning.CloneZeros | nullseed.go:133-158 | a range that reaches the next block start is cleared and nothing else is; inside one block the whole block is cleared, and the counts |
| Cloning.ZerosAreExactIff | nullseed.go:133-158 | clearing is exact for all contents if and only if the range reaches the next block start |
| Cloning.CloneClearsTooMuch | nullseed.go:139-149 | two bytes inside a block of four, where the whole block is cleared and a shorter file grows |
| Cloning.WriteZeros | nullseed.go:106-121 | the section ends up as zeros, without writing if the target is blank and cannot be reflinked; with reflinks, what CloneZeros says |
| IndexedBlob.SearchEnd | readseeker.go:66-69 | bisection finds the first chunk that ends beyond the position |
| IndexedBlob.FoundHolds | readseeker.go:66-78 | the chunk found is the one that holds the position, and there is none exactly at or past the end |
| ReadSeeker.IndexPos.constructor | readseeker.go:27-35 | a new reader is at position 0 of the blob |
| ReadSeeker.IndexPos.FindOffset | readseeker.go:44-90 | every position up to the length can be reached; beyond it nothing changes |
| ReadSeeker.IndexPos.LoadChunk | readseeker.go:92-109 | the current chunk's data, from memory for the null chunk; a failing store changes nothing |
| ReadSeeker.IndexPos.Seek | readseeker.go:112-133 | it succeeds exactly for targets from 0 to the length and then moves there, in 64-bit arithmetic; otherwise it stays |
| ReadSeeker.IndexPos.Read | readseeker.go:135-161 | the bytes delivered are the blob's from the position on, the position moves by their number, the read is full unless it meets the end or a failing store, it fails exactly if the store did, and the rest of the buffer is untouched |
| SparseFile.IndexRange | sparse-file.go:182-202 | exactly the chunks that overlap the range; the last one for a range past the end |
| SparseFile.ChunksNeeded | sparse-file.go:205-220 | the chunks of the range that are neither done nor null, in order |
| SparseProof.StepKeeps | sparse-file.go:205-262 | every step of a read or preload keeps the invariant on bytes, bitmap and `once` |
| SparseProof.RunKeeps | sparse-file.go:205-262 | so does every interleaving |
| SparseProof.ReadReturns | sparse-file.go:139-144 | in every interleaving a read that ends without error delivers as many bytes as were asked for and the blob has, each of them the blob's, or what the file held at the start where a failed load lost it |
| SparseProof.ReadIsRightIff | sparse-file.go:231-262 | such a read returns the blob's bytes if and only if the file had from the start what failed loads lost of its range |
| SparseProof.ReadsAreRight | sparse-file.go:139-144 | without a failed load every read returns exactly the blob's bytes of the range it was called with, cut off at the end of the blob |
| SparseLive.EveryReadCanFinish | sparse-file.go:205-262 | whatever the others do, a read that has begun and not failed can be brought to a successful end without any load failing |
| SparseLive.ErrorIsOwnFailure | sparse-file.go:223-227 | a read fails only if a load of its own does |
| SparseLive.LoadedOnce | sparse-file.go:231-233 | a chunk whose load has begun is never loaded again |
| SparseProof.MarkedChunksAreInFile | sparse-file.go:268-274 | whenever the state is saved, every chunk it marks is in the file |
| SparseProof.RestartIsValid | sparse-file.go:279-289 | a saved state with the file as it is at any later time is a valid start for the next process |
| SparseProof.BlankIsValid | sparse-file.go:86-90 | a blank file of full length is a valid start |
| SparseProof.FailedLoadIsForgotten | sparse-file.go:231-262 | a run in which a load fails and the next read of that chunk ends without error and returns zeros |
| DedupQueue.StepKeeps | dedupqueue.go:30-134 | every step of a call keeps the invariant on requests, queue and calls |
| DedupQueue.OneUpstreamCall | dedupqueue.go:30-57 | in every interleaving at most one call per kind and chunk is at work in the store |
| DedupQueue.ClosedExactlyOnce | dedupqueue.go:129-134 | a request's `done` is never closed twice, is open when it is about to be closed, and closed when its leader has returned |
| DedupQueue.CallsReturnTheirRequest | dedupqueue.go:30-77 | a call returns the result of the request that served it, always of the type it expects |
| DedupQueue.JoinersReturnLeadersResult | writededupqueue.go:27-74 | every joiner returns its leader's result, while the leader finishes and after it has returned; a GetChunk served by a StoreChunk returns that call's error and chunk |
| DedupLive.JoinsInFlight | dedupqueue.go:94-103 | a call for something in flight waits for that request and sends nothing to the store; otherwise it leads a new one |
| DedupLive.GetJoinsStore | writededupqueue.go:27-47 | a GetChunk waits for a StoreChunk of its chunk in flight, and asks as usual exactly if there is none |
| DedupLive.ResultIsFromStore | dedupqueue.go:45-56 | a call returns the error, and unless it stores also the data, that the store answered to the leader of its request |
| DedupLive.KeyIsFromCaller | dedupqueue.go:30-31 | a call works on the kind and chunk its caller asked for |
| DedupQueue.DeletesOwn | dedupqueue.go:105-109 | a leader deletes its own entry and no other |
| DedupQueue.EmptyWhenIdle | dedupqueue.go:83-109 | the queues are empty when no call is active |
| DedupQueue.NoDeadlock | dedupqueue.go:123-127 | a call that has not returned can move, or waits for a leader that can |
| DedupLive.EveryCallCanReturn | dedupqueue.go:30-134 | every step brings its call closer to its return, and without new calls all of them can be brought to it |
| Failover.Group.StepKeeps | failover.go:88-105 | attempts made and failovers still possible never exceed the number of stores, and the active store only comes closer to a reliable one |
| Failover.Group.NeverGivesUp | failover.go:28-49 | in every interleaving of any number of callers, with one store that never fails every call that returns has the chunk or knows it is missing, after at most one attempt per store |
| Failover.AnswerIsAStores | failover.go:33-40 | a call that found its chunk, or learnt that it is missing, returns what a store told it |
| Failover.CallCanReturn | failover.go:28-49 | whatever the others have done, a call with an attempt left finds its chunk if the store it asks next has it |
| Failover.Group.MovesOffFailedOnly | failover.go:98-105 | the active store changes only from one that has failed to the next |
| Failover.Group.StaysActive | failover.go:98-105 | once a reliable store is active it stays active |
| Failover.GivesUpIff | failover.go:28-49 | a group can give up if and only if none of its stores is reliable |
| Failover.AsksAllUnless | failover.go:28-49 | a call that gives up can have left out a store if and only if no store is reliable and there are two stores and two calls or more |
| Failover.GivesUpWithoutAskingAll | failover.go:28-49 | a run with two stores and two calls in which one gives up having asked only the first store |

## Left out

- Decoder.FormatDecoder.Next: where a header's size is too small or too large for its element the source panics instead of returning an error; the model has an error for both.
- ChunkerImpl.Chunker.constructor: min equal to max, which the source accepts, is excluded; it then cuts max + 1 bytes, more than its own limit. The checks on the sizes are preconditions.
- ParallelProof.CollectedIsPrefix: the result channels are unbounded; the source sizes them to hold everything a worker can produce.
- AssemblyProof.AssemblyCorrect: copies from the self-seed are taken as exact, which holds under the condition of Cloning.CloneIsExactIff; the caller's context is never cancelled, since a cancelled feed loop can still return nil.
- AssembleFile.PlannedAssemblyIsCorrect: the same two conditions.
- AssembleFile.PlanFile: the same two conditions.
- Retry.FindPlan: with `InvalidSeedActionRegenerate` and seed files that keep changing the source can go on forever, so no bound is stated for that case; the model follows it for any given number of validations.
- Retry.Validate: the files do not change during one validation; concurrent workers are represented by the choice of which segments are dropped after a failure.
- Retry.RegenerateInvalidSeeds: the new index is any index that agrees with the file, since parallel chunking may yield a prefix only.
- Planning.FileSeed.RegenerateIndex: takes the new index; chunking the file may fail before it is called.
- Cloning.CloneRange: whether the kernel clones into a file, its alignment rules included, is one property of the file.
- Cloning.CopyRange: a read or write that fails half-way is not modelled.
- Failover.Group.NeverGivesUp: `HasChunk` runs the same loop without the case of a missing chunk and has no members of its own.
- GoodbyeBst.MakeGoodbyeBst: `math.Log2` is the exact floor of the logarithm, and the unstable `sort.Slice` a stable insertion sort; the two can differ only for items with the same hash and offset, which no archive has.
- The conversion of file modes and times between Go's types and the archive's numbers: the model carries the numbers.
- `discriminatorFromAvg`: floating point; the discriminator is a positive parameter. The entries of the hash table are a parameter too.
- SHA-512/256, SipHash, zstd, the reflink call and the bitmap library: represented by parameters or by what they guarantee; the packing of the saved bitmap into bytes and its length check are not modelled.
- Errors of the filesystem reader and of the output stream while an archive is written.
- Plain worker pools (`ChunkStream`, `ChopFile`, `Copy`, `VerifyIndex`, `UnTarIndex`), store routing, caches, converters, all concrete stores, FUSE mounts, GNU tar and mtree output, and the command line.
