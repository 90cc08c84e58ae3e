# Signalbox, modelled and proved in Dafny

Signalbox is an agent daemon with a terminal client and a set of repository tools. This project models
the parts of it whose correctness is an algorithm or a protocol, and proves what those parts are for:

- **The Git scale generator** writes a pack of sparse blobs and its version 2 index. The decoders in
  `PackFormat` are written from Git's gitformat-pack documentation, sections 2.2 and 8.2 of RFC 1950 and
  section 3.2.4 of RFC 1951, independently of the writer; the writer is a sparse file with running
  digests. The main results: decoding any entry gives back the planned blob, the file on disk is what
  the digest was fed, each CRC covers exactly the bytes between two offsets, the fan-out table delimits
  the sorted identities, and every object of an accepted request is found through the index
  (`PackLookup.Generate`),
  under the exact bound that the index format sets.
- **The API page renderer** decides under which `cfg` conditions an item is public, parses `CfgTrace`
  attributes and paginates with memory of its own previous output. The main results: a stored condition
  is true exactly when some open walk from the crate root reaches the item, cycles included, as a value
  and as the text that is printed; the parser
  inverts the grammar; rendering loses nothing and keeps every page within the limits whatever the
  previous pages were; and rendering is a fixed point on its own output.
- **The terminal chat** splits a byte stream into bounded lines, tracks the turn a session is in, guards
  its interrupt key and hands chunks from a blocking thread to the event loop.
- **The framed connection** reads frames incrementally and across cancelled reads, correlates responses
  with requests and reconnects a bounded number of times.
- **The review evaluation** admits trials to a bounded pool and stops after an unresolved failure, and
  replays its commands safely across crashes.
- **The coverage merge** reads, merges, reports and writes LCOV. The main results: the merge does not
  depend on input order, what is written reads back as the same measurement exactly when no function
  start name has a decimal number in front of its first comma, and the counters written for each file are
  the counters reported for it.
- **The CPU sampler** accumulates counters of containers that vanish and return: what it reports is the
  growth of every container ever seen, plus what counters lost by going backwards.
- **The blob upload** begins, appends and commits with one guarded restart, against a daemon that may
  answer anything.

Each component has its own modules. Where the source works in place, the model is a class or a method
with loops, proved against a specification function or an independent definition; protocols with
concurrency or crashes are state machines whose invariants hold over every run. Digests, compressors,
the external sort, clocks, sockets, the file system, Python's `int` and `str.isdecimal` are parameters.
Order of dictionary and set iteration is left open, so the results hold for the sorted order too.

`dafny verify dfyconfig.toml` checks the whole project.

## Model

| member | source | states |
|---|---|---|
| CfgRoutes.Conditions | scripts/render_domain_spine.py:195-219 | the table fails exactly when the root or a reachable identity is missing; its keys are the reachable items; the condition stored for an item holds under an assignment exactly when some walk from the root to it, of any length, has all its gates true |
| CfgRoutes.RouteTable.Visit | scripts/render_domain_spine.py:197-212 | one visit succeeds exactly when no missing identity is met and appends to the route table exactly the routes of its trace |
| CfgRoutes.RouteTable.Follow | scripts/render_domain_spine.py:203-212 | one edge hands on the item's own gates, or the inherited ones when the edge is a complementary export |
| CfgRoutes.TraceMeaning | scripts/render_domain_spine.py:197-214 | some recorded route to an item is satisfied exactly when the item is available by some open walk, although the traversal cuts at ancestors |
| CfgRoutes.TraceReach | scripts/render_domain_spine.py:197-214 | an identity is met by the traversal exactly when some walk reaches it, and recorded exactly when it also exists |
| CfgRoutes.TraceSound | scripts/render_domain_spine.py:197-212 | every effect of a visit comes from a walk, and a recorded route holds only if that walk is open |
| CfgRoutes.TraceComplete | scripts/render_domain_spine.py:197-212 | every cycle-free walk leaves an effect whose route holds whenever the walk is open |
| CfgRoutes.CutCycles | scripts/render_domain_spine.py:198-199 | every walk can be cut to one without repeated items that is open whenever the original is |
| CfgRoutes.Merge | scripts/render_domain_spine.py:216-219 | the merged condition holds under an assignment exactly when some route does; `CfgMeaning.StoredMeans` carries this over to its text |
| CfgMeaning.ConditionTexts | scripts/render_domain_spine.py:195-219 | the stored texts themselves: the table fails exactly when the root or a reachable identity is missing, its keys are the reachable items, and however the gates are read as predicates the texts of an item are the written form of predicates which are all true under a build configuration exactly when some open walk reaches the item |
| CfgMeaning.StoredMeans | scripts/render_domain_spine.py:216-219 | the texts of a stored condition are the texts of predicates, nested `all` and `any` included, that are all true exactly when the condition holds |
| CfgMeaning.RouteMeans | scripts/render_domain_spine.py:216-219 | the text of one alternative, a single gate or an `all` of several, is the text of a predicate true exactly when every gate of the route is |
| CfgMeaning.AnyPredicateCanBeRead | scripts/render_domain_spine.py:69-98 | the text of every predicate is a gate that some reading takes as that predicate, so the theorem applies to every gate the attribute parser can produce |
| CfgRoutes.DedupKeeps | scripts/render_domain_spine.py:201-217 | removing duplicates keeps exactly the same conditions |
| CfgRoutes.DedupDistinct | scripts/render_domain_spine.py:201-217 | no condition occurs twice afterwards |
| CfgParser.Conditions | scripts/render_domain_spine.py:69-98 | parsing an attribute's tokens fails exactly when no list of predicates is written that way, and otherwise gives the texts of the one list that is |
| CfgParser.ParserInvertsGrammar | scripts/render_domain_spine.py:71-96 | for every token list and every list of predicates: parsing gives the predicates exactly when the grammar writes those tokens, optional commas included |
| CfgParser.SoundPred | scripts/render_domain_spine.py:71-84 | what is parsed as a predicate, followed by what is left, is the input |
| CfgParser.SoundParts | scripts/render_domain_spine.py:86-96 | the same for lists, closed or at the top level, where nothing may be left |
| CfgParser.CompletePred | scripts/render_domain_spine.py:71-84 | a written predicate followed by anything is parsed back, leaving exactly what followed |
| CfgParser.CompleteParts | scripts/render_domain_spine.py:86-96 | the same for lists |
| CfgParser.Parser.Predicate | scripts/render_domain_spine.py:71-84 | the closure returns the text of the predicate at the shared position and moves the position past it, or fails exactly when there is none |
| CfgParser.Parser.Predicates | scripts/render_domain_spine.py:86-96 | the same for the list loop |
| PageText.PageHeadings | scripts/render_domain_spine.py:47-48 | reading a written page with the heading pattern gives back exactly the headings of its blocks, in order |
| PageText.FewerBlocksFit | scripts/render_domain_spine.py:51-52 | a page that fits still fits with fewer blocks |
| PageText.ShorterTitleFits | scripts/render_domain_spine.py:51-52 | and without the number in its title |
| PageText.RustLayoutIsPlain | scripts/render_domain_spine.py:18 | the fixed header and code fences hold no heading |
| Placement.Paginate | scripts/render_domain_spine.py:598-608 | the loop that grows the chunks in place computes the placement specification |
| Placement.PlacementKeeps | scripts/render_domain_spine.py:598-608 | for arbitrary previous boundaries the chunks concatenate to the blocks, in order, with nothing lost or repeated |
| Placement.PlacementIsStable | scripts/render_domain_spine.py:594-608 | with headings at one place each, placing the blocks against the boundaries of a partition that has room gives back that partition |
| ModulePages.RenderModule | scripts/render_domain_spine.py:579-621 | the imperative pass over one module computes the rendering specification |
| ModulePages.RenderKinds | scripts/render_domain_spine.py:587-613 | the loop over groups renders each kind, or fails exactly when one of them does |
| ModulePages.RenderOneKind | scripts/render_domain_spine.py:591-613 | one group is paginated against its previous pages and refused when a page exceeds the limits |
| ModulePages.RenderHolds | scripts/render_domain_spine.py:583-621 | whatever the previous pages, every file is within both limits and the files of each kind hold exactly its blocks, in order |
| ModulePages.RenderIsStable | scripts/render_domain_spine.py:582-631 | rendering again with the written files as previous pages gives the same files, when headings are distinct within a kind |
| ModulePages.RenderGroupIsStable | scripts/render_domain_spine.py:591-613 | the same for the pages of one kind, empty pages in the middle included |
| PackPlan.Validate | tooling/generate-git-scale.py:19-31 | the checks accept exactly the requests whose blobs hold their suffixes and whose objects fit |
| PackPlan.LargeBlobsHoldPackBytes | tooling/generate-git-scale.py:48-56 | the planned large sizes add up to exactly the requested pack bytes |
| PackPlan.SizesHoldSuffix | tooling/generate-git-scale.py:48-56 | every planned size is at least 16 |
| PackPlan.HexDistinct | tooling/generate-git-scale.py:57 | fixed-width hexadecimal suffixes of different numbers differ |
| PackPlan.BlobsDistinct | tooling/generate-git-scale.py:48-57 | all planned blobs are pairwise distinct |
| PackFormat.BigEndianReads | tooling/generate-git-scale.py:47-100 | a packed big-endian word reads back as its value |
| PackFormat.AdlerConcat | tooling/generate-git-scale.py:92-97 | Adler-32 of a concatenation is the continued Adler-32 of its parts |
| PackEntry.NextCountShape | tooling/generate-git-scale.py:79-82 | a block is 1 to 65535 bytes, and either final with room for the suffix or leaves at least 16 bytes |
| PackEntry.BlocksShape | tooling/generate-git-scale.py:78-99 | all blocks but the last are zeros of 1 to 65535 bytes and the last holds the whole suffix |
| PackEntry.BlocksHoldPayload | tooling/generate-git-scale.py:78-99 | the blocks concatenate to size-16 zeros and the suffix |
| PackEntry.ReadEntryHeader | tooling/generate-git-scale.py:59-64 | for every size the entry header decodes to type blob and that size |
| PackEntry.ReadStoredBytes | tooling/generate-git-scale.py:78-99 | stored blocks decode one for one, up to the single final one and not beyond |
| PackEntry.ReadZlibBytes | tooling/generate-git-scale.py:74-102 | the zlib stream decodes to its blocks with a matching Adler-32 trailer |
| PackEntry.ReadEntryBytes | tooling/generate-git-scale.py:59-102 | an entry followed by anything decodes to type blob, its blocks and exactly what follows |
| PackWriter.EncodeHeader | tooling/generate-git-scale.py:59-64 | the varint loop computes the entry header |
| PackWriter.SparseFile.Write | tooling/generate-git-scale.py:43-45 | after a write the file, holes read as zeros, is what the digest was fed |
| PackWriter.SparseFile.Skip | tooling/generate-git-scale.py:89-90 | seeking over zeros keeps that equality |
| PackWriter.SparseFile.WriteTrailer | tooling/generate-git-scale.py:110-111 | the finished file is the digested bytes and the checksum |
| PackWriter.EntryWriter.EmitBlock | tooling/generate-git-scale.py:79-99 | one turn of the block loop feeds file, CRC, content digest and Adler-32 the same block |
| PackWriter.EntryWriter.EmitBlocks | tooling/generate-git-scale.py:77-99 | the block loop emits exactly the planned stored stream and payload |
| PackWriter.EntryWriter.EmitStored | tooling/generate-git-scale.py:73-102 | the stored branch emits the whole zlib stream |
| PackWriter.EntryWriter.EmitBlob | tooling/generate-git-scale.py:66-102 | either branch emits the whole stream and digests exactly the blob |
| PackWriter.WriteObject | tooling/generate-git-scale.py:57-105 | an object appends its entry to the pack and records the digest of its content, the CRC of its entry and the offset it starts at |
| PackGenerate.WriteObjects | tooling/generate-git-scale.py:48-109 | the object loop extends the pack by all entries, records each and counts first bytes in place |
| PackGenerate.WritePack | tooling/generate-git-scale.py:42-111 | the pack is its header, its entries in order and the checksum of both |
| PackGenerate.OffsetsDelimitEntries | tooling/generate-git-scale.py:58-102 | the bytes between two successive offsets are the entry |
| PackGenerate.RecordedCrc | tooling/generate-git-scale.py:58-105 | each recorded CRC, the last included, is the CRC of the bytes from its offset to the next one or to the trailer |
| PackGenerate.RecordedOffset | tooling/generate-git-scale.py:58-105 | decoding the pack at a recorded offset gives the object's blob and ends where the next entry starts |
| PackGenerate.PlanIsWritable | tooling/generate-git-scale.py:48-57 | every object of an accepted request is writable with its planned content |
| PackIndex.WriteFanout | tooling/generate-git-scale.py:122-125 | the loop writes the cumulative counts |
| PackIndex.WriteColumn | tooling/generate-git-scale.py:126-142 | each of the three passes writes its column, and the third also the table of large offsets |
| PackIndex.WriteIndex | tooling/generate-git-scale.py:116-147 | the file is the tables, the pack checksum and its own digest |
| PackIndex.IndexFileIsIndex | tooling/generate-git-scale.py:116-147 | a reader of the format finds every fan-out, identity, CRC, offset and large-offset row where it looks |
| PackIndex.ReadRow | tooling/generate-git-scale.py:126-145 | reading row i gives back the record's identity, CRC and offset, on both sides of 2^31, while fewer than 2^31 large offsets precede it |
| PackIndex.ReadRowPastBound | tooling/generate-git-scale.py:139-142 | past that bound the tag wraps round and the reader gets the offset of an earlier row, which exists |
| PackIndex.RowReadsBackIff | tooling/generate-git-scale.py:126-145 | a row gives back its offset if and only if the offset is below 2^31 or fewer than 2^31 large offsets precede it |
| PackIndex.IndexReadsBackIff | tooling/generate-git-scale.py:126-145 | all rows give back their offsets if and only if at most 2^31 offsets are large |
| PackIndex.RankPermutation | tooling/generate-git-scale.py:114-142 | sorting leaves the number of large offsets as it was, so the bound can be read off the plan |
| PackIndex.CountFirstPermutation | tooling/generate-git-scale.py:104-115 | sorting leaves the first-byte counts as the object loop left them |
| PackIndex.SortedCounts | tooling/generate-git-scale.py:114-125 | in sorted order the rows before a cumulative count are exactly those with a smaller or equal first byte |
| PackIndex.FanoutDelimits | tooling/generate-git-scale.py:103-125 | for every first byte the fan-out words delimit exactly the rows whose identity starts with it |
| PackLookup.RecordIsFound | tooling/generate-git-scale.py:114-147 | every record is in some row of the index, in the bucket of its first byte |
| PackLookup.RecordLeads | tooling/generate-git-scale.py:58-111 | whatever the size of the object, its record carries its identity and the CRC of its entry, the pack holds that entry at the recorded offset, and the entry decodes to the blob |
| PackLookup.RepositoryServes | tooling/generate-git-scale.py:40-147 | the index rows are the sorted records; every row gives back its offset if and only if at most 2^31 objects start at 2^31 or beyond, and then every object is found through the fan-out table at an entry that decodes to its blob |
| PackLookup.WriteRepository | tooling/generate-git-scale.py:40-147 | the written pack and index have that property for every plan below 2^32 objects and 2^64 bytes |
| PackLookup.Generate | tooling/generate-git-scale.py:18-147 | a request is refused exactly when its sizes do not fit; otherwise, for a pack below 2^64 bytes, every row gives back its offset if and only if at most 2^31 objects start at 2^31 or beyond, and then every object asked for is found |
| PackLookup.ManyObjectsPassBound | tooling/generate-git-scale.py:48-142 | every plan of more than 2^31 and 2^31 / 3 objects exceeds the bound |
| PackLookup.AcceptedRequestPassesBound | tooling/generate-git-scale.py:19-142 | a request for 2^32 - 1 objects is accepted and exceeds the bound |
| PackLookup.DigestsExist | tooling/generate-git-scale.py:41-111 | digests, a compressor and an inflater with the assumed properties exist |
| LineSplit.RunSplitsStream | apps/client/src/chat.rs:238-277 | after any run of arrivals, read errors, closing and calls, the lines returned and the split of what is held are the split of everything that arrived, whatever arrives later |
| LineSplit.EndMeansAllLines | apps/client/src/chat.rs:238-277 | a run that has reported the end has returned exactly the split of the stream |
| ChatLines.TerminalInput.Deliver | apps/client/src/chat.rs:59-169 | an arriving chunk or read error is queued behind what arrived before it |
| ChatLines.TerminalInput.FillBuf | apps/client/src/chat.rs:190-206 | polling gives unread bytes of the stream, nothing only at its end, an error only behind all bytes before it, and skips empty chunks |
| ChatLines.TerminalInput.Consume | apps/client/src/chat.rs:208-211 | consuming takes exactly that many bytes off the front of the unread stream, and never more than the chunk at hand holds |
| ChatLines.BoundedLines.TakeLine | apps/client/src/chat.rs:279-289 | a finished line is classified and the buffer emptied |
| ChatLines.BoundedLines.NextLine | apps/client/src/chat.rs:238-277 | for every chunking each call returns the next line, the read error in front of it, or nothing, and leaves exactly the rest; the buffer never exceeds its bound |
| ChatLines.BoundedLines.Drive | apps/client/src/chat.rs:189-289 | the line reader itself, driven by any sequence of arrivals, read errors and calls, given up ones included: the lines it returns and the split of what it holds are the split of the stream, and once it reports the end they are the whole split; over-long lines are rejected once, a carriage return is dropped only before a line feed, invalid UTF-8 is rejected without losing the next line, an unterminated tail is delivered |
| Frames.FrameReader.ReadFrameLine | apps/client/src/connection.rs:356-394 | a read yields the frame, error or nothing that the stream calls for; afterwards the stream has lost the frame or the reported fault and not a byte more, partial bytes included |
| Frames.FrameReader.Drive | apps/client/src/connection.rs:356-394 | the frame reader itself, driven by any sequence of arrivals, faults and reads: the frames returned are complete bounded lines which, with the bytes held, are exactly the bytes that arrived, in order |
| Frames.ReadsFrameIn | apps/client/src/connection.rs:376-389 | a read accepts exactly a line whose length with its line feed is within the bound, and returns its bytes |
| Frames.FramesConserveBytes | apps/client/src/connection.rs:356-394 | the same for the specification that the reader refines |
| Frames.OversizedStays | apps/client/src/connection.rs:385-389 | a line that has outgrown the bound is refused for good |
| Frames.FollowRetry.NextDelay | apps/client/src/connection.rs:125-150 | a delay is granted exactly for a disconnection while fewer than three have been seen, and every other error is handed back and leaves the budget alone |
| Frames.FollowRetry.NextDelays | apps/client/src/connection.rs:119-151 | over any error sequence the delays granted are the schedule up to the number of disconnections, three at most |
| Frames.TruncationIsNotRetried | apps/client/src/connection.rs:125-150 | a refused read is retried if and only if the stream ends, or breaks with a disconnection, between frames; never inside a frame or for an oversized line |
| Frames.ProcessClient.NextRequestId | apps/client/src/connection.rs:89-101 | identities count up and exhaustion changes nothing |
| Frames.Connection.Send | apps/client/src/connection.rs:193-217 | a request that is written has an identity never used on the connection before; one that cannot be written, or has no identity left, leaves the awaited one in place |
| Frames.Connection.Receive | apps/client/src/connection.rs:223-233 | a response is taken exactly when it carries the identity of the last request written |
| Frames.Connection.Converse | apps/client/src/connection.rs:169-233 | over every sequence of requests and responses the written identities strictly increase and each response taken answers the request last written before it |
| ChatTurns.RunsStayConsistent | apps/client/src/chat.rs:323-427 | in every run of commands, events and resynchronizations a pending approval implies an active turn and an active turn is the awaited one |
| ChatTurns.ForeignEventsChangeNothing | apps/client/src/chat.rs:1333-1398 | any run of events about other turns leaves the state unchanged |
| ChatTurns.StatusDeterminesTurns | apps/client/src/chat.rs:324-335 | the status shown determines the whole state |
| ChatTurns.ControllableIsActive | apps/client/src/chat.rs:341-346 | a turn is controllable exactly when the status says it is active |
| ChatTurns.Tracker.Queued | apps/client/src/chat.rs:352-356 | the status shown is the queued turn, whatever it was |
| ChatTurns.Tracker.Accepted | apps/client/src/chat.rs:358-362 | a turn is shown as queued only if none was shown |
| ChatTurns.Tracker.UpdateFromEvent | apps/client/src/chat.rs:1333-1398 | the event handler refines the transition function of the run lemmas and keeps the state consistent |
| ChatTurns.Tracker.Resynchronize | apps/client/src/chat.rs:403-427 | afterwards the status shown is active, awaiting approval or queued exactly when the snapshot says so, whatever it was |
| ChatTurns.Tracker.BecameActive | apps/client/src/chat.rs:364-372 | the turn is shown as active exactly when no turn or that turn was shown, and the result says so; otherwise the status stays |
| ChatTurns.Tracker.Retired | apps/client/src/chat.rs:374-381 | the status is cleared exactly when it was that turn, queued, and the result says so |
| ChatTurns.Tracker.Terminalized | apps/client/src/chat.rs:383-393 | the status is cleared exactly when it was about that turn, in any state, and the result says so |
| ChatTurns.Tracker.Decided | apps/client/src/chat.rs:395-401 | the status turns from awaiting that approval to active exactly when it was that approval of that turn, and otherwise stays |
| ChatTurns.Tracker.Follow | apps/client/src/chat.rs:323-427 | the handlers called in any order compute the run that `ChatTurns.RunsStayConsistent` and `ChatTurns.ForeignEventsChangeNothing` are about |
| ChatTurns.InterruptState.Received | apps/client/src/chat.rs:445-472 | an active turn is left exactly when the standing offer is for the status shown; otherwise the interrupt makes that offer, or leaves at once when nothing is active, and no other offer stands afterwards |
| ChatTurns.OfferWasMade | apps/client/src/chat.rs:444-477 | a standing offer was made by an interrupt in the same status, with nothing but the same interrupts since |
| ChatTurns.ExitNeedsStandingOffer | apps/client/src/chat.rs:444-477 | leaving an active turn needs an earlier offer for the same status and nothing else in between |
| Handoff.RunsAreSynchronous | apps/client/src/chat.rs:59-123 | in every interleaving of the zero-capacity handoff completed sends <= chunks received <= chunks offered <= completed sends + 1 and the received chunks are a prefix of the offered ones; a buffered channel keeps only its capacity |
| Handoff.RunsKeepOrder | apps/client/src/chat.rs:50-169 | chunks are neither lost, repeated nor reordered, and acknowledgements match what was taken |
| Trials.RunTrials | scripts/review_judge_eval.py:298-327 | for every completion order and failure pattern at most `workers` trials are in flight, nothing is submitted after an unresolved failure, every submitted trial finishes, each case is accounted for exactly once, the rest is reported as not submitted, and without such a failure every case is submitted |
| Trials.Admit | scripts/review_judge_eval.py:304-309 | admission stops at the pool size or at the end of the cases and keeps the bound |
| Trials.SettleAll | scripts/review_judge_eval.py:313-323 | a batch of completions in any order leaves exactly the other trials pending |
| Trials.Round | scripts/review_judge_eval.py:311-325 | one round keeps all invariants and makes progress |
| Trials.ReportRest | scripts/review_judge_eval.py:326-327 | the cases not taken are reported once each, in order |
| Trials.UptoOnce | scripts/review_judge_eval.py:298-327 | the multiset every case is accounted in holds each case exactly once |
| Replay.SentIsOneIdentity | scripts/review_judge_eval.py:132-142 | across any crashes and restarts all requests sent carry the recorded identity, and all calls that return give the same response |
| Replay.RecordsStay | scripts/review_judge_eval.py:132-142 | from any point on a recorded request never changes and nothing is sent once a response is recorded |
| Replay.ChangedReplayIsRejected | scripts/review_judge_eval.py:137-138 | a call with changed arguments can only be rejected or die, and sends nothing |
| Replay.RunsAreSound | scripts/review_judge_eval.py:31-142 | no recorded file is ever one that an interrupted write left behind |
| Replay.StepIsSound | scripts/review_judge_eval.py:132-142 | every single step, crashes included, keeps the invariant |
| Replay.StepSettles | scripts/review_judge_eval.py:132-142 | every single step leaves recorded documents as they are |
| Replay.Trial.Mutate | scripts/review_judge_eval.py:132-142 | an uninterrupted call is a run of the protocol: it refuses exactly a changed replay, sends exactly when no response is recorded, and returns the recorded response |
| Replay.Trial.AtomicJson | scripts/review_judge_eval.py:31-34 | writing a temporary file and renaming it puts the whole document in place |
| CpuSampler.ObservedIsGrowthPlusDrops | scripts/measure_docker_resources.py:64-97 | for every history the seconds observed are the sum over all containers ever seen of latest minus first-sample value, plus the backward jumps |
| CpuSampler.ObservedIsGrowthIffMonotone | scripts/measure_docker_resources.py:78-88 | they are exactly that sum if and only if no counter goes backwards |
| CpuSampler.DockerSampler.TakeSample | scripts/measure_docker_resources.py:70-97 | a failed sample changes nothing; a sample extends the history; two samples at the same instant divide by zero |
| CpuSampler.DockerSampler.Charge | scripts/measure_docker_resources.py:76-97 | the accounting part, with the rate since the previous sample |
| CpuSampler.Current | scripts/measure_docker_resources.py:77 | a later row for the same container replaces an earlier one |
| CpuSampler.Delta | scripts/measure_docker_resources.py:78-81 | the loop adds up the rises over the retained counters |
| CpuSampler.RateSince | scripts/measure_docker_resources.py:82-85 | the rate times the interval is the seconds charged, unknown at the first sample |
| CpuSampler.RunCommand | scripts/measure_docker_resources.py:100-126 | over any readings the last sample's seconds are the growth over all successful readings plus the backward jumps, failures leave gaps only, and the loop dies exactly when two successive samples carry the same time |
| LcovText.CutAt | tooling/summarize_coverage.py:268 | the part before the first separator and the part after it |
| LcovText.DecodeEncode | tooling/summarize_coverage.py:268-333 | a written line is read back as its kind and value |
| LcovText.LinesReadBack | tooling/summarize_coverage.py:267-333 | a written file splits into the lines written |
| LcovText.LinesHaveNoBreak | tooling/summarize_coverage.py:267 | no line that is read holds a line boundary |
| LcovPaths.SourceIsStable | tooling/summarize_coverage.py:270-284 | the name under which a file is recorded resolves to itself |
| LcovRead.ReadLcov | tooling/summarize_coverage.py:262-301 | the merge over all inputs, open record included, fails exactly when a line raises and otherwise builds the measurement of the events read |
| LcovRead.TakeLine | tooling/summarize_coverage.py:268-300 | one line updates the dictionaries as its event says, or raises |
| LcovRead.ScanConcat | tooling/summarize_coverage.py:265-300 | reading two stretches is reading the second with the record the first leaves open |
| LcovMerge.BuildAddsUp | tooling/summarize_coverage.py:287-300 | what is recorded for a file, line, function or start is the sum of what the lines contribute to it |
| LcovMerge.InputsAddUp | tooling/summarize_coverage.py:262-301 | for inputs whose records are ended, the merge is the sum of the inputs read alone, and fails exactly when one of them does |
| LcovMerge.OrderIsIrrelevant | tooling/summarize_coverage.py:262-301 | every order of such inputs fails or gives the same files, line hits, function hits and start names |
| LcovMerge.SameReport | tooling/summarize_coverage.py:304-315 | measurements that agree give the same report totals |
| LcovReport.CountCovered | tooling/summarize_coverage.py:306-307 | the loop counts the entries with a positive hit count |
| LcovReport.LcovDocument | tooling/summarize_coverage.py:304-315 | the document lists every file once with its counters, and its sum is the total |
| LcovReport.AggregateByCrate | tooling/summarize_coverage.py:137-143 | each crate's row is the sum over its own files, and all rows add up to the sum over files, however files map to crates |
| LcovReport.TotalOfCrates | tooling/summarize_coverage.py:146-151 | the total is the sum of the rows in any order |
| LcovReport.Report | tooling/summarize_coverage.py:214-216 | the total row is the sum over all files of the measurement |
| LcovWrite.WriteRecord | tooling/summarize_coverage.py:321-333 | a written record reads back with the same hits, its starts stripped, and declares its counters |
| LcovWrite.WriteStarts | tooling/summarize_coverage.py:323-324 | the starts read back under stripped names, unchanged when all names are clean |
| LcovWrite.WriteFunctions | tooling/summarize_coverage.py:325-326 | the function hits read back as they are |
| LcovWrite.WriteLines | tooling/summarize_coverage.py:329-330 | the line hits read back as they are |
| LcovWrite.StrippedStays | tooling/summarize_coverage.py:294-300 | stripping maps a set of names onto itself only when it changes none of them |
| LcovWrite.PrefixIsStripped | tooling/summarize_coverage.py:296-300 | reading a start name changes it if and only if a decimal number stands in front of its first comma |
| LcovExport.LeadingNumberIsLost | tooling/summarize_coverage.py:294-333 | an input for the failing side: for every decimal number and name, a line of the range form `FN:start,end,number,name` is measured as a start called `number,name`, and the file written from that measurement is read back as a start called `name` |
| LcovExport.WriteLcov | tooling/summarize_coverage.py:318-333 | reading the written lines gives the same files and hits, starts included up to stripping, and the same measurement exactly when no start name has a decimal number in front of its first comma; the four counter lines of every record are those reported for its file |
| LcovExport.DeclaredTotals | tooling/summarize_coverage.py:304-333 | so the counter lines of all records add up to the report's totals |
| LcovExport.MeasuredIsWritable | tooling/summarize_coverage.py:262-333 | every measurement read from any texts can be written |
| LcovExport.Merge | tooling/summarize_coverage.py:366-380 | from input texts to output text: failure exactly when reading fails, the read-back equivalence at text level, counters declared per record as reported, and a total that is the sum over the files measured |
| LcovExport.MergeIgnoresOrder | tooling/summarize_coverage.py:262-380 | permuting input texts whose records are ended changes neither failure, nor the files, nor the total |
| BlobUpload.Uploader.UploadBlob | apps/client/src/blob.rs:201-236 | for every daemon and file behaviour: success means a matching echo of presence and an unchanged file, or everything read was appended and committed with a matching echo; at most two attempts, the second only after an uncertain commit and an unchanged re-read; with a printable output only the file or an uncooperative daemon makes it fail |
| BlobUpload.Uploader.UploadOnce | apps/client/src/blob.rs:238-362 | one attempt, and that it is ambiguous only when a commit was sent and its outcome is uncertain |
| BlobUpload.Uploader.BeginBlob | apps/client/src/blob.rs:249-287 | appending goes on exactly after a matching begun echo, and stops exactly after a matching presence echo |
| BlobUpload.Uploader.AppendAll | apps/client/src/blob.rs:289-330 | the loop appends everything read in acknowledged chunks, or fails by the file or the daemon, never ambiguously |
| BlobUpload.Uploader.AppendChunk | apps/client/src/blob.rs:305-329 | an append succeeds exactly when the acknowledged length is the running length |
| BlobUpload.Uploader.CommitBlob | apps/client/src/blob.rs:332-361 | a commit succeeds exactly on a matching echo that can be printed, and is ambiguous exactly when its reply leaves the outcome uncertain |
| BlobUpload.Uploader.HashSource | apps/client/src/blob.rs:469-495 | the digest and length are those of everything read to the end of the file |
| BlobUpload.Uploader.VerifyUnchanged | apps/client/src/blob.rs:497-513 | success means the file, read again from its start, has the expected digest and length |
| BlobUpload.EachIsAcknowledged | apps/client/src/blob.rs:300-314 | every append of a transferred blob is nonempty, bounded, and acknowledged with the length of everything up to it |

## Left out

- The daemon itself: sessions, persistence, providers and the process protocol's messages beyond the ones above.
- SHA-1, SHA-256, CRC-32 and zlib are functions of the bytes they are fed. The compressor is not modelled: it is any function whose output the inflater turns back into the 16 bytes compressed, and the inflater agrees with `PackFormat.ReadZlib` on stored blocks.
- The external `sort` is any permutation ordered by identity.
- The repository around the pack (tree, commits, branches, worktree) in the Git scale generator.
- Bit operations on sizes, headers and offsets are written as arithmetic on the same numbers.
- Rust type and declaration rendering, `rustfmt`, the README index page and its links, and `Renderer.modules`, whose traversal has no ancestor guard.
- The regular expression that finds the tokens of a `CfgTrace` attribute; the parser starts from the tokens.
- Universal-newline translation when previous pages are read: block bodies hold no carriage return.
- Parsing of chat commands, rendering, signals, and the asynchronous runtime; cancellation is a read that returns nothing.
- Decoding of frame contents: frames are lines of bytes.
- JSON text of recorded requests and responses: documents are compared as values. Two runs of the same trial at the same time.
- Memory figures and the per-container rows in the sampler's output; floating-point rounding.
- The order of rows, percentages and Markdown of the coverage report; reading LLVM JSON exports.
- ModulePages.RenderIsStable: requires distinct headings within a kind and bodies without heading lines, as the renderer produces them; with a repeated heading the boundary dictionaries keep only the last place.
- PackLookup.Generate: promises nothing about a pack of 2^64 bytes or more, whose offsets the large table cannot express; and nothing about lookup when more than 2^31 objects start at 2^31 or beyond, where `PackIndex.IndexReadsBackIff` shows that some row does not give back its offset.
- LcovMerge.OrderIsIrrelevant: requires inputs whose last record is ended, because an open record carries over into the next input.
