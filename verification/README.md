# mergenet: verified model

mergenet is a local proxy that spreads connections over several network links and
fetches large downloads in parallel over all of them. This project models its core in
Dafny and proves what that core keeps:

- **The range-split engine** (`rangesplit.go`). `SplitMachine` is the whole of
  `splitAcrossLinks` as a step machine: four workers per link, one queue, one spool per
  chunk, one drainer, a client that may go away. The server chooses replies, slice sizes,
  short, failing and over-long bodies; the disk may store part of a slice and then fail;
  any interleaving of goroutines is a run. `Fetcher` is the fetch of one chunk as steps,
  `SpoolProtocol` one spool down to lock, file and broadcast. `LockedSplit` is the whole
  split at that granularity, all spools with their workers and the drain loop;
  `LockedSimulation` proves that each of its steps is a step of `SplitMachine` or none, and
  `LockedRuns` carries the download theorems over. `ChunkBuf` is the imperative code.
  What the network, disk, client and context do to it is a script (`FetchScript`,
  `DrainScript`): the code is proved to do exactly what the script comes to, and every
  script is a run of `Fetcher` or of `SpoolProtocol`.
  `SplitDecision`, `ChunkPlan` and `ContentRange` are the arithmetic and the header before
  the fetch, and `Download` puts the parts together.
- **The balancer and the scorer** (`balancer.go`, `scorer.go`, `main.go:scanOnce`).
  `Balancer` is the object with its loops; each method is tied to an operation on values,
  and the theorems are about whole runs of those: exact fairness of the weighted
  round-robin, max-min fairness and the lower quota of the score rule (a divisor method),
  host affinity, the closed form of the throughput estimate, and what a scan leaves.
- **Leases** (`proxy.go`, `mitm.go`, `rangesplit.go`). Every path that raises or lowers
  `ActiveConns`: as one machine of interleaved threads (`Leases`) and as sequential code
  (`Proxy`). `Copying` is `copyWithCounter`, `RecentConns` the ring buffer of `stats.go`.

`dafny verify dfyconfig.toml` checks everything.

## Where the code does not do what it says

Each of these is a lemma with a concrete case or an exact condition.

- A push that stores part of its slice and then fails (`rangesplit.go:513-522`) leaves
  bytes in the spool that the caller's `*pushed` does not count (`rangesplit.go:726-731`),
  although the comment there says that the failure is not retried. The retry asks for them
  again, so the client gets them twice (`SplitWitness.TornWriteDuplicatesBytes`). A drain
  that ends without an error has delivered the wrong count exactly when such stray bytes
  exist (`SplitSafety.MismatchIffStrayBytes`, `SplitSafety.CompletedIsExact`). The program's
  own response writer refuses bytes beyond Content-Length, and with such a client the
  MISMATCH branch is dead (`SplitSafety.LimitedClientNeverMismatches`): a torn write then
  duplicates bytes and later breaks the drain, which leaves a truncated file that is not
  even a prefix of the real one (`SplitWitness.TornWriteBreaksLimitedDrain`).
- A worker that receives an index and then sees the context cancelled returns without
  finishing that chunk (`rangesplit.go:379-382`). The drainer then waits in
  `drainTo` forever, and the deferred `close` that would wake it is never reached
  (`SplitProgress.EarlyDisconnectHangs`, exact condition in `SplitProgress.DrainEndsIff`).
- A range of one byte after the probe's clamp gives `chunkSize` 0 and the request
  `bytes=s-(s-1)`; exactly the one-byte ranges do (`ChunkPlan.AllRequestsNonEmpty`). That
  chunk is completed exactly by a 206 reply with an empty body
  (`Fetcher.EmptyChunkCompletesIff`).
- A 206 response whose range ends beyond its own total is accepted, and a probe that
  confirms that total does not clamp it (`SplitDecision.InconsistentRangeIsFetched`,
  `SplitDecision.AgreeingProbeDoesNotClamp`).
- When the last byte of a chunk arrives together with a read error, the next attempts ask
  for an empty range, and the chunk is completed exactly by a 206 reply to one of those
  whose body ends before a byte of it is stored (`Fetcher.FullCompletesIff`). A chunk can
  thus fail with all its bytes in the spool (`Fetcher.WholeChunkCanFail`).
- The comment of `dialLink` (`proxy.go:219-227`) says the second attempt rotates to another
  healthy link. With m picks by other connections between its two, and W the sum of the
  healthy links' weights, it does so from every counter value exactly when (m+1) mod W is
  at least every healthy link's weight and at most W minus it
  (`RoundRobin.RetryRotatesIff`). For m = 0 that takes two healthy links and no weight
  above one (`RoundRobin.LoneRetryRotatesIff`); for m = W-1 it fails for all links and
  from every counter value (`RoundRobin.FullRoundRepeats`). With a scorer the retry goes
  back to the link that has just failed, however many other connections were picked by
  score in between (`ScorePicks.RetryGoesBack`) and whatever other links took on or went
  down (`ScorePicks.BestStays`), as long as no pick explores, no sample arrives and no
  connection of another link closes (for the dial code itself: `Proxy.SecondAttemptByScore`).
- Score picks are fair among warm links only: all picks go to the best link exactly when
  its score does not fall with its connections or no other healthy link scores above zero
  (`ScorePicks.TakesAllIff`), which is so for a link scored by its probe latency. A
  round-robin counter that has wrapped around sends every pick to the first healthy link
  (`RoundRobin.NegativeCounterStarves`).
- `ewmaHalfLife` (`scorer.go:11`) is the time in which the past loses all but 1/e of its
  weight, not half of it: the update decays by `exp(-dt/ewmaHalfLife)` (`scorer.go:59`).
- If two usable adapters have the same name, the last one decides
  (`Scan.ScanShowsAdapters`).
- `ARCHITECTURE.md:74-84` describes an earlier design (bounded channels, link switching,
  2 to 16 chunks, no temp files). The model follows the code.

## What is assumed

- The bytes of a 206 body are the file's from the offset asked for, where a theorem is
  about contents (`HonestRun`, `AllHonest`); the code does not check the start of the
  reply's range. Theorems about lengths and counts assume nothing of the server.
- The client of a split takes whatever it is given or refuses it, unless a theorem says
  otherwise (`LimitedRun`): the writer that mergenet has refuses a write that would exceed
  Content-Length as a whole.
- Health and weights do not change between the picks of the round-robin theorems.
- `math.Exp(-x)` is any function `decay` with `decay(0) = 1`, `0 < decay <= 1` and
  `decay(x + y) = decay(x) * decay(y)`. Floating-point numbers are reals.
- Byte counts and offsets of headers are 64-bit with wrap-around where it can happen
  (`RangeSize`, the round-robin counter); counters and sums that stay far below 2^63 are
  unbounded integers. `int` has 64 bits.
- Clocks, random draws, probes, dials, replies, disk and client writes are arguments: a
  script for sequential code, events for the machines.
- Methods of the balancer run under its mutex, so each is one step; counter updates are
  atomic.

## Model

| member | source | states |
|---|---|---|
| ContentRange.Parse | rangesplit.go:157-187 | a successful parse has 0 <= start <= end < 2^63 and a 64-bit total |
| ContentRange.ParseIntOfDecimal | rangesplit.go:170-186 | reading the decimal text of any 64-bit number, negative ones included, gives that number |
| ContentRange.PrintedParts | rangesplit.go:161-170 | prefix removal, trimming and the first slash recover the two halves of any printed range |
| ContentRange.RoundTrip | rangesplit.go:160-187 | for all 64-bit triples, parsing what line 318 prints gives the triple back if 0 <= start <= end and fails otherwise |
| ContentRange.UnknownTotalReads | rangesplit.go:160-181 | a total of "*" reads as -1, for exactly the ranges that are read with a number |
| ContentRange.ParseIntIff | rangesplit.go:170-187 | a number is read if and only if it is digits after an optional sign and fits 64 bits, and then as their value |
| ContentRange.ZerosInFront | rangesplit.go:170-183 | zeros in front of a number do not count |
| ContentRange.ParseIff | rangesplit.go:157-187 | a header is read as three numbers if and only if it is, apart from the unit in front and space around, a range of them in that shape |
| SplitDecision.AcceptedRangesAreSound | rangesplit.go:61-127 | an accepted response has a non-empty range of at least 10 MB whose size did not wrap, two healthy links, and for a 200 the whole body; the only size that wraps is that of 0 to 2^63-1 |
| SplitDecision.WholeBodyAcceptedIff | rangesplit.go:61-127 | a 200 is split if and only if it answers a GET with at least 10 MB, byte ranges, identity encoding, no streaming type and two healthy links; the range is then byte for byte its body, with its length as total and no Content-Range |
| SplitDecision.PartAcceptedIff | rangesplit.go:61-127 | a 206 is split if and only if the same holds of its Content-Range, which must be readable with a known total and a size that does not wrap; the range is then that one |
| SplitDecision.OtherStatusRefused | rangesplit.go:72-92 | no other status is split |
| SplitDecision.UnknownTotalRefused | rangesplit.go:81-84 | no range of a file of unknown size is split |
| SplitDecision.ProbeTellsIff | rangesplit.go:431-456 | the probe tells a total if and only if it is answered by a 206 with a well-formed range of a known, positive total, and then that one |
| SplitDecision.AdjustIsExact | rangesplit.go:262-273 | for every probe: refused if and only if the probe contradicts the total and no byte asked for lies below it; unchanged without a contradiction; else exactly the bytes below the probe's total, with that total; the start and the client's wish never change |
| SplitDecision.AdjustIntersects | rangesplit.go:262-273 | after a contradicting probe the range is exactly its intersection with the file, and the 416 exit is taken exactly when that is empty |
| SplitDecision.AgreeingProbeDoesNotClamp | rangesplit.go:262-273 | after a probe the range lies inside the file if and only if the probe contradicted the total or the range ended before its own total |
| SplitDecision.ReadRangeDecides | rangesplit.go:79-87 | a large enough 206 whose header parses and passes the other header tests is accepted with exactly the parsed range |
| SplitDecision.InconsistentRangeIsFetched | rangesplit.go:79-93 | every large range that ends at or beyond its own total is accepted and kept as it is by a probe that agrees |
| SplitDecision.HeadersDescribeChunks | rangesplit.go:315-320 | Content-Length is the size of the plan, and reading back Content-Range gives an interval holding exactly the offsets that some chunk asks for |
| SplitDecision.RangeHeaderIffAsked | rangesplit.go:315-320 | Content-Range is sent if and only if the client asked for a range |
| ChunkPlan.ComputeChunks | rangesplit.go:215-228 | between 2 and 512 chunks, no more than bytes when there are two bytes, and enough that no chunk averages over 32 MB up to 512 times 32 MB |
| ChunkPlan.FewestChunks | rangesplit.go:215-228 | beyond two, one chunk less would average over 32 MB; and above 512 times 32 MB there are 512 |
| ChunkPlan.ChunksTile | rangesplit.go:347-355 | chunks touch, the first starts and the last ends the range, all but the last have chunkSize bytes, the last fewer than numChunks more |
| ChunkPlan.ChunksPartition | rangesplit.go:347-355 | a byte is in the range if and only if some chunk asks for it, and then exactly one does |
| ChunkPlan.ChunksOrdered | rangesplit.go:347-355 | chunks are in order and disjoint |
| ChunkPlan.AllRequestsNonEmpty | rangesplit.go:275-277 | all chunks are non-empty if and only if the range has at least two bytes |
| ChunkPlan.ChunkSizeBound | rangesplit.go:189-228 | chunkSize is at most 32 MB whenever the range is at most 512 times that |
| ChunkPlan.Partition | rangesplit.go:347-355 | the loop fills two arrays whose intervals touch and span the range, each the plan's chunk |
| Fetcher.StepKeepsInv | rangesplit.go:638-748 | every step keeps: requests continue one another from offset 0, attempts are counted, spool length = pushed + stray, credited = spool + lost, and a chunk finished without error has pushed exactly its length |
| Fetcher.StepKeepsFaithful | rangesplit.go:719-731 | while no stray bytes exist the spool is the file from start on |
| Fetcher.CompleteMeansExactLength | rangesplit.go:638-680 | for every server behaviour, finish(nil) means exactly end-start+1 bytes pushed in at most 5 contiguous, disjoint requests; the spool has that length if and only if no refused push left bytes |
| Fetcher.CompleteMeansExactBytes | rangesplit.go:686-748 | with honest bodies the spool of a completed chunk is the file's slice if and only if there are no stray bytes |
| Fetcher.OverlongNeverCompletes | rangesplit.go:719-745 | once more bytes than asked for were pushed, every later attempt fails |
| Fetcher.ReplyReadIff | rangesplit.go:705-717 | of the replies with a printed Content-Range exactly the 206s are read whose range is malformed, whose total is not positive, or whose total lies beyond the bytes asked for |
| Fetcher.BareReplyReadIff | rangesplit.go:701-717 | without a Content-Range, or with an unknown total, the status alone decides; no reply is never read |
| Fetcher.FailsForAReason | rangesplit.go:648-680 | a fetch gives up only after five requests, and ends for a cancelled context only if one was seen |
| Fetcher.CancelledFetchStops | rangesplit.go:648-676 | a cancelled fetch makes at most one more request, and none if it is reading or has failed |
| Fetcher.FullCompletesIff | rangesplit.go:711-745 | once all bytes are stored without completing, the chunk is completed if and only if a 206 body for the empty range ends before any byte of such a body is stored |
| Fetcher.EmptyChunkCompletesIff | rangesplit.go:347-355 | the empty chunk of a one-byte range is completed if and only if the same happens to its request, which is not a range |
| Fetcher.WholeChunkCanFail | rangesplit.go:734-745 | every chunk of up to one slice has a run in which its last bytes come with a read error, four retries get no reply, and it ends exhausted with all its bytes stored |
| ChunkBuf.ChunkBuf.Push | rangesplit.go:509-524 | exactly the part the disk takes is appended, nothing after cancellation or close; the result says whether all was stored |
| ChunkBuf.ChunkBuf.Finish | rangesplit.go:528-536 | marks the spool done and keeps the first error |
| ChunkBuf.ChunkBuf.CopyOut | rangesplit.go:573-592 | the copy loop makes exactly the copies of its script as a run of the locking protocol, and ends with the script's first failing write, short write or failing read, or with everything seen given out |
| ChunkBuf.ChunkBuf.DrainTo | rangesplit.go:555-607 | however fetcher and close come in between, the events are those of the script and a run of the locking protocol, and the result is the one the script comes to; the client has exactly the first `delivered` spool bytes, and nil means done, error-free and wholly delivered |
| DrainScript.WillingTurn | rangesplit.go:558-606 | a turn that finds something gives a client that takes everything all that was written, and ends the drain if and only if the fetch had finished, without an error exactly if it had none |
| ChunkBuf.ReadBody | rangesplit.go:719-745 | the reads up to the first that is not stored or does not say more are taken, each once and in order; what they leave in the spool, credit to the link and add to pushed, and whether the body completes the chunk, are the script's |
| ChunkBuf.FetchChunkOnce | rangesplit.go:686-748 | the spool grows by exactly the bytes of the reads taken, the last cut to what the disk kept; it succeeds if and only if the reply is read, all reads were stored, the last said EOF and the lengths add up to what was asked; ActiveConns ends as it began |
| ChunkBuf.FetchChunk | rangesplit.go:638-681 | spool, error, BytesIn and TotalConns are those of the script's attempts: no request once the context is seen cancelled at the head or in the backoff, no retry after a success or a cancellation, at most five; the events are the script's and a complete run of the fetch machine |
| FetchScript.AttemptRun | rangesplit.go:686-748 | one attempt of a script is a run of the fetch machine with these bytes, counters and outcome |
| FetchScript.ScriptRun | rangesplit.go:638-681 | every script is a complete run of the fetch machine, which ends with its verdict, spool and counters |
| FetchScript.ScriptGivesTheChunk | rangesplit.go:638-748 | over every script without error exactly the asked length was pushed; with honest bodies the spool is the file's slice if and only if it has that length |
| SpoolProtocol.StepKeepsInv | rangesplit.go:509-619 | every lock-level step keeps file >= written >= delivered, output = file prefix, the finality of a done view, and that no wakeup is lost |
| SpoolProtocol.StreamIsCorrect | rangesplit.go:509-619 | over every interleaving the output is a prefix of the pushes in order; a nil return means finish(nil) and everything delivered; a drainer left asleep has nothing to wake for |
| SpoolProtocol.Refines | rangesplit.go:555-607 | each lock-level step is one atomic append, finish, drain or return, or none |
| LockedSimulation.StepSimulated | rangesplit.go:330-412 | under the relation of the two states, every critical section, file operation, broadcast and local step of the whole split is one step of SplitMachine, or none |
| LockedRuns.RunFollows | rangesplit.go:330-412 | every run at lock granularity is a run of SplitMachine with the same client that is honest, whole or limited if it is |
| LockedRuns.SleepIsJustified | rangesplit.go:559-562 | over every such run, a drainer asleep with no broadcast coming has given out everything published, and the chunk is not finished |
| LockedRuns.ThroughIsExact | rangesplit.go:398-425 | over every such honest run through all chunks, the range lay in the file and the client has it byte for byte if and only if it has no more bytes than announced, and never fewer |
| LockedRuns.LimitedThroughIsExact | rangesplit.go:398-425 | with a client limited to Content-Length, such a run has delivered exactly the range |
| LockedRuns.WholePushesGiveTheFile | rangesplit.go:398-425 | with pushes that store all or nothing, the client has a prefix of the file at every moment of every such run, and the range at its end |
| SplitStreams.StepsAreAtomic | rangesplit.go:400-412 | every step of SplitMachine acts on each spool as at most two of the atomic appends, finishes, drains and returns that Refines speaks of |
| SplitMachine.StepKeepsInv | rangesplit.go:330-412 | every step of the concurrent split keeps the queue, ownership, fetch and drain invariants |
| SplitSafety.RunKeepsInv | rangesplit.go:254-426 | so does every run |
| SplitSafety.ClientSeesPrefix | rangesplit.go:398-412 | over every run with honest bodies the client has a prefix of the file from effStart on, while no stray bytes were drained |
| SplitSafety.MismatchIffStrayBytes | rangesplit.go:413-425 | a drain that ended without error delivered the size of the range plus the stray bytes, whatever the server sent and for a client that takes what it is given; the counts differ if and only if a refused push left bytes |
| SplitSafety.CompletedIsExact | rangesplit.go:398-425 | with honest bodies the completed download is the range byte for byte if and only if there are no stray bytes |
| SplitSafety.WholePushesGiveTheFile | rangesplit.go:398-425 | if pushes store all or nothing, the client of an honest run has a prefix of the file from effStart on at every moment, and the whole range at completion |
| SplitSafety.CompletedIsInFile | rangesplit.go:398-425 | no honest run completes when the range runs past the file |
| SplitSafety.LimitedClientNeverMismatches | rangesplit.go:315-425 | with a client that refuses more than Content-Length, a completed drain has delivered exactly that many bytes, whatever the server sends, and exactly the range if bodies are honest |
| SplitWitness.TornWriteDuplicatesBytes | rangesplit.go:509-524 | an honest run that completes and gives a client that takes everything a byte twice |
| SplitWitness.TornWriteBreaksLimitedDrain | rangesplit.go:509-524 | with a client that refuses more than Content-Length, an honest run that gives it a byte twice and then breaks the drain |
| SplitQueue.IndicesReceivedOnceInOrder | rangesplit.go:359-383 | the indices received over a run are 0, 1, ..., k-1 in order, each once |
| SplitQueue.OnlyOwnerFetches | rangesplit.go:373-391 | only the worker that received an index changes that chunk, and ownership never moves |
| SplitQueue.ChunkStaysOnOneLink | rangesplit.go:365-391 | events of other links' workers leave a claimed chunk as it is, for the rest of every run |
| SplitQueue.InFlightBound | rangesplit.go:373-393 | at most 4 times links claimed chunks are unfinished at any time |
| SplitQueue.InFlightPerLink | rangesplit.go:373-393 | and at most four of them over any one link |
| SplitQueue.CreditsAreAccountedFor | rangesplit.go:724-731 | the BytesIn added over all links equals the bytes in all spools plus those read but refused by a spool |
| SplitProgress.RunsAreBounded | rangesplit.go:338-412 | no run is longer than 19 steps per chunk, one per worker and one, beyond its body reads and the bytes they carried |
| SplitProgress.WorkersAreNeverStuck | rangesplit.go:376-391 | a worker that has not exited always has a step |
| SplitProgress.OrphansNeedCancellation | rangesplit.go:379-382 | an unfinished chunk nobody works on exists only after cancellation |
| SplitProgress.DrainHangsOnOrphan | rangesplit.go:400-403 | a drainer that has reached such a chunk stays there in every continuation |
| SplitProgress.EarlyDisconnectHangs | rangesplit.go:379-382 | in every split, a disconnect seen by the first worker after its receive makes the drainer wait forever |
| SplitProgress.EarlyDisconnectIsPossible | rangesplit.go:379-382 | those steps are possible in every split |
| SplitProgress.DrainEndsIff | rangesplit.go:394-412 | once all workers returned, the drain can end, with a client that takes every write, if and only if each unfinished chunk lies behind one that ended with an error |
| SplitProgress.UncancelledNeverStuck | rangesplit.go:373-412 | without cancellation, when all workers have returned every chunk is finished and the drain can end |
| SplitProgress.UndisturbedRunsEnd | rangesplit.go:338-412 | a split whose client stays always ends: its runs are bounded by their chunks, workers and body work, and one that cannot be continued has ended its drain, returned every worker and cancelled the context |
| Download.AnnouncedIsSound | rangesplit.go:254-277 | with or without a probe, an accepted response announces a range that can be cut up, with Content-Length its size and the probe's total if there is one |
| Download.AnnouncedIsInFileIff | rangesplit.go:262-277 | after a probe with the file's size the range lies in the file if and only if the probe contradicted the response or the response was consistent; without a probe if and only if the response's range did |
| Download.ClientGetsWhatIsAnnounced | rangesplit.go:254-426 | from decision to last byte, for any probe outcome and any links at the start of the split: a completed honest download lay in the file and is the announced range, of Content-Length bytes, if and only if there are no stray bytes; Content-Range reads back as that range |
| RoundRobin.ChoiceIsHealthy | balancer.go:212-244 | a link is found if and only if one is healthy; the final return nil is unreachable |
| RoundRobin.ChoiceIsTurn | balancer.go:227-242 | a link's turns are one stretch of counter values modulo the total, as long as max(weight,1) |
| RoundRobin.AnyRound | balancer.go:212-244 | any W consecutive counter values give each healthy link exactly max(weight,1) turns |
| RoundRobin.PicksCountTurns | balancer.go:212-244 | over a run of picks each link's counters grow by exactly the number of its turns |
| RoundRobin.RoundRobinIsFair | balancer.go:212-244 | qW+r picks take each link between q*w and q*w+min(w,r) times, from any counter value that does not wrap during them |
| RoundRobin.NegativeCounterStarves | balancer.go:227-241 | with a negative counter every pick takes the first healthy link |
| RoundRobin.RepeatsIffTurn | proxy.go:219-227 | with m other picks in between the retry repeats link j if and only if the counter value m+1 later is also one of j's turns |
| RoundRobin.RetryRotatesIff | proxy.go:219-227 | with m other picks in between, the retry goes to another link from every counter value if and only if (m+1) mod W is at least every healthy link's weight and at most W minus it |
| RoundRobin.LoneRetryRotatesIff | proxy.go:219-227 | with none in between, if and only if no healthy link has weight above one and there are two of them |
| RoundRobin.FullRoundRepeats | proxy.go:219-227 | with W-1 in between, the retry repeats the failed link, for all links and counter values |
| Balancer.Balancer.AddLink | balancer.go:62-71 | appends the link itself unless its name is taken; everything else unchanged |
| Balancer.Balancer.Upsert | balancer.go:75-92 | marks the named link healthy with new IP and latency, or appends a fresh one; reports what was there; no link object is removed, moved or exchanged |
| Balancer.Balancer.SetHealthy | balancer.go:96-107 | flips the named link only, and reports its state before |
| Balancer.Balancer.HealthyLinks | balancer.go:113-123 | exactly the link objects that are healthy, each once and in order |
| Balancer.Balancer.TotalWeight | balancer.go:213-222 | the first loop sums max(weight,1) over the healthy links |
| Balancer.Balancer.PickRoundRobin | balancer.go:212-244 | returns and counts on the link of the round-robin rule, moves the counter on, and changes nothing else |
| Balancer.Balancer.Highest | balancer.go:276-284 | the loop finds the healthy link with the highest score, the first among equals |
| Balancer.Balancer.PickByScore | balancer.go:249-291 | with two healthy links, the first stale one whose own draw, one per stale link in order, is below the exploration probability; else the best link; counted once; none if and only if none is healthy |
| Balancer.Balancer.Pick | balancer.go:152-160 | follows the round-robin rule without a scorer and the score rule with one; a healthy link counted once, or none if and only if none is healthy |
| Balancer.Balancer.PickForHost | balancer.go:174-208 | the pinned link while it is healthy, with the counter as it was; else a fresh pick, in turn or by score as for Pick, that becomes the pin; the stale pin goes |
| Affinity.StepKeepsInv | balancer.go:62-208 | every operation keeps names unique, pins naming existing links, and every link in its place |
| Affinity.PinsChangeOnlyWhenDown | balancer.go:174-208 | a pin changes or goes only in a pick for its host that finds its link down |
| Affinity.PickForHostFinds | balancer.go:174-208 | a pick for a host is empty if and only if no link is healthy, and a successful one pins its result |
| Affinity.HostStaysOnItsLink | balancer.go:174-208 | over any run of operations a pinned host gets the same link from all picks at which that link is up |
| ScoreFairness.GreedyKeepsBalance | balancer.go:276-284 | a greedy pick keeps T_j/a_j >= T_i/(a_i+1) for all pairs with a_j >= 1 |
| ScoreFairness.NoConnectionGainsByMoving | balancer.go:276-284 | after any greedy run from idle no connection would get a larger share on another link |
| ScoreFairness.GreedyIsMaxMin | balancer.go:276-284 | the worst share after N greedy picks from idle is at least the worst share of any other placement of N connections |
| ScoreFairness.GreedyMeetsLowerQuota | balancer.go:276-284 | every link holds at least floor(N*T_i/sum T) connections |
| ScorePicks.BestIsGreedy | scorer.go:85-95 | among warm links the pick by score is the greedy pick on throughput and connections |
| ScorePicks.ScorePicksAreMaxMinFair | balancer.go:249-291 | the max-min theorem for runs of the balancer's own picks on warm links without exploration |
| ScorePicks.ScorePicksMeetLowerQuota | balancer.go:249-291 | the lower quota for the same runs |
| ScorePicks.BestStays | balancer.go:276-284 | the best link stays the best whatever connections the others take and whichever of them go down |
| ScorePicks.RetryGoesBack | proxy.go:219-227 | after any run of picks by score, giving back a connection of a link that was picked makes that link the next pick, so a scored retry goes to the link that failed |
| ScorePicks.TakesAllIff | scorer.go:73-96 | every run of picks stays on one link if and only if it is the best and either its score does not depend on its connections or no other healthy link scores above zero |
| ScorePicks.BestOfColdLinks | scorer.go:84-88 | among cold links the best is the first with the least latency, whatever their connections |
| ScorePicks.UnknownIsLast | scorer.go:89-95 | a link with neither samples nor latency is the best only if no healthy link scores above zero |
| Scorer.ColdBeatsCold | scorer.go:84-88 | of two cold links the one with the lower latency scores more |
| Scorer.ColdBeatsMeasured | scorer.go:84-95 | a cold link beats a measured one if and only if a million times one more than the latter's connections exceeds its throughput times the former's latency |
| Scorer.MeasuredBeatsMeasured | scorer.go:94-95 | of two measured links the one with more throughput per connection, the next one counted, scores more |
| Scorer.WhoScores | scorer.go:84-95 | every link is unknown, cold or measured, and scores nothing, something, or something exactly if it has throughput |
| Scorer.StaleIff | scorer.go:108-116 | a link is stale if and only if none of its accepted samples is at most ten seconds old |
| Scorer.LinkScorer.RecordSample | scorer.go:35-64 | a rejected sample changes nothing; an accepted one replaces that link's estimate only, by the exponential update |
| Scorer.EstimateIsWeightedMean | scorer.go:52-61 | the estimate after n samples is a weighted mean of them with weights summing to 1 |
| Scorer.WeightIsFadedShare | scorer.go:52-61 | weight k is the share sample k had when taken over, decayed by its age, and not negative |
| Scorer.FirstSampleWeight | scorer.go:52-61 | under a non-decreasing clock the first sample weighs decay((t_n-t_1)/5) |
| Scorer.EstimateStaysInSpan | scorer.go:52-61 | the estimate stays between the smallest and the largest accepted sample, for any clock |
| Scan.ScanShowsAdapters | main.go:321-353 | after any scan a link is healthy if and only if the last usable adapter of its name answered its probe, it has the IP and latency of the last one that did, its weight, counters and place are untouched, and it is new only if such an adapter answered |
| Scan.DistinctAdaptersAreTheHealthyLinks | main.go:321-353 | with distinct names a usable adapter answered its probe if and only if a healthy link has its name |
| Scan.ProbeAll | main.go:328-343 | the first loop applies one step per adapter and collects exactly the names that answered; link objects stay in place |
| Scan.SweepUnseen | main.go:346-351 | the second loop takes down exactly the healthy links that were not seen |
| Scan.ScanOnce | main.go:321-353 | a failed enumeration changes nothing; else a scan is the two loops; it removes, moves and exchanges no link object and touches neither pins nor the pick counter |
| Proxy.LinkConn.Close | proxy.go:135-148 | the first Close lowers ActiveConns by one and records the bytes moved since the dial as a sample; every further Close changes nothing |
| Proxy.DialLink | proxy.go:178-267 | each attempt picks by the balancer's rule on what the failed one before it left; a connection comes with exactly one lease on its link and the bytes and time of its dial; without one all counters of open connections are as before; errNoHealthyLinks if and only if nothing is healthy; with a healthy link it succeeds if and only if one of the two dials does, for a loopback target if and only if the first does |
| Proxy.SecondAttemptInTurn | proxy.go:219-227 | without a scorer the second attempt of a dial goes to the link that failed if and only if the next turn is that link's as well |
| Proxy.SecondAttemptByScore | proxy.go:219-227 | with one, and no stale link, it always does |
| Proxy.Rebind | mitm.go:141-153 | after a bind error the first lease is given back, and a new one is held, on the link that the rule picks, if and only if a healthy link is left that did not go down meanwhile |
| Proxy.ForwardOrSplit | mitm.go:112-189 | the first link is the one for the host, which alone is pinned, the second one by the rule; on every path, with any links going down before the second pick, all ActiveConns end where they began; a request is served if and only if a link is healthy and the deciding round trip succeeded |
| Proxy.HandleUpgrade | mitm.go:210-278 | the link is the one for the host; on each of the seven early returns and after the splice all ActiveConns are as before; served if and only if the connection can be hijacked, a link is healthy and none of the five later steps fails |
| Leases.ActBalances | proxy.go:135-165 | every action moves the counters exactly as it moves what its thread holds |
| Leases.DialTriesTwice | proxy.go:231-267 | a dial that fails on its first link gives it back and tries a second one, and only one |
| Leases.ForwardSwapsLinks | mitm.go:112-189 | a request whose first link cannot be bound gives it back once and holds a second one, if it gets one, until it is split or returns |
| Leases.ActiveConnsIsConserved | proxy.go:231-267 | over every interleaved run a link's ActiveConns equals the number of leases outstanding on it, is never negative, and is zero once everybody has come to rest |
| Copying.CopyWithCounter | proxy.go:506-533 | the writer gets exactly what it took of a prefix of the source, total and counter growth are that length, and it is everything read unless a write failed or was short |
| RecentConns.RecentConns.Add | stats.go:26-36 | the ring buffer represents the log with the record appended |
| RecentConns.RecentConns.Snapshot | stats.go:38-46 | returns the last min(n, size) records of the log, oldest first |

## Left out

- Certificates, the HTTP and TLS mechanics, SOCKS5, the user interface, process plumbing and the loopback test: only their outcomes that decide a branch appear, as arguments.
- Header comparison (`EqualFold`, content types, `isStreamingContentType`): outcomes in `SplitDecision.Response`.
- Backoff delays, timeouts and clock rates: time is an argument, a delay is not a step.
- Temp files: a spool is a byte sequence with a read offset; failing to create one (a panic in the source) is not modelled.
- `ScoreSnapshot`, `SnapshotView` as display code, log lines and per-link summaries.
- `newChunkBuf`'s `slots` and `bufferSlots`, whose value is unused.
- Link objects inside the split: health changes during a split do not matter to it, so its links are numbers 0 to links-1; at least one is required, as `healthy[0]` requires.
- The read of a body is at most 64 KB, as the buffer is; what a read reports besides bytes is one of more, end and error.
- SplitMachine.StepKeepsInv: appends, finishes, writes and returns are single steps here; `LockedSimulation.StepSimulated` shows that the steps under the lock amount to these.
- LockedRuns.RunFollows: a fetcher's local variables move with the shared step next to them, and the link's BytesIn is left to `SplitMachine`.
- Proxy.ForwardOrSplit: others come in as links going down before the second pick; full interleaving is in `Leases`.
- RoundRobin.RoundRobinIsFair: the sum of weights is an unbounded integer, so a sum that overflows is not modelled.
- Scorer.LinkScorer.RecordSample: the record the source shares by reference is a value in the map.
- RecentConns.RecentConns.Add: capacity zero, where the source indexes out of range, is excluded by the constructor's precondition.
