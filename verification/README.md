# Network programs of the SIK course: a verified model

The repository holds the programs of a computer networks course. This project models four of them in Dafny and proves
what they promise, for all inputs and all runs:

* **The radio** (`big3/`). Transmitters cut their standard input into chunks, number each by its first byte, multicast
  it and keep the newest ones in a bounded FIFO. A receiver keeps a sliding reorder window and an index of its holes,
  asks for the holes in batches of ten, fills them from replays and prints from the front. `Window`, `WindowFacts` and
  `WindowSteps` describe the window as a value, `WindowLaws` what every arrival does to it place by place,
  `ReorderFacts` what it is for, and `Buffers` is the program that updates
  it in place; `Fifos`, `Senders`, `StdinReads` and `SessionNumbers` are the transmitter, `Receivers` and
  `ReceiverFacts` the receiver, `RequestText`, `RequestRoundTrip`, `RequestLaws` and `Wire` what goes over the network. `Protocol` puts
  them together as a step system - one atomic step per critical section, a network that may lose, repeat and reorder -
  and `ProtocolSafety` and `ProtocolTheorems` prove what holds of every run. `LinkedSets` is the C version of the
  request set.
* **The Internet checksum** (`Checksum`), on hosts of either byte order.
* **The non-blocking echo server and its client** (`EchoSlot`, `EchoServer`, `EchoRuns`, `EchoRounds`, `EchoClient`).
* **Packed numbers over TCP** (`Framing`).

Each loop of the original is a method over a class or an array; its `ensures` equates the new state with a function of
the old one, and the lemmas and the step systems speak about that function. `Bytes` and `Ordered` hold what they share.

## Where a property does not hold

* **Hole index.** A package that arrives again while it is in the window, or a misaligned one, makes `add_to_buffor`
  throw away everything up to it and forget all holes but the last. `WindowFacts.AddKeepsExactIff` and
  `ProtocolTheorems.StepExactIff` give the exact condition, `WindowFacts.DuplicateDropsReceivedPackages` an instance.
  Eager and lazy eviction differ for such arrivals only: `WindowSteps.EagerIsLazyIff`.
* **Sessions.** Two transmitters started in the same second have the same session, and session 0 also means "no session
  yet". `ProtocolTheorems.SafetyIff`: the listener hears a single transmitter's bytes in all runs exactly if the
  session numbers on the air are pairwise different and 0 is used only by a transmitter that is alone;
  `ProtocolTheorems.SafeByStartTimes` says the same of their start times, and `ProtocolTheorems.ConfusedRun` gives, for
  any two transmitters that violate it in either way, a run that prints both.
* **Newer sessions.** The session number is `htonl` of the time, so on little-endian hosts larger does not mean newer:
  `SessionNumbers.NewerIsLargerIff`.
* **Numbers of 2^63 and more** saturate in `strtol`: `RequestRoundTrip.RequestsRoundTripIff`, with the instance
  `RequestRoundTrip.LargeHoleMisread`.
* **Short reads** from standard input are dropped, so later numbers are no longer offsets in the input:
  `StdinReads.NumberIsOffsetIff`, with the instance `StdinReads.ShortReadShifts`.
* **Echo.** If `poll` reports an error for a slot in its write phase and `read` nevertheless delivers bytes, the unsent
  ones are lost: `EchoSlot.TurnConservesIff`, with the instance `EchoSlot.UnsentByteLost`.
* **Checksum accumulator.** Two bytes beyond 65536 it can overflow: `Checksum.OverflowAboveBound`.

## Deviations from the code

* `std::advance(it, -distance)` (big3/buffor.cpp:37) steps back from `begin()`, which is no position of the list. The
  model steps forward by `distance`, which makes the next line forget the holes about to be evicted, as intended.
* `requesting_loop` reads the numbers of the holes through the copied iterators after releasing the lock
  (big3/odbiornik.cpp:243-244). The model uses the keys, which are the same numbers (`Buffers.Buffer.IndexPointsIntoWindow`).
* A datagram that is the bare keyword contains no space, and the scan for one (big3/nadajnik.cpp:147-149) would leave
  the text. The model ends it with the text; such a datagram asks for nothing.
* Byte numbers plus one window are assumed to stay below 2^64 (`Protocol.Typed`, `Buffers.Buffer.AddToBuffer`);
  subtraction still wraps, as `Window.Distance` relies on. That every run then stays within what the methods require is
  `ProtocolTheorems.MethodsApply`.

## Model

| member | source | states |
|---|---|---|
| Buffers.Buffer.constructor | big3/buffor.h:24-28 | a new buffer is empty and satisfies the invariant for every package length |
| Buffers.Buffer.AddToBuffer | big3/buffor.cpp:10-46 | for every number whatever, the call terminates, keeps the invariant and leaves exactly the packages, hole index and capacity of the closed form `Window.Add`, having dropped exactly `Window.Evicted` packages from the front |
| Buffers.Buffer.FillHole | big3/buffor.cpp:12-17 | a hole that is found receives the data through its index entry and leaves the index; nothing else changes |
| Buffers.Buffer.StartWindow | big3/buffor.cpp:19-21 | the first package of an empty window fixes the capacity `max_data / len` |
| Buffers.Buffer.SlideInto | big3/buffor.cpp:22-43 | the padding and sliding loop ends, by the distance from front to number and then the free places, in the closed form; each package it drops moves the front by one package |
| Buffers.CountedByFront | big3/buffor.cpp:33-41 | the number of packages the loop drops is the closed form `Window.Evicted` |
| Buffers.Buffer.PushAndSlide | big3/buffor.cpp:29-41 | one iteration of the loop on the objects is the value step `Window.EagerStep` |
| Buffers.Buffer.PushHole | big3/buffor.cpp:29-32 | a blank package joins the back and the index maps its number to it |
| Buffers.Buffer.SlideFront | big3/buffor.cpp:33-41 | a full window forgets the holes below the eviction bound and drops its front |
| Buffers.Buffer.IndexPointsIntoWindow | big3/buffor.cpp:12-17 | every key of the hole index maps to its own package, which is in the window, still empty, and the only one with that number |
| Buffers.Buffer.Pop | big3/buffor.cpp:48-52 | the front package leaves; if it had data the invariant survives |
| Buffers.Buffer.Reset | big3/buffor.cpp:54-57 | window and index are emptied, which restores the invariant from any state |
| WindowFacts.AddKeepsWellFormed | big3/buffor.cpp:10-46 | every arrival keeps numbers contiguous, the size bound, and the index within the numbers of empty packages: no entry for an evicted or filled package |
| WindowFacts.AddKeepsExactIff | big3/buffor.cpp:10-46 | from an index that holds exactly the empty packages, the arrival leaves such an index if and only if it does not flush packages not yet received |
| WindowFacts.DuplicateDropsReceivedPackages | big3/buffor.cpp:22-43 | a concrete window in which a repeated package discards received ones and leaves a hole nobody will ask for |
| WindowFacts.AppendedEmptyNums | big3/buffor.cpp:29-41 | after an arrival ahead the holes are the old and skipped ones that were not evicted |
| WindowFacts.PopKeepsWellFormed | big3/odbiornik.cpp:365-375 | popping a received package keeps the invariant, and an exact index exact |
| WindowSteps.EagerIsLazyIff | big3/buffor.cpp:33-41 | for every window, whether or not its index is exact, forgetting all doomed holes at once gives the same window and index as forgetting each popped one: for every arrival ahead, and for any other if and only if no hole stood behind its place |
| WindowSteps.NoHoleMeansReceived | big3/buffor.cpp:33-41 | for an exact index that condition is the one under which the index stays exact |
| WindowSteps.LazyLoopPackages | big3/buffor.cpp:22-43 | the loop with a lazily kept index ends with the packages of the closed form |
| WindowSteps.LazyLoopIndex | big3/buffor.cpp:22-43 | and its index misses no empty package but those it missed before |
| WindowSteps.EagerStepKeepsAdd | big3/buffor.cpp:22-43 | one iteration of the code's loop does not change the closed form of the arrival, packages and index alike |
| WindowSteps.EagerBoundIsSafe | big3/buffor.cpp:34-39 | the eviction bound never exceeds the final front, however far ahead the arrival is |
| WindowSteps.DistanceMeans | big3/buffor.cpp:34-35 | the unsigned subtraction wraps exactly when the back has passed the number, and the cap then yields `size - 1`; otherwise it is the whole packages up to the number, aligned or not, capped |
| WindowSteps.AddStaysBelow | big3/buffor.cpp:10-46 | the last number of the window stays below 2^64 |
| WindowLaws.HoleIsFilled | big3/buffor.cpp:12-17 | the package asked for receives the data; no other package, hole or the capacity changes |
| WindowLaws.FirstIsTaken | big3/buffor.cpp:19-21 | the first package of an empty window is taken whatever its number |
| WindowLaws.LateOrFullIsDropped | big3/buffor.cpp:22-25 | a number before the front, or any when the window is full, changes nothing |
| WindowLaws.AheadIsPlaced | big3/buffor.cpp:22-43 | the k-th package behind the last: old packages, k-1 blanks, then it, less just as many at the front as do not fit |
| WindowLaws.AheadHoles | big3/buffor.cpp:29-41 | and asked for are exactly the old holes and the blanks still in the window |
| WindowLaws.OutOfPlaceFlushes | big3/buffor.cpp:22-43 | a duplicate or misaligned number: all up to it leaves, the rest moves up, blanks fill all places but one and only the last is asked for |
| ReorderFacts.ArrivalFollows | big3/buffor.cpp:10-46 | whatever place of the stream arrives - first, missing, late, far ahead so that the window slides, or with no room - the window covers, holds and asks for exactly the places a three-field account says, and evicts as many packages as its front moves |
| ReorderFacts.PrintFollows | big3/odbiornik.cpp:364-378 | a turn of the printer writes the front place's bytes or starts over, as the account says |
| ReorderFacts.WindowFollowsTrack | big3/odbiornik.cpp:322-326 | so the window follows the account through any arrivals and prints in which no received package comes again into a window with room |
| ReorderFacts.ReorderingIsUndone | big3/odbiornik.cpp:322-378 | when every package comes less than a window ahead of the moving front and the printer meets no hole, the stream is printed from the front on without gap, repetition or eviction, in whatever order the packages came |
| ReorderFacts.OrderDoesNotMatter | big3/odbiornik.cpp:322-378 | two such runs with the same packages and as many prints end with the same window, holes and output |
| ReorderFacts.StartFollows | big3/odbiornik.cpp:343-346 | every run of the data loop begins in such a state |
| ReceiverFacts.ReceiveFilters | big3/odbiornik.cpp:315-327 | with a session adopted, a datagram of an older one changes nothing and one of a newer one ends the run with nothing kept; any other is adopted and added |
| ReceiverFacts.PrintEffect | big3/odbiornik.cpp:364-378 | a received front package is printed once and leaves; a hole empties window and index and prints nothing; the next print is a first one exactly if the window is empty |
| ReceiverFacts.RestartBegins | big3/odbiornik.cpp:343-346 | leaving the loop keeps no session, window, hole or output |
| ReceiverFacts.AddInventsNothing | big3/buffor.cpp:10-46 | every package with data was in the window before or is the arrival itself |
| WindowFacts.AddMovesFront | big3/buffor.cpp:33-41 | the front moves forward by exactly the packages evicted: those that do not fit when appending, all up to the arrival's place when flushing |
| ReceiverFacts.AcceptKeepsOrder | big3/odbiornik.cpp:322-326 | the packages evicted account for the whole distance from the last print to the front |
| ReceiverFacts.PrintKeepsOrder | big3/odbiornik.cpp:365-378 | printing continues the numbering without repetition |
| ReceiverFacts.OutputIncreases | big3/odbiornik.cpp:365-378 | between two moments of an empty window printed numbers strictly increase, by exactly one package each if and only if none was evicted |
| ReceiverFacts.SliceOfStream | big3/odbiornik.cpp:365-378 | genuine packages printed one after another with none evicted are one slice of the stream, byte for byte |
| Receivers.Reception.Datagram | big3/odbiornik.cpp:308-327 | one received datagram: adopt, keep, ignore an older session, or stop and reset on a newer one, whatever its length; otherwise add under the lock, counting the packages dropped; the loop stops exactly if an adopted session is smaller than the datagram's |
| Receivers.Reception.PrintOne | big3/odbiornik.cpp:365-378 | one turn of the printer: the front's bytes go out, or a hole at the front resets the buffer |
| Receivers.Reception.EndRun | big3/odbiornik.cpp:343-346 | leaving the data loop resets the buffer and forgets the session |
| Fifos.Fifo.constructor | big3/fifo.cpp:28-31 | an empty list with room for `byte_size / one_pack_size` packages |
| Fifos.Fifo.AddToQueue | big3/fifo.cpp:21-26 | append, then drop the oldest if there are too many |
| Fifos.Fifo.RetrieveData | big3/fifo.cpp:33-39 | the search loop returns the data of the first package with the number, or nothing |
| Fifos.FifoIsLast | big3/fifo.cpp:21-26 | after any number of adds the list is exactly the newest `max_count` chunks in order |
| Fifos.RetrieveIsStream | big3/fifo.cpp:33-39 | the cache never exceeds `FSIZE` bytes and answers with the stream's own bytes exactly for its newest chunks, with nothing for any other number |
| Fifos.CutGrows | big3/nadajnik.cpp:238-243 | a full read adds one chunk, numbered by the length of the stream so far |
| StdinReads.ReadsFillTheCache | big3/nadajnik.cpp:231-245 | after any sequence of reads the FIFO holds the newest `FSIZE / PSIZE` chunks of the concatenated full reads |
| StdinReads.NumberIsOffsetIff | big3/nadajnik.cpp:231-246 | a chunk's number is its offset in standard input if and only if no earlier read came back short; in general they differ by the dropped bytes |
| StdinReads.ShortReadShifts | big3/nadajnik.cpp:231-246 | a short read before a full one: number 0, offset 1 |
| SessionNumbers.SessionsDiffer | big3/nadajnik.cpp:208 | session numbers of different seconds differ, and only second 0 yields session 0 |
| SessionNumbers.SameSessionIff | big3/nadajnik.cpp:208 | hosts of one byte order get the same session exactly in the same second, hosts of different order exactly in seconds with each other's bytes reversed |
| SessionNumbers.NewerIsLargerIff | big3/odbiornik.cpp:315-321 | comparing session numbers tells newer from older if and only if the host is big-endian |
| Senders.Transmitter.Read | big3/nadajnik.cpp:231-248 | only a read of exactly `PSIZE` bytes is multicast under `byte_num`, cached and counted; an empty one finishes |
| Senders.Transmitter.Control | big3/nadajnik.cpp:144-153 | a control datagram adds exactly its numbers to the pending requests; without the keyword, or as a lookup, it leaves them as they are |
| Senders.Transmitter.CopyAndClear | big3/nadajnik.cpp:169-172 | the pending requests become the batch, none left behind and none lost |
| Senders.Transmitter.Replay | big3/nadajnik.cpp:174-181 | each number of the batch is looked up once, smallest first, and multicast exactly if the cache returned a full chunk |
| Senders.ReplaysAre | big3/nadajnik.cpp:175-180 | the datagrams of a batch are exactly those of its cached numbers |
| Wire.DatagramRoundTrip | big3/nadajnik.cpp:98-109 | session, number and data read by a receiver of any byte order are those written by a transmitter of any byte order |
| Wire.DatagramLayout | big3/nadajnik.cpp:98-109 | on the wire: eight bytes of session, eight of number, each most significant first on hosts of either order, then the data |
| Bytes.HtonllStores | big3/nadajnik.cpp:21 | the `htonll` macro puts the number in network order on a host of either order |
| Bytes.NtohllLoads | big3/odbiornik.cpp:27 | `ntohll` recovers it on a host of either order |
| RequestText.PrintRequests | big3/odbiornik.cpp:239-260 | one pass over the holes in ascending order sends a datagram for every ten numbers and one for the rest |
| RequestText.AddToSet | big3/set.cpp:6-16 | the `strtok` loop adds exactly the non-negative numbers of the list to the set |
| RequestRoundTrip.StrtolReadsBack | big3/set.cpp:10 | a printed number reads back as itself, saturated at the largest `long` |
| RequestRoundTrip.RequestDatagramRoundTrip | big3/odbiornik.cpp:243-259 | the numbers of one datagram, its last comma dropped, are parsed back |
| RequestRoundTrip.BareKeyword | big3/odbiornik.cpp:257-259 | the datagram sent when a multiple of ten holes was printed asks for nothing |
| RequestRoundTrip.BatchesRoundTrip | big3/odbiornik.cpp:239-260 | all datagrams of a round together give back the numbers, at most ten in each |
| RequestRoundTrip.RequestsRoundTripIff | big3/nadajnik.cpp:146-152 | printing and parsing a set of holes is the identity if and only if all are below 2^63 |
| RequestRoundTrip.LargeHoleMisread | big3/set.cpp:10 | the hole 2^63 is read as 2^63 - 1 |
| RequestRoundTrip.DatagramText | big3/odbiornik.cpp:239-260 | keyword, space, decimal numbers separated by commas, none behind the last |
| RequestLaws.NoLeadingZero | big3/odbiornik.cpp:244 | numbers are printed without leading zeros |
| RequestLaws.SampleRequest | big3/odbiornik.cpp:239-260 | the request for chunks 7 and 512 letter by letter, and what it asks for |
| RequestLaws.NoKeywordNoRequest | big3/nadajnik.cpp:144-146 | a datagram without the keyword, or the lookup message, asks for nothing |
| RequestLaws.ListBehindFirstSpace | big3/nadajnik.cpp:146-151 | with the keyword anywhere, the list is what follows the first space |
| RequestLaws.TextBeforeKeyword | big3/nadajnik.cpp:146-151 | other text in front of the keyword does not matter |
| RequestLaws.NoSpaceNoRequest | big3/nadajnik.cpp:147-150 | without a space nothing is asked for |
| RequestLaws.TokensJoin | big3/set.cpp:6-16 | a comma separates: the tokens of two lists joined by one are those of both |
| RequestLaws.OneToken | big3/set.cpp:6-16 | text without a comma is one token, and no text none |
| RequestLaws.ParsedAre | big3/set.cpp:9-14 | a list adds exactly the numbers of its tokens that are not negative |
| RequestLaws.MinusInFront | big3/set.cpp:10-13 | a minus sign makes a number negative, saturated at the smallest `long`, so that it adds nothing unless it is zero |
| RequestLaws.PlusInFront | big3/set.cpp:10 | a plus sign changes nothing |
| RequestLaws.SpaceInFront | big3/set.cpp:10 | nor does white space |
| RequestLaws.JunkBehind | big3/set.cpp:10 | reading stops at the first character that is no digit |
| RequestLaws.JunkInFront | big3/set.cpp:10 | a token that begins otherwise reads as zero |
| ProtocolSafety.StepKeepsInv | big3/odbiornik.cpp:296-341 | every critical section of either program keeps the invariant of the whole system |
| ProtocolSafety.ServeSends | big3/nadajnik.cpp:175-180 | serving a batch puts on the air exactly the stream's own chunks for those of its numbers the cache still holds |
| ProtocolSafety.LookupsCount | big3/nadajnik.cpp:175-180 | a batch adds one lookup for each of its numbers and none for others |
| ProtocolTheorems.SafetyIff | big3/odbiornik.cpp:308-326 | for every set of transmitters, each with its own session, `PSIZE`, `FSIZE` and byte order: in every run over a network that loses, repeats and reorders, all that is printed is one transmitter's stream of the adopted session, at the printed number - if and only if sessions are pairwise different and 0 is used only by a lone transmitter |
| ProtocolTheorems.SafeByStartTimes | big3/nadajnik.cpp:208 | the same condition in terms of the seconds in which the transmitters were started |
| ProtocolTheorems.ConfusedRun | big3/odbiornik.cpp:315-321 | for any two transmitters with the same session, or the first with session 0, a run in which the first chunks of both are printed under one number |
| ProtocolTheorems.DeliveryFilters | big3/odbiornik.cpp:315-327 | in the system: delivering an older session's datagram changes nothing, a newer one's ends the run, any other is heard |
| ProtocolTheorems.NewerTakesOver | big3/odbiornik.cpp:315-327 | a datagram with a larger session number ends the run and, delivered again, is adopted |
| ProtocolTheorems.PrintingPrints | big3/odbiornik.cpp:364-378 | in the system: a printer's turn prints the front or starts over, and touches no transmitter |
| ProtocolTheorems.LeavingBegins | big3/odbiornik.cpp:343-346 | in the system: leaving the data loop keeps no session, window or output, and touches no transmitter |
| ProtocolTheorems.TransmitterSteps | big3/nadajnik.cpp:141-248 | a transmitter's step changes only itself; a full read joins its stream and is multicast under its first byte's number, requests join the pending ones, those become the batch, the batch is served; nothing else is sent |
| ProtocolTheorems.FirstAfterEmpty | big3/odbiornik.cpp:362-378 | in every run a package is printed as the first of a stretch only after a moment at which the window was empty and just the packages before it had been printed |
| ProtocolTheorems.StepBegins | big3/odbiornik.cpp:362-378 | after every step the next print is a first one exactly if the window is empty, or it was due before and nothing was printed |
| ProtocolTheorems.CacheBounded | big3/nadajnik.cpp:200 | in every run each cache stays within its `FSIZE` bytes, and holds the whole stream or has no room for another chunk |
| ProtocolTheorems.WindowBounded | big3/buffor.cpp:19-41 | in every run the window stays within `BSIZE` bytes unless it is a single package |
| ProtocolTheorems.OutputIsSlice | big3/odbiornik.cpp:365-378 | in every run of distinguishable transmitters, what is printed between two moments of an empty window with nothing evicted is one contiguous slice of the adopted stream |
| ProtocolTheorems.MethodsApply | big3/odbiornik.cpp:296-341 | in every state of every run the preconditions of the methods behind the steps hold: window invariant, 64-bit numbers, 64-bit requests |
| ProtocolTheorems.RequestsConserved | big3/nadajnik.cpp:150-181 | in every run each parsed number is pending, in the batch, or looked up since; and lookups never outnumber requests |
| ProtocolTheorems.OutputInOrder | big3/odbiornik.cpp:365-378 | in every run the output between two moments of an empty window is strictly increasing, with gaps exactly where packages were evicted |
| ProtocolTheorems.StepExactIff | big3/buffor.cpp:10-57 | a step of the system keeps the hole index exact if and only if it is not a flushing delivery |
| ProtocolTheorems.IndexStaysExact | big3/buffor.cpp:10-57 | along every run without flushing deliveries the hole index holds exactly the empty packages |
| ProtocolTheorems.HoleIsRecovered | big3/odbiornik.cpp:233-260 | from every reachable state, one round of request, parsing, serving and delivery fills the hole with the bytes the adopted session's transmitter first sent under its number, if its cache still holds them |
| Checksum.InCksum | scenariusze/10.gniazda-niskopoziomowo/in_cksum.c:3-32 | if the sum of the words is an `int`, nothing overflows, two folds suffice and the result is the complement of the ones' complement sum |
| Checksum.SumBound | scenariusze/10.gniazda-niskopoziomowo/in_cksum.c:16-25 | for up to 65536 bytes the sum of the words is an `int` |
| Checksum.OverflowAboveBound | scenariusze/10.gniazda-niskopoziomowo/in_cksum.c:7-25 | the bound is tight: 65538 bytes can exceed it |
| Checksum.WorkedExample | scenariusze/10.gniazda-niskopoziomowo/in_cksum.c:16-31 | the example of section 3 of RFC 1071 |
| Checksum.FoldsSuffice | scenariusze/10.gniazda-niskopoziomowo/in_cksum.c:28-30 | two folds and truncation leave the complement of the residue mod 65535, with zero only for the zero sum |
| Checksum.VerifiesIff | scenariusze/10.gniazda-niskopoziomowo/in_cksum.c:28-31 | a packet checks out exactly if its word sum is a positive multiple of 65535 |
| Checksum.ChecksummedVerifies | scenariusze/10.gniazda-niskopoziomowo/rawping.c:64-65 | writing the checksum into the zeroed aligned field makes the packet check out (section 1 of RFC 1071) |
| Checksum.WordChangeUnnoticedIff | scenariusze/10.gniazda-niskopoziomowo/in_cksum.c:16-31 | changing one word of a good packet goes unnoticed exactly if it exchanges 0 and 0xffff |
| Checksum.SwappedPacket | scenariusze/10.gniazda-niskopoziomowo/in_cksum.c:16-31 | swapping the bytes of all words, odd tail included, swaps the bytes of the result (section 2(B) of RFC 1071) |
| Checksum.HostsAgree | scenariusze/10.gniazda-niskopoziomowo/in_cksum.c:16-31 | hosts of either byte order store the same two checksum bytes |
| Checksum.OddTailIsPadded | scenariusze/10.gniazda-niskopoziomowo/in_cksum.c:22-25 | an odd last byte counts as if a zero byte followed |
| EchoSlot.TurnConservesIff | scenariusze/07.gniazda-TCP-z-wieloma-klientami/nonblocking-socket/echo-server-nonblocking.c:130-172 | a slot's turn writes and keeps exactly what it had and read, if and only if it does not read over an unsent buffer |
| EchoSlot.UnsentByteLost | scenariusze/07.gniazda-TCP-z-wieloma-klientami/nonblocking-socket/echo-server-nonblocking.c:130-146 | a slot and answers for which an unsent byte is overwritten |
| EchoSlot.ClosingTurn | scenariusze/07.gniazda-TCP-z-wieloma-klientami/nonblocking-socket/echo-server-nonblocking.c:133-164 | a turn that ends the connection echoes nothing it does not owe |
| EchoSlot.TurnEndsIff | scenariusze/07.gniazda-TCP-z-wieloma-klientami/nonblocking-socket/echo-server-nonblocking.c:132-164 | a turn ends the connection exactly if its `read` failed or met the end, or its `write` failed |
| EchoSlot.TurnReads | scenariusze/07.gniazda-TCP-z-wieloma-klientami/nonblocking-socket/echo-server-nonblocking.c:147-152 | bytes read are all kept to be written from then on |
| EchoSlot.TurnWrites | scenariusze/07.gniazda-TCP-z-wieloma-klientami/nonblocking-socket/echo-server-nonblocking.c:155-171 | as many unsent bytes are written as the kernel takes, the rest is kept, and the slot reads again exactly when none is left |
| EchoSlot.TurnRests | scenariusze/07.gniazda-TCP-z-wieloma-klientami/nonblocking-socket/echo-server-nonblocking.c:130-155 | a free slot, or one `poll` does not report, stays as it is |
| EchoServer.Loop.constructor | scenariusze/07.gniazda-TCP-z-wieloma-klientami/nonblocking-socket/echo-server-nonblocking.c:47-52 | the table starts free, the counter at zero |
| EchoServer.Loop.TakeConnection | scenariusze/07.gniazda-TCP-z-wieloma-klientami/nonblocking-socket/echo-server-nonblocking.c:109-126 | a new connection takes the first free slot and is counted, or is closed at once |
| EchoServer.Loop.ServeOne | scenariusze/07.gniazda-TCP-z-wieloma-klientami/nonblocking-socket/echo-server-nonblocking.c:129-173 | read phase, then write phase, updating buffer, positions, interest, counter and descriptor |
| EchoServer.Loop.ServeClients | scenariusze/07.gniazda-TCP-z-wieloma-klientami/nonblocking-socket/echo-server-nonblocking.c:129-173 | all slots take their turns in order |
| EchoServer.Loop.OneRound | scenariusze/07.gniazda-TCP-z-wieloma-klientami/nonblocking-socket/echo-server-nonblocking.c:87-177 | one pass of the main loop, and whether there is another |
| EchoRuns.ServeKeepsConserved | scenariusze/07.gniazda-TCP-z-wieloma-klientami/nonblocking-socket/echo-server-nonblocking.c:129-173 | for every connection bytes written, then the unsent rest, remain the bytes read - across slot reuse |
| EchoRuns.ServeKeepsAccounts | scenariusze/07.gniazda-TCP-z-wieloma-klientami/nonblocking-socket/echo-server-nonblocking.c:129-173 | counter and table stay in step with the connections open and closed |
| EchoRuns.AcceptKeepsAccounts | scenariusze/07.gniazda-TCP-z-wieloma-klientami/nonblocking-socket/echo-server-nonblocking.c:104-127 | so does a new connection, with or without a free slot |
| EchoRounds.AcceptTakes | scenariusze/07.gniazda-TCP-z-wieloma-klientami/nonblocking-socket/echo-server-nonblocking.c:109-126 | a connection takes the first free slot and waits for bytes; with none free it is closed and the table stays |
| EchoRounds.AcceptedIsOpen | scenariusze/07.gniazda-TCP-z-wieloma-klientami/nonblocking-socket/echo-server-nonblocking.c:109-119 | a connection that finds a free slot is held by one slot and not closed |
| EchoRounds.RoundServesAll | scenariusze/07.gniazda-TCP-z-wieloma-klientami/nonblocking-socket/echo-server-nonblocking.c:129-173 | after a round every slot is its own turn under its own answers, each connection read and wrote what its turn says, and no other did |
| EchoRounds.RoundClosesIff | scenariusze/07.gniazda-TCP-z-wieloma-klientami/nonblocking-socket/echo-server-nonblocking.c:104-173 | a round closes exactly the connection it refuses and those whose `read` or `write` ends them |
| EchoRounds.ClosedIff | scenariusze/07.gniazda-TCP-z-wieloma-klientami/nonblocking-socket/echo-server-nonblocking.c:87-177 | in every run a connection is closed if and only if some round refused it or its `read` or `write` ended it |
| EchoRounds.InterruptStops | scenariusze/07.gniazda-TCP-z-wieloma-klientami/nonblocking-socket/echo-server-nonblocking.c:91-104 | the interrupt closes the listening socket and keeps it from taking connections; without it the waiting one is taken |
| EchoRuns.EchoConservation | scenariusze/07.gniazda-TCP-z-wieloma-klientami/nonblocking-socket/echo-server-nonblocking.c:87-177 | in every run, on every connection, what the client received is a prefix of what it sent, and nothing in between is lost or reordered |
| EchoRuns.SlotAccounting | scenariusze/07.gniazda-TCP-z-wieloma-klientami/nonblocking-socket/echo-server-nonblocking.c:87-177 | in every run `activeClients` counts the slots in use, each connection is in one slot or closed once, and when the loop may end all are closed |
| EchoClient.Client.SendLine | scenariusze/07.gniazda-TCP-z-wieloma-klientami/nonblocking-socket/echo-client-timeout.c:78-96 | through partial writes and timeouts a line leaves in order, no byte twice or skipped, exactly as many as `write` took; the loop ends as soon as the line is out and gives up exactly if `write` broke or the `read` after it ended; what it reads on the way is received in order |
| EchoClient.Client.ReadSomething | scenariusze/07.gniazda-TCP-z-wieloma-klientami/nonblocking-socket/echo-client-timeout.c:21-35 | received bytes are counted; end of stream and errors end the program |
| Framing.SendNumbers | scenariusze/06.gniazda-TCP/nums-client.c:53-64 | the client writes one packed record per number, sequence numbers counting up |
| Framing.Serve | scenariusze/06.gniazda-TCP/nums-server.c:53-69 | however the stream is cut into reads, the server reports its whole records in order |
| Framing.RecordLayout | scenariusze/06.gniazda-TCP/nums-client.c:56-61 | on the wire: two bytes of sequence number, four of number, most significant first |
| Framing.RecordArrives | scenariusze/06.gniazda-TCP/nums-server.c:63-66 | between hosts of any byte order a record reports its number itself if it fits in 32 bits without a sign, otherwise the one congruent to it mod 2^32; likewise the sequence number in 16 |
| Framing.NumbersArrive | scenariusze/06.gniazda-TCP/nums-server.c:53-69 | for every segmentation and every point at which the connection ends, exactly the numbers whose records arrived whole are reported, in order, each as itself or congruent to itself mod 2^32 if it does not fit |
| LinkedSets.LinkedSet.AddNumber | big/set.c:26-45 | the number is linked in behind the last node unless some node has it |
| LinkedSets.LinkedSet.AddToSet | big/set.c:21-48 | the comma list is added number by number |
| LinkedSets.LinkedSet.Pop | big/set.c:50-58 | the first number leaves the list |
| LinkedSets.LinkedSet.Drain | big/nadajnik.c:184-191 | draining ends and yields each number of the set once, in list order |
| LinkedSets.ListRefinesSet | big/set.c:21-48 | after any sequence of calls the list is without repetitions and holds exactly the union of the numbers parsed, as the `std::set` would |
| LinkedSets.FirstRequestOrder | big/set.c:26-45 | after any sequence of calls the numbers stand in the order in which they were first requested |
| LinkedSets.AddedInTwo | big/set.c:21-48 | two calls add what one call with both lists would |

## Left out

- Sockets, `poll`, multicast membership, signals, threads and clocks: they are the steps of the models and the answers passed to the methods. `_POSIX_OPEN_MAX` is a parameter.
- Starting and joining the printing and requesting threads, their flags, and the three-quarters threshold that starts the printer: the printer may take a step whenever the window is not empty, and at most one is assumed to run.
- Partial writes to standard output and data races: every critical section is one atomic step.
- Datagrams of 16 bytes or fewer, which the transmitter never sends.
- Packages of differing lengths in one window: transmitters that can be taken for one another are assumed to use the same `PSIZE` wherever the shape of the window matters (`ProtocolSafety.Uniform`, in `OutputInOrder`, `StepExactIff`, `IndexStaysExact` and `MethodsApply`); all others may differ, and `ProtocolTheorems.SafetyIff` needs no such assumption, since distinguishable transmitters satisfy it and the failing runs never mix lengths.
- Control datagrams containing NUL characters or longer than the buffer.
- Station discovery, the station menu, argument parsing and error reporting.
- Memory management: freed nodes and buffers simply become unreachable.
- The earlier drafts of the radio in `big/` and `big2/` except for the linked-list set, the copies in `SIK/`, and the other course scenarios.
- ProtocolTheorems.HoleIsRecovered: says that the round can happen, not that the network and the schedulers let it.
