# Baby MIND DAQ: from raw containers to recorded events

The readout of a front-end board arrives in containers that cut the data stream at arbitrary places. The scanner marks the spill headers and spill trailers in each container, one fragment builder per board stitches containers into whole spills inside a memory bank, and the event builder collects completed spills of all boards in an event bank and records it when it holds as many fragments as there are boards.

This project models that pipeline down to the bytes of the banks and proves what it does over whole runs, refused containers included.

How it is built:

- `Bytes`, `SpillWords`, `DataHeaders`: little-endian fields with their width, words and leftover bytes of a container, markers, the header layouts. The decoding of a data word (`MDdataWordBM`) is a parameter, so everything holds for every decoder.
- `DataContainer`, `MemBank`, `DataScanner`, `FragmentBuilder`, `EventBuilder`: the classes of the program, with their fields, loops and branches. Each method is proved against a specification that does not look like it: the fragment builder, which slices and compares offsets, against a parser that sees one word at a time; the event builder against a state machine without memory.
- `SpillParser`, `SpillGrammar`, `FragmentRuns`, `Completeness`, `SizeHeader`: that parser, the grammar of the streams it accepts, and runs of one builder over any containers. The builder keeps the list of the containers it was given as ghost state, so results about runs hold of its bank.
- `EventLayout`, `EventReader`: the bytes of an event, its markers, and reading it back.
- `EventModel`, `EventRuns`, `Lockstep`, `Sessions`: runs of the event builder over any interleaving of boards, and any order of initialisation, containers and closing. The event builder keeps the list of what was done to it as ghost state, so results about runs hold of its recorder and its bank.
- `Counterexamples`: inputs on which the program does not do what one might expect.

Four things the proofs bring out:

- After a container has been collected whole, the size header of the fragment bank counts that container twice (src/BMDDataLib.cpp:101 adds what `append` already counted). The next append repairs it, so a recorded size is always right; `SizeHeaderWrongIff` says exactly when the size is wrong, and `FillerCountedTwice` is an input. The unit tests do not notice, because they assign where they mean to compare (tests/TestDataLib.cpp:203).
- An event is recorded when the number of fragments is right, although the comment there speaks of all fragments (src/BMDWorkers.cpp:212-213). One board can fill an event; events are complete exactly while the boards run in lockstep, which `LockstepInputIff` reads off the spill trailers in the containers.
- With 65536 boards or more no event is ever recorded, because the fragment count has 16 bits.
- The consistency check compares the header with the four bytes that begin eight bytes before the last word. In a fragment of less than twelve bytes these begin in the size header: a spill of two words that agree with each other is refused unless a zero word agrees with its header too, and leftover bytes at the end of a container shift what is compared.

## Model

| member | source | states |
|---|---|---|
| `SpillWords.OffsetsExact` | src/BMDWorkers.cpp:63-89 | The marker lists the scanner makes contain every word of their kind and nothing else, in strictly increasing order, each aligned and inside the container |
| `SpillWords.ScanCoversAll` | src/BMDWorkers.cpp:64-70 | Counting whole words only (size divided by four) misses no marker, also when bytes are left over |
| `DataScanner.BMDDataScanner.Process` | src/BMDWorkers.cpp:63-89 | The two-phase scan ends and appends exactly the markers of a single filter over the words, wherever the trigger tag switches phases; a container without a whole word is an error and stays as it is |
| `DataScanner.BMDDataScanner.Read` | src/BMDWorkers.cpp:93-116 | Scanning one more word extends the marker lists and the trigger tag as the filter says |
| `DataScanner.BMDDataScanner.ReadAndCheck` | src/BMDWorkers.cpp:118-151 | The same in the second phase; a trigger tag mismatch has no effect and the status is always good |
| `DataScanner.BMDDataScanner.Init` | src/BMDWorkers.cpp:59-61 | The trigger tag starts at zero |
| `Bytes.FieldRoundTrip` | src/BMDDataHeaders.h:36-62 | A header field reads back what was stored, modulo its width |
| `Bytes.FieldByte` | src/BMDDataHeaders.h:36-62 | The byte order of header fields: the byte at position i is the digit of weight 256^i of the number stored |
| `Bytes.FieldDigits` | src/BMDDataHeaders.h:36-62 | A field reads as the one number below 256^width whose digits its bytes are, lowest first |
| `Bytes.FieldAdd` | src/BMDDataLib.cpp:101 | Adding to a stored field equals storing the sum, wrap-around included |
| `MemBank.BMDMemBank.constructor` | src/BMDDataLib-inl.h:28-40 | A new bank is a header that tells its own size, without markers |
| `MemBank.BMDMemBank.Append` | src/BMDDataLib-inl.h:70-75 | Bytes and rebased markers go behind what was there, and the size header then tells the true size |
| `MemBank.BMDMemBank.AppendSlice` | src/BMDDataLib-inl.h:77-84 | The same for a slice, with only the markers inside it |
| `DataContainer.RebaseExact` | src/BMDDataLib-inl.h:70-84 | For marker lists of any length: appending a range takes over exactly the markers inside it, in their order, each moved by the same distance |
| `MemBank.BMDMemBank.Clear` | src/BMDDataLib-inl.h:86-91 | Back to a bare header with true size and zero counts, no markers; time and id of an event header keep their last values |
| `MemBank.BMDMemBank.HeaderClear` | src/BMDDataLib.cpp:32-41 | The fields that are reset, per header type, and that time and id are not |
| `SpillParser.FeedSkips` | src/BMDDataLib.cpp:90-94 | Outside a spill a container without boundaries changes nothing |
| `SpillParser.FeedOpens` | src/BMDDataLib.cpp:67-72 | A header without later trailer: the word-at-a-time parser keeps exactly the words from it on, also when a stray trailer comes first |
| `SpillParser.FeedWhole` | src/BMDDataLib.cpp:73-80 | Header and later trailer: exactly the words between them become a fragment, or a contradicted spill |
| `SpillParser.FeedContinues` | src/BMDDataLib.cpp:97-102 | Inside a spill a container without boundaries is collected whole |
| `SpillParser.FeedCloses` | src/BMDDataLib.cpp:103-111 | Inside a spill a lone trailer ends it, what follows is dropped |
| `SpillParser.FeedTurns` | src/BMDDataLib.cpp:112-126 | Trailer, then header: the open spill ends and the next one begins, or a contradiction stops before the header |
| `SpillParser.FeedRefused` | src/BMDDataLib.cpp:129-132 | The remaining cases are refused as inconsistent and change nothing |
| `FragmentBuilder.DataFragmentBuilder.Process` | src/BMDDataLib.cpp:43-133 | The byte-slicing code refines the word-at-a-time parser: same spill, same error, fragment handed over exactly when the parser emits it; the bank stays empty or with one header marker right behind its own header; a refusal changes no bank except that a contradicted spill stays; all slices are in range |
| `FragmentBuilder.DataFragmentBuilder.Complete` | src/BMDDataLib.cpp:76-79 | Appending up to the trailer and moving hands over exactly the collected words, if header and trailer agree |
| `FragmentBuilder.DataFragmentBuilder.KeepFrom` | src/BMDDataLib.cpp:68-72 | The words from the header on, with the header marker right behind the bank header |
| `FragmentBuilder.DataFragmentBuilder.KeepAll` | src/BMDDataLib.cpp:99-102 | The whole container behind the open spill, counted twice in the size header |
| `FragmentBuilder.DataFragmentBuilder.MoveToEventBank` | src/BMDDataLib.cpp:135-156 | The event bank gains the fragment with true size and markers and the bank is emptied, exactly when header and trailer agree; otherwise neither bank changes; the word eight bytes before the trailer is always in the bank |
| `FragmentBuilder.DataFragmentBuilder.SetBoardId` | src/BMDDataLib.h:128 | The board id is replaced |
| `FragmentBuilder.AppendRepairs` | src/BMDDataLib-inl.h:77-84 | Whatever the size header said, after an append the bank is exactly the stored form of the collected words |
| `FragmentBuilder.AddOvercounts` | src/BMDDataLib.cpp:100-101 | The second addition makes the size header exactly one container too large |
| `SizeHeader.SizeWrongIff` | src/BMDDataLib.cpp:97-111 | Over any run the size header differs from the true size if and only if a nonempty container without boundaries came inside an open spill and all after it were refused without a contradiction; it is then too large by exactly that container |
| `SizeHeader.SlackIff` | src/BMDDataLib.cpp:97-111 | The same about the excess itself: it is positive if and only if such a container exists, and then it is that container's length |
| `FragmentBuilder.DataFragmentBuilder.SizeHeaderWrongIff` | src/BMDDataLib.cpp:97-111 | The same about the bytes of the builder's bank, whatever containers the builder was given |
| `Counterexamples.FillerCountedTwice` | src/BMDDataLib.cpp:97-102 | A header word, then one other word: the bank has 16 bytes and its size header says 20 |
| `Counterexamples.OverCount` | src/BMDDataLib.cpp:97-102 | The size header is wrong in a concrete run |
| `Completeness.MatchesMeaning` | src/BMDDataLib.cpp:136-151 | For every fragment, leftover bytes included: the header is compared with the four bytes that begin eight before the last word, and these lie in the data if and only if the fragment has at least twelve bytes; otherwise they begin in the size header |
| `Completeness.MatchesThirdLast` | src/BMDDataLib.cpp:142-151 | If the last three pieces are whole words, the header is compared with the first word of the trailer |
| `Completeness.MatchesTwoWords` | src/BMDDataLib.cpp:142-151 | A spill of two words is compared with a zero word, whatever its trailer says |
| `Counterexamples.TwoWordsRefused` | src/BMDDataLib.cpp:142-151 | Header and trailer words that agree are refused if a zero word disagrees with the header |
| `Counterexamples.SoundSpillRefused` | src/BMDDataLib.cpp:142-151 | A concrete spill whose header and trailer have the same tag and board, refused |
| `Counterexamples.LeftoverShiftsCheck` | src/BMDDataLib.cpp:142-151 | With one leftover byte between header and trailer the check reads three bytes of the size header and the first byte of the header itself |
| `SpillGrammar.ParserMeaning` | src/BMDDataLib.cpp:43-156 | The parser accepts a stream with given fragments and open spill if and only if the stream is gaps without header, well-formed fragments and that spill, in turn |
| `FragmentRuns.AtMostOne` | src/BMDDataLib.cpp:43-133 | One container completes at most one fragment, none if refused |
| `FragmentRuns.FaultKeeps` | src/BMDDataLib.cpp:45-60 | Every error but the contradiction leaves the held spill as it was |
| `FragmentRuns.RunRefinesParser` | src/BMDDataLib.cpp:43-156 | For every list of containers accepted, fragments and open spill are those of the word-at-a-time parser on the concatenation of all words |
| `FragmentRuns.AcceptedIff` | src/BMDDataLib.cpp:54-132 | A run is accepted if and only if the parser has no objection to the stream, no container has two headers or two trailers, and no lone trailer comes outside a spill |
| `FragmentRuns.AcceptedMeaning` | src/BMDDataLib.cpp:43-156 | A run from an empty builder is accepted with given fragments and open spill if and only if its words are gaps, those fragments and that spill in turn, and the cuts between containers fit |
| `FragmentRuns.ChunkingIndependence` | src/BMDDataLib.cpp:62-127 | Two accepted ways to cut the same data give the same fragments and the same open spill |
| `FragmentRuns.RunConserves` | src/BMDDataLib.cpp:68-125 | In an accepted run every word is in exactly one fragment, in the open spill, or in a gap |
| `FragmentRuns.RunShapes` | src/BMDDataLib.cpp:135-151 | Over any run, refusals included, only well-formed fragments are handed over |
| `FragmentRuns.Latched` | src/BMDDataLib.cpp:54-60 | After a contradiction every later container is refused and nothing changes |
| `Completeness.AlternatingParses` | src/BMDDataLib.cpp:54-132 | At every point of an alternating stream the parser is without error and has emitted one fragment per trailer |
| `Completeness.AlternatingAccepted` | src/BMDDataLib.cpp:54-132 | Headers and trailers that alternate and agree, cut in any way with at most one of each per container, are never refused, and fragments equal trailers in number |
| `EventLayout.HoldsOneMore` | src/BMDDataLib.cpp:153-154 | Appending a fragment bank and counting it keeps the event layout, with one more record |
| `EventLayout.HoldsStamped` | src/BMDWorkers.cpp:214-216 | Stamping time and id gives exactly the bytes of the event |
| `EventLayout.EventDigits` | src/BMDDataHeaders.h:42-62 | The header of a recorded event byte by byte: at offsets 0, 8, 16 and 22 the digits, lowest first, of size, time, id and number of fragments, and zero between id and number |
| `EventReader.EventRoundTrip` | src/BMDDataHeaders.h:44-62 | Jumping from size field to size field behind the event header makes as many jumps as the header counts, lands on the event size and recovers every fragment; time and id read back modulo their widths |
| `EventReader.MarkersPoint` | src/BMDDataLib-inl.h:71-84 | After any number of appends the k-th pair of event markers points at the first and last word of the k-th fragment, and the pairs follow one another |
| `EventReader.EventLength` | src/BMDDataLib.cpp:153-155 | An event is its header plus, for each fragment, a size and its words |
| `EventModel.GroupedStep` | src/BMDWorkers.cpp:210-218 | One container keeps: recorded and pending fragments are the completed ones in order, the bank holds fewer than there are boards, ids count up |
| `EventModel.EventsAreGroups` | src/BMDWorkers.cpp:210-218 | From a fresh start, over any calls, the k-th event is the k-th group of N completed fragments with the k-th id, and the rest is in the bank |
| `EventModel.ProcessStamps` | src/BMDWorkers.cpp:212-217 | A container adds at most one event, which carries the time the container came with; earlier events stay |
| `EventModel.RunStamps` | src/BMDWorkers.cpp:212-217 | Over every run, from any state, the k-th event carries the time of the container with which the number of events went from k to k + 1 |
| `EventRuns.EventTimes` | src/BMDWorkers.cpp:212-217 | The k-th event carries the time of the one container with which the number of fragments completed by all boards reaches k + 1 times the number of boards |
| `EventModel.RunFlattens` | src/BMDWorkers.cpp:175-232 | From any state, with any number of boards: what was there, then everything the builders complete, is exactly what ends up recorded and pending, in order |
| `EventRuns.CollectProjects` | src/BMDWorkers.cpp:175-210 | What a board completes and holds depends on its own containers alone |
| `EventRuns.InterleavingProjection` | src/BMDWorkers.cpp:175-232 | For any boards and any interleaving, errors included, the fragments of a board in all events and the bank are, in order, what its builder makes alone |
| `EventRuns.BoardConserves` | src/BMDWorkers.cpp:175-232 | Every word of a board whose containers were all accepted is in exactly one of: a gap, one of its fragments in the events or the bank, the spill its builder holds; in the order of the stream |
| `EventRuns.RecordedWellFormed` | src/BMDWorkers.cpp:175-232 | Every fragment recorded or pending in any run starts with a spill header, ends with the trailer, has no boundary inside, agrees with itself, and belongs to a registered board |
| `EventRuns.BankIndexed` | src/BMDDataLib-inl.h:71-84 | Over every run, in any bytes laid out as an event of the pending fragments, the k-th marker pair of that layout points at a spill header and a spill trailer, pairs in order (`BankPoints` is the same about the bank of the object) |
| `EventRuns.BankAligned` | src/BMDDataLib-inl.h:71-84 | With containers of whole words all markers of the event bank stay multiples of four |
| `EventRuns.EventsReadBack` | src/BMDWorkers.cpp:213-217 | The recorded bytes of the k-th event read back as the k-th group of completed fragments, with true size, count, id and time |
| `EventRuns.RecordedTotal` | src/BMDWorkers.cpp:213-217 | All recorded bytes are one event header per event, and per fragment a size and its words |
| `Lockstep.LockstepIff` | src/BMDWorkers.cpp:212-217 | Every event holds exactly one fragment of each board, and the bank no two of one, if and only if the numbers of completed spills of any two boards never differ by more than one |
| `Lockstep.LockstepEvents` | src/BMDWorkers.cpp:213-217 | In lockstep the k-th event holds of each board exactly its k-th spill |
| `Lockstep.LockstepInputIff` | src/BMDWorkers.cpp:212-217 | On containers of whole words, with at most one header and one trailer each, from boards whose headers and trailers alternate: every event holds exactly one fragment of each board, and the bank no two of one, if and only if at every point the numbers of spill trailers received from any two boards differ by at most one |
| `Counterexamples.OneBoardFillsEvent` | src/BMDWorkers.cpp:212-213 | Two spills of one of two boards make an event without the other board |
| `Counterexamples.IncompleteEvent` | src/BMDWorkers.cpp:212-213 | A concrete run with an incomplete event |
| `Sessions.SessionsNumbered` | src/BMDWorkers.cpp:160-240 | Over any number of cycles the event ids are 0, 1, 2, ... modulo 2^32 |
| `Sessions.SessionIndependent` | src/BMDWorkers.cpp:160-240 | A cycle records what it would record alone in a new event builder, under the next ids; nothing of an earlier cycle gets in |
| `Sessions.OpsSound` | src/BMDWorkers.cpp:160-240 | Over any order of initialisation, containers and closing: ids are 0, 1, 2, ... modulo 2^32, every fragment held, pending or recorded is well formed, an event has less than 2^16 of them, and the bank holds fewer than there are boards |
| `Sessions.OpsStamp` | src/BMDWorkers.cpp:160-240 | Over any order of operations the k-th event carries the time of the container with which the number of events went from k to k + 1 |
| `Sessions.OpsOfRun` | src/BMDWorkers.cpp:175-232 | Containers after any operations are a run from where these lead, so that all results about runs apply |
| `Sessions.SessionsAreOps` | src/BMDWorkers.cpp:160-240 | Cycles are a special order of operations |
| `Sessions.TooManyBoards` | src/BMDWorkers.cpp:213 | With 2^16 boards or more nothing is ever recorded |
| `EventBuilder.BMDEventBuilder.constructor` | src/BMDWorkers.h:106-107 | No bank, no builders, id zero |
| `EventBuilder.BMDEventBuilder.Init` | src/BMDWorkers.cpp:160-173 | An empty event bank and a fresh builder with memory of its own for each board; ids and records go on |
| `EventBuilder.BMDEventBuilder.Process` | src/BMDWorkers.cpp:175-232 | The object, with its banks and bytes, does what the state machine says; recorded bytes are exactly the events; an error is fatal, records nothing and leaves event bank and container alone; success recycles the container |
| `EventBuilder.BMDEventBuilder.FeedBoard` | src/BMDWorkers.cpp:207-210 | Only the builder of the container's board and the event bank change; the wrong-board error cannot occur here |
| `EventBuilder.BMDEventBuilder.RecordIfComplete` | src/BMDWorkers.cpp:212-218 | Exactly when the 16-bit count equals the number of boards, the bytes of one event are recorded, with the current id, the time given and the fragments of the bank |
| `EventBuilder.BMDEventBuilder.WriteEvent` | src/BMDWorkers.cpp:214-217 | What goes to the recorder is exactly the event's bytes, and the bank is empty again |
| `EventBuilder.BMDEventBuilder.WrittenReadsBack` | src/BMDWorkers.cpp:213-217 | Whatever was done to the event builder, the k-th buffer in its recorder reads back as the k-th event the operations lead to: true size and number of fragments, id k modulo 2^32, the time of the container that made it the k-th event, and by the size fields alone every fragment, all well formed |
| `EventBuilder.BMDEventBuilder.WrittenStamp` | src/BMDWorkers.cpp:214-217 | There is exactly one such container in the history, and the header bytes of the k-th buffer are the digits of size, that container's time, id and number of fragments |
| `EventBuilder.BMDEventBuilder.BankPoints` | src/BMDDataLib-inl.h:71-84 | Whatever was done to the event builder, the k-th markers of its event bank point at the spill header and spill trailer of the k-th pending fragment, and pairs follow one another |
| `EventBuilder.BMDEventBuilder.Close` | src/BMDWorkers.cpp:234-240 | Builders and bank are dropped, the id counter stays |

## Left out

- MemBank.BMDMemBank.constructor: that the counts of a fresh bank are zero is an assumption about `resize`, which src/BMDDataLib-inl.h:36-40 does not establish; the unit tests expect it (tests/TestDataLib.cpp:91-96).
- The state machine hooks, the worker threads and the FIFOs: their library is not part of this model, so scanning before building is a precondition (`Scanned`), and what a worker does after a fatal status is not said.
- The base class `UFEDataContainer`: its source is not part of this model; the class here states what the unit tests pin down (tests/TestDataLib.cpp:139-147, tests/TestDataLib.cpp:190-193, tests/TestDataLib.cpp:222-236). Allocation and growth are not modelled, and cleared or resized buffers keep their first bytes.
- Containers of 4 GiB and more: the position passed to `append` has 32 bits, so `Scanned` bounds the container size.
- DataFragmentBuilder.Process: the input and output slots set by `setInput` and `setOutput` are parameters here; its two halves and its append-and-move steps are methods of their own; the case of two headers in the bank is gone because the bank never holds two.
- EventBuilder.BMDEventBuilder.Process: a container of a board that was not registered is excluded by a precondition, because the original then calls a null pointer.
- The bit layout of a data word (`MDdataWordBM`) and a machine other than 64-bit little-endian.
- Time stamps are arbitrary numbers; console messages are not modelled.
- `UFEDataRecorder`: a list of what was written instead of files.
- Copy and move of memory banks, memory sizes, destructors, `isSuperEvent`, `eventType`, `getDataWord`: easy or without effect on results.
- `BMDReadout`, USB devices, configuration files, the GUI and the control tools.
