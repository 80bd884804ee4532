# Networked Dragster: a model and its proofs

The Atari 2600 game Dragster, played by two consoles over a relay: delay-based lockstep with an eight-bit
tick, a transport that runs whenever the frame has slack, a relay in Python with a port to C, and the
disassembler the game's source is generated with. This project models the three and proves what they are
for. `dafny verify dfyconfig.toml` checks all of it.

## How it is laid out

The consoles. `Bytes` and `Wire` are the cells and the eight-byte frame. `Sim` is the simulation as the
netcode sees it: the game logic is a function parameter, the clock, the checksum and the input mixing are
the code's. `Console` says what each routine does to a console's cells as values, and the class
`Cells.Console` is the routines themselves, one packed entry byte, two rings and the RAM array updated in
place, each proved to do what `Console` says. `Lockstep` puts two consoles and two byte streams into one
step system: frames of either console, transport micro-steps, arrivals cut anywhere, refusals, a goodbye.
One more event, at any time, overwrites any RAM cells of a console with any bytes: what its kernels and its
stalled frames do to the cells the netcode does not share. Each side also keeps unbounded values of its tick
and watermark and a history of captures, records and inputs; no step reads them to decide what to do. Any
number of micro-steps may fall between two frames.

`Skew` holds the invariant of all runs and what follows without any assumption on timing, `SimClock` what
FrameCnt counts, and `Transactions` what the console asks its cartridge for and gets. `Agreement` holds what
follows under the hypothesis H: no READ batch moves the watermark more than three ticks past the last tick
the remote ring has a byte for. H is a condition on the READ about to be taken. `Lanes` says what each
player's stick, trigger and switches then drive. `RemoteRing` shows that three is exact for one record, and
`Stale` that H does not come by itself: it builds a run on which the consoles disagree, and goes on from any
batch that breaks it. The results about simulations are relative
to a set of shared cells, which the game keeps to and nothing else draws; `Misfire` shows what one checksummed
cell outside it does. `Progress` shows that a match never gets stuck. `Restage` and `Repair` show that one
arming of the desync repair brings two drifted simulations together. `Session` is the START that begins it.

The relay. `Relay` is the room as values, with the random choices as given streams. `RelayServer` is the
Python server's methods over dictionaries changed in place; `RelayC` is the C port over its tables, `order[]`,
`by_name[]`, the slots with their generations and the deferred freeing, with `RelayStore` saying what it
means for those tables to hold a room. Every C method is proved to leave the tables holding the room that
the step leaves, as long as no table is full, and never to index out of bounds in any case. The room's steps
are the same for both servers but for two frames, which `Config.port` tells apart: `Parting` proves that those
two and no others part the servers, and `JoinFirst` runs both up to one. `Outputs` shows that checksum logs
never reach an output, and `RelayRun` puts the C methods into the port's main loop and compares whole runs;
`Refusal` is a run on which the port turns away a connection the Python server takes. `Reassembly`,
`Caps`, `Hello`, `Names`, `Answers`, `Pairing`, `Forwarding` and `Checksums` are the properties of the room.
`Delivery` keeps a ledger of what passed through the relay and proves that what a console receives in a match
is the stream of START, whole records and one goodbye that `Lockstep` plays over.

The disassembler. `Isa` is its opcode table and `Columns` the processor's layout it has, `DgMap` the region
map, `Trace` reachability in an image and `Flow` the same by the opcode bytes alone, the class in
`Disassembler` the tool's own walk, labels, checks and printing. `Listing` is an assembler that picks the
short form of an address whenever it may; `Printer` the printed source and `Naming` what its names mean;
`PrintRoundTrip` the proof that assembling it gives the image back.

## Where the code and its comments part

The code is followed in each case, and the difference is a lemma where it can be.

- The consoles' ticks differ by up to three, not two, because the tick moves before the gate; the watermark
  leads by up to five, not the four of src/dgdefs.inc:89-95 (`Skew.SkewAndWrap`, and runs that get there,
  `Stale.BoundsAreReached`).
- src/dgnet.inc:139-145 and 303-305 take it that lockstep keeps records close enough and that order does not
  matter; both need H (`Stale.WithoutHTheyDisagree`, `RemoteRing.JumpIsSafeExactly`,
  `Stale.LateBatchRunsStale`).
- src/dgcrc.inc:58-59 says swapped cells do not cancel. Neighbours in the fold do exactly when they are equal
  or their folds are 0 and 255 (`Sim.SwappedCellsShowExactly`), and there is such a state
  (`Sim.ASwapCancels`). Its covered cells are fifty.
- src/dgcrc.inc:118-120 and src/dgcap.inc:77-81 count the watchdog in ticks; it counts frames
  (`Skew.WatchdogCountsFrames`).
- src/dgnet.inc:327-331 says a clean leave is instant. It is exactly when the next boundary has to wait; when
  its input has come the tick runs, clears the count, and sixteen stalled frames follow
  (`Transactions.GoodbyeEndsAtTheGate`, `Skew.WatchdogCountsFrames`).
- server/c/src/dragster-relay.c:130 bounds the checksum map by nine; the paired path never trims, so a side
  that always reports second keeps every entry (`Checksums.SecondSideGrows`, `Checksums.MapGrowsExactly`).
- server/c/src/dragster-relay.c:106-122 leaves out what others append (`Reassembly.OneReceiveToOthers`), and
  645-648 calls a branch unreachable that a drop in the same batch reaches (`Refusal.RefusedBelowTheCaps`).
- The C port claims to follow the Python server on every input. It does so while its tables have room, no live
  client's partner is a dropped one at the end of a batch, and neither of two frames has come
  (`RelayRun.Serve`). A JOIN from a client that has not said HELLO, while somebody waits, raises
  AttributeError at server/dragster_relay_server.py:307, which nothing catches, and the Python server is gone;
  the port pads the empty name and pairs the two. A HELLO whose name a thousand draws do not free makes the
  port drop the client and the Python server draw on. No other frame parts them (`Parting.FramePartsExactly`,
  `Parting.RunsPartExactly`, and a run, `JoinFirst.ServersPart`). The ROM sends no JOIN.
- Table by table the rest is exact: the names (`RelayC.NameSetExactly`), the checksums
  (`RelayC.Server.CrcSet`), which no output depends on (`Outputs.StepAlike`), the slots
  (`RelayC.Server.AcceptClient`) and the links kept (`RelayC.Server.Reap`). A JOIN or HELLO from a paired or
  dropped client can leave such a link; the ROM sends neither (`Pairing.JoinIsSafeExactly`,
  `RelayC.PoliteHasNoDangling`).

## Model

| member | source | states |
|---|---|---|
| Bytes.NotBehindIsExact | src/dginput.inc:125-131 | The sign of the eight-bit difference decides the comparison of the unbounded values whenever they lie within a signed byte of each other |
| Wire.DecodeEncode | src/dgnet.inc:321-347 | What one console sends, record or goodbye, is what the other reads, the check byte being accumulated in one order and tested in another |
| Wire.OneBadByteIsDropped | src/dgnet.inc:335-346 | A record damaged in any one of the five checked bytes is dropped and never acted on |
| Wire.TakenExactly | src/dgnet.inc:321-347 | Of any eight bytes, a record is taken exactly when its type is 6 and its last six bytes fold to $A5, a goodbye when its type is 11, and nothing else is; the tick is first, the window newest first, the checksum fifth |
| Wire.SentLayout | src/dgnet.inc:104-166 | What goes out has that layout and that fold |
| Sim.EitherMayReset | src/dginput.inc:193-205 | RESET reaches the simulation exactly when either wire byte presses it |
| Sim.OneCellShows | src/dgcrc.inc:58-80 | Two lists of cells of any length that differ in one place have different folds |
| Sim.ChecksumSeesExactlyCoveredCells | src/dgcrc.inc:60-80 | Changing one cell changes the checksum if and only if the cell is one of the fifty covered ones |
| Sim.ChecksumFitsExactly | src/dgcrc.inc:28-57 | Consoles that agree on a set of cells always agree on the checksum exactly when the set holds every covered cell: one private cell in the sum is one too many |
| Sim.SwappedCellsShowExactly | src/dgcrc.inc:58-80 | Two covered cells that are neighbours in the fold exchange unseen exactly when they are equal or their folds, from what was folded before, are 0 and 255 |
| Sim.ASwapCancels | src/dgcrc.inc:58-59 | The comment's claim about swapped cells fails: a state, and two covered cells of it whose exchange leaves the checksum as it was |
| SimClock.ClockCounts | src/dgclk.inc:24-30 | n steps of the clock add n to FrameCnt modulo 256 and one to Attract at each wrap, where 128 follows 255, and move no other cell |
| SimClock.ClockCountsFrames | src/dgclk.inc:8-30 | On every run FrameCnt is its start plus the simulated frames, and Attract its start plus the laps, however stalls fall, as long as the game leaves the cells alone and nothing is drawn on them |
| SimClock.LatencyInTheClock | src/dginput.inc:136-148 | The byte captured for a tick is run when FrameCnt has moved on by exactly eight |
| Lanes.PlayersDriveTheirLanes | src/dginput.inc:134-223 | Under H, on every frame that runs, the game is given the two triggers, SELECT and RESET, and on a tick's first frame the two sticks, exactly as the host's and the guest's ports had them when they were captured for that tick, host in the top lane, a switch down when either is, or for RESET when a repair presses it; beside those cells and the clock nothing is touched |
| Skew.EventKeeps | src/dginput.inc:73-223 | Every step of either console, of its kernels, of the network or of the relay keeps the invariant of the whole system |
| Skew.SkewAndWrap | src/dginput.inc:122-132 | On every run of any length, timely or not: ticks at most 3 apart, watermark within [-2, 5] of the tick, and both signed compares exact |
| Skew.RecordsAreImmutable | src/dginput.inc:82-120 | All records a console ever sends for one end tick are equal, and carry its captures for that tick and the two before |
| Skew.FramesStayWhole | src/dgnet.inc:217-296 | For any arrival pattern every READ is a positive multiple of eight that has arrived, and every record examined is a whole sent frame at an offset of at most 240 |
| Skew.LatencyIsExact | src/dginput.inc:136-148 | Simulated frames are four a tick and the phase however stalls fall; the byte captured on entering a tick is applied exactly eight simulated frames later |
| Skew.StallIsInvisible | src/dgcap.inc:82-92 | A stalled boundary, first or retried, is the entry into the tick and then two cells, the advance flag and the stall count, or the flags of a match that is over; a retried one enters nothing |
| Skew.WatchdogCountsFrames | src/dgcap.inc:77-92 | The watchdog counts stalled frames: fifteen leave the match going, the sixteenth ends it |
| Skew.ArmedOncePressedOnce | src/dgcrc.inc:101-113 | Each arming of the repair is pressed into exactly one captured byte |
| Transactions.ReadTakesWhatItAskedFor | src/dgnet.inc:217-296 | The little-endian length in a READ's parameter is the number of bytes the reply then holds and the stream has lost, and the most whole frames, up to 31, that STATUS reported before it |
| Transactions.WriteSendsWhatItMeasured | src/dgnet.inc:84-166 | The length in a WRITE's parameter is that of the frame behind it, which is what joins the stream when the WRITE is taken, and nothing does otherwise |
| Transactions.CycleGoesOn | src/dgnet.inc:168-316 | Each state issues once and waits for its answer, and each success leads to the next state with nothing else of the console changed but the count |
| Transactions.FailureGoesBackToSending | src/dgnet.inc:420-428 | A failed transaction, or a device that is not well, leads back to sending with its code in the low half of the error cell and every other cell as it was |
| Transactions.GoodbyeFillsTheCount | src/dgnet.inc:325-334 | The peer's goodbye fills the stall count, whatever it stood at, and touches no other cell |
| Transactions.GoodbyeEndsAtTheGate | src/dgnet.inc:327-335 | After the peer's goodbye the match ends at the next boundary that has to wait, with nothing simulated; a boundary whose input has come still runs and starts the count again |
| Agreement.InputsAgree | src/dginput.inc:99-165 | Under H, in every interleaving, each tick a console runs is run with the host's capture and the guest's capture for that tick, in lane order |
| Agreement.RingIsSafe | src/dgnet.inc:348-374 | Under H no ring write destroys the byte of a tick still to be run |
| Agreement.RunSimulation | src/dginput.inc:134-223 | On every run, H or not, and whatever the kernels and stalled frames draw outside the shared cells, each console's shared cells are the replay of its own input log from its start, up to the frame |
| Agreement.ComparedAtTheSameTick | src/dgnet.inc:375-406 | Two checksums are compared only when both sample the same tick of the unbounded count |
| Agreement.NoFalseDesync | src/dgcrc.inc:28-57 | Consoles that start with equal shared cells enter every tick with equal shared cells and never arm the repair, on any run under H, whatever is drawn outside those cells, as long as every covered cell is one of them |
| Misfire.DrawnCellMisfires | src/dgcrc.inc:28-57 | And that is why: let the kernel of either console draw one covered cell and, from any start with equal consoles, there is a run under H, nothing else drawn, on which the other console arms the repair |
| Agreement.RepairReachesBoth | src/dgcrc.inc:85-99 | The RESET one console presses is in the inputs both run the same tick with |
| RemoteRing.BatchResult | src/dgnet.inc:348-418 | What consuming a list of authentic records leaves in every ring slot and in the watermark |
| RemoteRing.OrderDoesNotMatter | src/dgnet.inc:300-305 | Any two orders of authentic records covering the same ticks, duplicates included, leave the same ring and watermark when they span at most five ticks |
| RemoteRing.JumpIsSafeExactly | src/dgnet.inc:121-145 | A record keeps every slot between the filled ticks and the new watermark right exactly when it ends at most three ticks past the last filled one |
| Stale.BoundsAreReached | src/dgdefs.inc:89-95 | From every handover there is a run with the ticks three apart and the watermark two behind, and one with the watermark five ahead: the bounds of `SkewAndWrap` are exact |
| Stale.LateBatchRunsStale | src/dgnet.inc:121-145 | The converse for a READ: from any reachable state with both in the match, a batch whose newest record ends beyond the last filled tick plus three goes on to a run on which the next unfilled tick runs with the stale byte of its slot |
| Stale.WithoutHTheyDisagree | src/dgnet.inc:139-145 | H is not automatic: from every handover there is a run on which both consoles run tick 2 with different inputs |
| Progress.AdvanceBehind | src/dginput.inc:122-135 | A console that is not ahead can always be brought to its next tick by sends, reads and frames |
| Progress.SlowerTickAdvances | src/dgnet.inc:10-13 | From every reachable state with neither console gone, a finite continuation advances the slower tick |
| Restage.RestageConverges | src/dgdefs.inc:112-128 | From any two states agreeing on the variation and the clock, the clear and the assumed `StageRace` leave every checksummed cell equal |
| Restage.SeedIsTotalExactly | src/dgdefs.inc:110-130 | The clear equalizes the cells from RPM up for all pairs of states exactly when its seed is at or below RPM |
| Restage.ReseedReleasesTheSticks | src/dgcold.inc:38-73 | With the re-seed no direction is pressed; without it, in a match, all four are |
| Repair.ClearAndStageRestage | src/dgcold.inc:31-88 | What the repair needs of the game follows from the clear, from `StageRace`'s contract and from the game reading only the shared cells |
| Repair.RepairConverges | src/dgcrc.inc:85-100 | However far two simulations have drifted, if they enter the repair's tick with the same variation and clock and a seeded LFSR, both enter every later tick with equal shared cells and checksum |
| Cells.OnlyItsOwnAnswer | src/dgnet.inc:73-80 | A waiting state waits on exactly while the mailbox answers another transaction |
| Cells.Console.Handover | src/dgsess.inc:283-336 | Both rings seeded idle and the cells the first boundary expects |
| Cells.Console.BumpPhase | src/dgclk.inc:64-68 | Adding $40 bumps the phase and disturbs no flag |
| Cells.Console.TickClock | src/dgclk.inc:24-30 | One step of the clock `SimClock` counts with |
| Cells.Console.Checksum | src/dgcrc.inc:60-80 | The two counted loops and four steps compute the fold of the covered cells |
| Cells.Console.PressRepair | src/dgcrc.inc:101-113 | A pending repair presses RESET into the byte and is spent |
| Cells.Console.CaptureByte | src/dgcap.inc:15-56 | The wire byte built from three ports by shifts and masks |
| Cells.Console.Stall | src/dgcap.inc:82-92 | One more stalled frame, or the flags of a match that is over |
| Cells.Console.MixInputs | src/dginput.inc:167-215 | The host's stick into Joy0 and the guest's into Joy1, the triggers and switches of `Lanes` in place; only the B&W bit stays local |
| Cells.Console.EnterTick | src/dginput.inc:82-120 | Tick, checksum and capture move together, and only after a tick that ran |
| Cells.Console.RunTick | src/dginput.inc:134-223 | A tick runs on the two bytes of the rings, swapped for a guest |
| Cells.Console.Shim | src/dginput.inc:48-132 | The whole per-frame routine: mid-tick frame, boundary, gate |
| Cells.Console.SweepRam | src/dgcold.inc:31-86 | The bounded clear loop, the stick re-seed in a match, and the choice of what follows |
| Cells.Console.Launch | src/dgnet.inc:62-71 | The next sequence number is neither zero nor the one last answered |
| Cells.Console.WriteIssue | src/dgnet.inc:84-166 | The counted window loop sends exactly the encoded record |
| Cells.Console.CompareChecksums | src/dgnet.inc:391-406 | Armed only by a comparable, differing checksum |
| Cells.Console.TakeRecord | src/dgnet.inc:348-418 | Window stored, checksums compared, watermark moved only forward |
| Cells.Console.ConsumeOne | src/dgnet.inc:310-418 | One record read in place at the cursor: taken, goodbye, or dropped |
| Cells.Console.StatusAck | src/dgnet.inc:217-252 | Whole frames only, at most 248 bytes |
| Cells.Console.NStep | src/dgnet.inc:31-49 | The dispatch: every state does its one bounded step, and what goes out is a WRITE's length and its frame, STATUS's two zeros, a READ's length, or nothing |
| Session.BothStart | src/dgsess.inc:195-252 | Whatever else waits in either output, of the two STARTs of a pairing one hands over the host and the other the guest exactly when the relay's delay is the ROM's; exactly fifteen bytes are taken and what follows is the play |
| Reassembly.ParseIsWhole | server/dragster_relay_server.py:185-203 | No byte is lost and none made up: the frames and the rest are the buffer |
| Reassembly.ParseUnparse | server/dragster_relay_server.py:104-107 | Frames a client writes are the frames the relay reads |
| Reassembly.BadExactly | server/dragster_relay_server.py:185-203 | A connection is closed for its framing exactly when the next length byte is zero or above 200 |
| Reassembly.EveryCutHandlesAPrefix | server/dragster_relay_server.py:185-203 | However a stream is cut, the frames handled are a prefix of the stream's, short only of what follows the end of the connection |
| Reassembly.ChunkingIsInvisible | server/dragster_relay_server.py:185-203 | When nothing follows the frame that ends a connection, the effect on the room does not depend on the cut |
| Reassembly.BufferNeverOverflows | server/c/src/dragster-relay.c:686-697 | On every run a receive starts with at most 200 bytes waiting, so the overflow branch is dead |
| Reassembly.OneReceiveIsBounded | server/c/src/dragster-relay.c:106-122 | One receive appends at most 161,100 bytes to its own client |
| Reassembly.OneReceiveToOthers | server/c/src/dragster-relay.c:106-123 | And at most 32,228 to any other, which the comment leaves out; the sum still fits |
| Forwarding.RelayReadsTheRecord | server/dragster_relay_server.py:343-350 | The bytes the relay reads of a record as tick and checksum are the ones the console put there |
| Answers.PassedToPartner | server/dragster_relay_server.py:205-213 | The four kinds of game frame reach the sender's partner, filled up to six bytes of payload, and nobody else |
| Answers.ShortAnswers | server/dragster_relay_server.py:215-226 | PING is answered PONG, BYE is a drop, a frame of unknown kind does nothing |
| Answers.ListIsAnswered | server/dragster_relay_server.py:318-327 | The reply to LIST read back: the first eight named clients in connection order, their names and whether they play |
| Answers.FlushExactly | server/dragster_relay_server.py:447-461 | What a send took is gone from the front of the output, and the client is dropped exactly for a broken socket or more than 65,536 bytes left |
| Answers.BadIsCountedOnce | server/dragster_relay_server.py:190-199 | A receive counts one bad frame, and closes the connection, exactly when it ends in one |
| Forwarding.RelayIsFifo | server/dragster_relay_server.py:205-213 | However the network cuts it, and from whatever part of a frame already waits, a paired console's records reach its partner whole, in order and byte for byte, and nobody else |
| Delivery.AdvanceIsStep | server/dragster_relay_server.py:185-203 | The ledger only watches: with it the relay takes the same steps |
| Delivery.MatchIsAStream | server/dragster_relay_server.py:205-213 | On every run of consoles with the ROM's discipline, under any interleaving, cut and drain: what a live console has been sent is nothing before its first match and then, from the start of the latest one, START, its partner's whole records in order and, once the partner is gone, one goodbye; what the partner has sent since is those records and the part of a frame that waits, or, of the one that is gone, those records and then no whole record more |
| Forwarding.GoodbyeIsOneFrame | server/dragster_relay_server.py:375-385 | A drop appends exactly one eight-byte frame, the one a console reads as the peer leaving |
| Caps.AcceptExactly | server/dragster_relay_server.py:162-182 | A connection is taken exactly when fewer than 64 are live and fewer than 8 of them from its address |
| Caps.CapsHold | server/dragster_relay_server.py:162-182 | On every run both caps hold |
| Hello.HelloTakenExactly | server/dragster_relay_server.py:229-271 | A HELLO leaves its sender live and named exactly when it is of protocol 2, of standard 0 or 1 and, between blanks and zeros, two to eight letters or digits in either case, and that name or one of a thousand variants is free; the name is the first that is, in capitals |
| Hello.AdmittedPlays | server/dragster_relay_server.py:271-307 | And is then in a match with the longest connected of those waiting, or waits |
| Hello.AnnIsTaken | server/dragster_relay_server.py:256-271 | A PAL console's HELLO, byte by byte |
| Names.TakenExactly | server/dragster_relay_server.py:375-379 | With the ROM's discipline a name is taken exactly while a live client has it |
| Pairing.NamesAreUnique | server/dragster_relay_server.py:263-271 | On every run every live named client owns its name, which has two to eight letters and digits, and no two live clients share one |
| Pairing.PairsAreAMatching | server/dragster_relay_server.py:283-311 | With the ROM's discipline the partner relation is a symmetric, irreflexive matching with one host and one guest a pair |
| Pairing.JoinIsSafeExactly | server/dragster_relay_server.py:283-316 | A JOIN stops the Python server exactly when its sender is unnamed and somebody waits; either server goes on from it with the matching kept exactly when nobody waits, or the sender is named and unpaired |
| Pairing.BothStartsAgree | server/dragster_relay_server.py:295-307 | Both STARTs carry the same seed, delay and variation, opposite roles and each other's name |
| Pairing.HostWaitedLongest | server/dragster_relay_server.py:292-301 | The host is the first in connection order among those waiting |
| Pairing.OrderIsByAge | server/dragster_relay_server.py:280-294 | On every run that order is by age |
| Checksums.LapStepExactly | server/dragster_relay_server.py:351-356 | One step of the lap reconstruction is right exactly when the tick moved less than half a lap or did not wrap |
| Checksums.NoFalseAlarm | server/dragster_relay_server.py:346-372 | In a first match, consoles that report the same checksum for every tick never raise a mismatch, however their streams interleave |
| Checksums.BadRisesExactly | server/dragster_relay_server.py:358-372 | The mismatch count rises exactly when the partner's entry for the same true tick is still there and differs, the verified count exactly when it is there and equal, and no other count does |
| Checksums.DifferenceIsSeen | server/dragster_relay_server.py:358-372 | Two differing reports for a tick are seen as long as the first side reports fewer than eight other ticks in between |
| Checksums.MapGrowsExactly | server/dragster_relay_server.py:358-372 | One report leaves its sender's map above any bound of eight or more exactly when the partner's entry for the tick is there and the map was above it, or at it with the key not there; the partner's loses that entry |
| Checksums.SecondSideGrows | server/c/src/dragster-relay.c:130 | The map is not bounded by nine: in every match just begun, after n ticks reported in step and each in turn, the second side's map holds n entries, for any n |
| Outputs.StepAlike | server/dragster_relay_server.py:330-372 | Two rooms that differ only in their checksum logs and counts take every step to two such rooms: what anyone is sent, and when, never depends on them |
| Parting.FramePartsExactly | server/dragster_relay_server.py:205-226 | A frame takes the two servers to the same room exactly when it is neither of two: a JOIN on which the Python server raises, a HELLO on which the port gives up drawing |
| Parting.JoinPartsExactly | server/dragster_relay_server.py:303-316 | A JOIN parts the two servers exactly when its sender has no name and somebody waits |
| Parting.RunsPartExactly | server/c/src/dragster-relay.c:896-943 | On a whole run the port's room is the Python server's exactly when no such frame has been handled |
| JoinFirst.ServersPart | server/dragster_relay_server.py:303-316 | Such a run of four events: the Python server has stopped with nothing queued for anyone, the port's tables hold a room with fifteen bytes waiting for both, and it goes on |
| RelayServer.Server.Accept | server/dragster_relay_server.py:162-182 | The two caps, counted over live connections |
| RelayServer.Server.TryPair | server/dragster_relay_server.py:283-311 | The longest connected idle client hosts; for a caller without a name the server is marked as stopped when somebody waits |
| RelayServer.Server.FreeName | server/dragster_relay_server.py:267-268 | The first free variant, up to a bound on the draws |
| RelayServer.Server.OnHello | server/dragster_relay_server.py:229-278 | Version, television standard and name checked, then named and paired |
| RelayServer.Server.SendLobby | server/dragster_relay_server.py:318-327 | The first eight named clients in connection order |
| RelayServer.Server.Trim | server/dragster_relay_server.py:364-365 | Unpaired values go by age, the newest eight staying |
| RelayServer.Server.LogCrc | server/dragster_relay_server.py:330-372 | Lap, pairing and eviction by age |
| RelayServer.Server.Handle | server/dragster_relay_server.py:205-226 | The dispatch on the frame type, with the frame it does not survive |
| RelayServer.Server.Drop | server/dragster_relay_server.py:375-394 | Name freed, survivor told, connection gone; a second drop does nothing |
| RelayServer.Server.Service | server/dragster_relay_server.py:185-203 | The frame loop hands on exactly the parsed frames and closes on a bad length |
| RelayServer.Server.ReceiveBytes | server/dragster_relay_server.py:421-430 | One receive joins what was waiting |
| RelayServer.Server.Flush | server/dragster_relay_server.py:447-461 | One send and the backlog check on what is left |
| RelayC.Server.OrderDel | server/c/src/dragster-relay.c:394-404 | The in-place shift removes the client and keeps the order of the rest |
| RelayC.Server.NameSet | server/c/src/dragster-relay.c:419-437 | An entry of that name is taken over, a new one goes at the end, and a full table first loses its oldest |
| RelayC.NameSetExactly | server/c/src/dragster-relay.c:419-437 | That is the dictionary's update exactly when the name is there or the table is not full |
| RelayC.Server.NameDelIfIs | server/c/src/dragster-relay.c:440-452 | An entry goes only if it is still this slot and generation's |
| RelayC.Server.CrcSet | server/c/src/dragster-relay.c:466-478 | Agrees with the dictionary exactly when the key is there or the table has room |
| RelayC.Server.ClientSend | server/c/src/dragster-relay.c:512-526 | Appends while the buffer has room |
| RelayC.Server.TryPair | server/c/src/dragster-relay.c:896-943 | Leaves the tables holding the room a pairing makes, a caller without a name paired as any other |
| RelayC.Server.OnHello | server/c/src/dragster-relay.c:781-888 | Likewise the room a HELLO makes while the name table has room, the drop after a thousand draws included |
| RelayC.Server.LogCrc | server/c/src/dragster-relay.c:976-1015 | Leaves the tables holding a room the same but for the checksum logs in any case, and the logged room while the sixteen slots suffice |
| RelayC.Server.Drop | server/c/src/dragster-relay.c:1019-1053 | Likewise, with the slot kept for the rest of the batch |
| RelayC.Server.Handle | server/c/src/dragster-relay.c:740-779 | For every frame type the room the port goes on with, the Python server's but for a frame that parts them, and but for the checksum logs once those have been full |
| RelayC.Server.Service | server/c/src/dragster-relay.c:666-731 | One receive leaves the tables holding the room one receive makes, the Python server's unless it holds a frame that parts them, but for the checksum logs once those have been full; in any case every index stays in bounds |
| RelayC.Server.Flush | server/c/src/dragster-relay.c:536-569 | Likewise for one send |
| RelayC.Server.AcceptClient | server/c/src/dragster-relay.c:615-661 | A connection is taken exactly when both caps allow it and some slot is free, into the first such; a refusal changes nothing but the count of refusals per address; while a slot is free the room is the Python server's |
| RelayC.Server.Ready | server/c/src/dragster-relay.c:1350-1370 | One readiness report: ignored exactly when its client is no longer live; else the receive, or the drop of a hangup, and then the send of whoever is still there |
| RelayC.Server.Reap | server/c/src/dragster-relay.c:1058-1063 | Freeing the retired slots keeps the room exactly when no live client's partner is a dropped one |
| RelayC.PoliteHasNoDangling | server/c/src/dragster-relay.c:1028-1033 | On every run with the ROM's discipline that is so |
| Refusal.RefusedBelowTheCaps | server/c/src/dragster-relay.c:644-648 | The branch called unreachable is not: sixty-four connections, a hangup and one more in the same batch, which both caps allow and the Python server takes, find every slot in use and are refused, and the tables hold the room without it |
| RelayRun.Serve | server/c/src/dragster-relay.c:1324-1390 | The main loop from its start, told anything at all of its sockets in any order: every index stays in bounds; while the tables have room and no frame parts the two servers, every live client has waiting exactly what the Python server would have waiting for it, whether or not the checksum logs fill; until they do, the rooms are the same |
| DgMap.CheckTotals | tools/dgmap.py:151-160 | One pass decides whether the regions meet end to end, and so whether they tile the cartridge |
| DgMap.TilingIsExact | tools/dgmap.py:136-140 | In a tiling every address is in exactly one region |
| DgMap.TheMapTiles | tools/dgmap.py:30-52 | The cartridge's own table is one |
| Columns.TableIsColumns | tools/disasm.py:53-92 | The opcode table is the processor's own layout by row, column and group, all 256 entries |
| Isa.DecodeEncode | tools/disasm.py:294-301 | All 151 opcodes re-encode to themselves, so no two share a mnemonic and mode; branches and only they are relative |
| Flow.ReachableByBytes | tools/disasm.py:97-98 | What the walk may reach is what control reaches by the opcode bytes: on from every instruction but $60, $40, $00, $4C and $6C, to the word behind $20 and $4C, by the signed byte behind the eight branches |
| Flow.TargetsAre | tools/disasm.py:187-204 | The addresses labelled as code are those words and branch targets |
| Flow.CoveredAre | tools/disasm.py:182-185 | The bytes counted as code are those of the instructions decoded, one to three each by the opcode, and no others |
| Flow.RefsAre | tools/disasm.py:193-194 | The other addresses labelled are the operands of two bytes |
| Flow.ReturnIsAlone | tools/disasm.py:97-98 | From an RTS nothing else is reached |
| Trace.CleanWalkIsExact | tools/disasm.py:162-206 | A walk that has passed no undefined place has passed every reachable address |
| Disassembler.Disassembler.Walk | tools/disasm.py:162-206 | For every image it terminates with exactly the decodable addresses control reaches by the bytes (`Flow.Reaches`), and complains exactly when some address reached in the cartridge is none |
| Disassembler.Disassembler.BuildLabels | tools/disasm.py:209-227 | Which address gets which label |
| Naming.LabelsTell | tools/disasm.py:209-227 | Which addresses without a name of their own get one, whether it is an `L_` or a `D_`, and that it writes the address |
| Naming.SideMatters | tools/disasm.py:255-261 | A store's register operand is named from the registers written and any other's from the registers read |
| Naming.CellBelow | tools/disasm.py:114-135 | A zero-page operand is named from the nearest cell at most sixteen bytes below it, or is a number |
| Naming.AddressesAreNamed | tools/disasm.py:263-291 | A two-byte operand is printed as its bias, a console register, its label, the nearest label below in the cartridge, or a cell or number with the `>` that keeps it two bytes |
| Naming.TargetsAreNamed | tools/disasm.py:248-251 | A branch's target and a vector are printed as the label there, or the address |
| Disassembler.Disassembler.CheckNames | tools/disasm.py:228-240 | Complains exactly when a name is a register's or two addresses share one, whatever their case |
| Disassembler.Disassembler.RegionsAgree | tools/disasm.py:304-315 | Complains exactly when the bytes reached as code are not those declared as code |
| Disassembler.Disassembler.EmitCode | tools/disasm.py:355-369 | The loop prints the region, and complains exactly at a biased operand that comes out wrong |
| Disassembler.Disassembler.EmitData | tools/disasm.py:371-392 | Rows of eight broken at labels, vectors as words |
| Disassembler.Disassembler.Disassemble | tools/disasm.py:406-421 | The whole run reports no problem exactly when four conditions on the image hold, and then the source printed is that of a sound program |
| PrintRoundTrip.PrintThenAssemble | tools/disasm.py:243-291 | With no problem reported, the source assembles to the image byte for byte exactly when every name used is defined and no instruction crosses its region's end |
| PrintRoundTrip.SourceAssembles | tools/disasm.py:355-392 | And then a symbol table does exist with which it does |

## Left out

- H itself: it is a scheduling hypothesis, about how much transport runs between frames; the cycle counts it
  would follow from are physical timing.
- The 1980 game logic and the kernels: an uninterpreted deterministic function of the RAM and the mixed
  inputs. Which RAM cells are shared is a parameter: the results ask that every checksummed cell is one, that
  the game's shared cells depend on shared cells only, and that what the kernels and stalled frames draw,
  `BoomTimer` and the scratch cells among it, is not.
- `StageRace`: assumed to make of the shared cells something that depends only on the cleared cells and the
  two kept ones. `NewGame` is not modelled.
- Agreement.InputsAgree: proved under H, because without H it is false; `Stale.WithoutHTheyDisagree` gives
  the run.
- Agreement.NoFalseDesync: under H, for the same reason.
- Lanes.PlayersDriveTheirLanes: under H, for the same reason.
- SimClock.ClockCountsFrames: for a game logic that does not write FrameCnt and Attract; whether the 1980 code
  ever does is not modelled.
- Repair.RepairConverges: for games that restage on RESET and read only the shared cells, under H, and when the
  two states entering the repair's tick agree on the variation and the clock and both have a seeded LFSR.
- Progress.SlowerTickAdvances: a continuation exists; nothing is said about how soon.
- The mailbox registers, path buffers, appkeys, screens and text. Of the session only START and the handover
  are modelled; the name prompt and the fallback screens are not.
- A transaction of the cartridge either is not yet answered, is refused, a WRITE's bytes having gone out or not
  and a READ's lost or not, or succeeds. A part of a frame going out is not modelled.
- The B&W bit's path to the colour tables, and the local (not networked) input path `DGLOC0`.
- Sockets, select, epoll, logging, the lobby publisher and the periodic sweep: delivery is a stream cut into
  arbitrary receives, and a timeout is a hangup.
- RelayRun.Serve: one list of notices in any order stands for the batches, the flush of everyone and the
  sweep, which the source takes in a fixed order; a connection's readiness flags are not kept.
- Delivery.MatchIsAStream: for clients with the ROM's discipline: one HELLO, records, at most a BYE, no JOIN.
- RelayServer.Server.FreeName: stops after a thousand draws, as the C port does; the Python loop would go on.
  A room in which that happens, like one whose server has raised, is marked and followed no further.
- The relay's client objects are values in a dictionary that the methods replace, and a C client's buffers
  are the used parts of its fixed arrays. Aliasing between buffers is not captured. Slot generations are
  unbounded; the C port's wrap at 2^32.
- RelayC.Server.Drop: closes up `order[]` before it writes to the survivor, where the source does so after;
  nothing in between reads the index.
- The console's declared television standard is checked and not kept: only the log prints it.
- The text of the printed source: it is modelled as statements, each with its label, mnemonic, operand form
  and expression. Comments, tabs and hexadecimal digits are not.
- Disassembler.Disassembler.Disassemble: the name tables are parameters and only their shape is assumed:
  registers and cells equated to their addresses, labels in the cartridge, biases small. For an instruction
  without operand in the image's last two bytes inside a code region the tool reads past the image; the
  map's last region is data, so it does not come up.
- `mkbanks.py`, `patches.py`, `mktail.py` and the checking scripts, the Lua harnesses and the shell scripts:
  file formatting and single passes.
- Facts about one byte that enumeration settles (`DGTREE`, `DGBEEP`).
