# Verification of the remote-RAM RISC-V emulator

The repository boots a 64-bit Linux guest on a small badge. The guest's RAM is on a
laptop and is fetched page by page over a lossy serial link. This project models the
parts whose correctness depends on how several pieces fit together, and proves what
each is for.

* **The page link** (`Frames`, `Mux`, `HostServe`, `LinkModel`, `LinkCoherence`,
  `LinkHazard`, `Pacing`, `Answers`, `UsbHost`, `SendPaced`). A transition system of a synchronous client
  without request ids, two ordered channels that lose frames or repeat one next to
  itself, and the host. The client's classes are proved to produce only runs of that
  system, with every call of the transport in time and in turn, and to return what the
  frames they receive determine; the system is proved to behave as plain memory.
* **The random-program generator** (`Encoding`, `Compressed`, `Machine`, `Blocks`,
  `Programs`, `Chunks`, `Generator`, `Assembler`, `Startup`). Bit-level encoders and decoders, a
  hart, and the generator for every sequence of draws.
* **The boot path** (`Bytes`, `Bus`, `Fdt`, `FdtRoundTrip`, `Utf8`, `ElfReader`, `ElfWriter`, `ElfRoundTrip`,
  `BootImages`, `DtbAddress`). Byte-addressed memory, the loaders, the device-tree
  walker and patcher, and the badge's recovery of an address the host never sends.
* **The run loops** (`RunLoops`), over any deterministic machine.
* **The OLED terminal** (`Terminal`, `TerminalControls`, `OledSink`) and the **echo host's tokenizer**
  (`EchoHost`, `EchoReads`).

`dafny verify dfyconfig.toml` checks everything.

## Where the code does not do what it says

**Re-sending is not safe in the way the comments argue.** `badge/app/src/usbhost.rs:309-338`
argues that a re-sent request can never be confused with a later one, because the link is
first in, first out. The channels are, but the host is not: in one call,
`crates/rv64-host/src/serve.rs:436-468` takes every read request it has before any write
request. So an acknowledgement of a write can be delayed *past* a later read, and then
satisfy a second write of the same page which the host never sees. `LinkHazard.LostWrite`
is a run of four successful exchanges - write page 0, read page 0, write page 0 again, read
page 0 - in which no two consecutive exchanges write the same page and the last read returns
the overwritten data. `LinkHazard.GuardIsExact` gives the exact condition on a sequence of
operations, checkable before each call, under which memory is plain memory in every run; for
a host that serves one request at a time it is the condition the comments rely on
(`LinkCoherence.InOrderGuard`).

**The sliced loops disagree in one case.** The host's loop looks for an unhandled machine
trap before it looks at the budget, the badge's loop after. They agree in state and count
always, and in the ending unless the budget runs out exactly on arrival at such a trap
(`RunLoops.LoopsAgree`). `RunLoops.EndingsCanDiffer` is a machine on which they differ, for
each budget.

**The tokenizer depends on read boundaries for some streams.** A `STREAM` command longer
than 32 bytes that begins long after the last token can lose its head to a trim.
`EchoReads.ReadBoundariesExact` says exactly which streams are independent of the reads, and
`EchoReads.ALostCommand` is one that is not: 8192 dots and a command of 26 digits.

## How things are modelled

* Link frames arrive whole or not at all; framing and CRC are below this model. Every
  client run is kept as a ghost list of events, and each step of the client, the host and
  the wire appends its own. The client's calls of its transport - clock readings, parking,
  requests handed over, receives, with what each returned - are kept as a second list, and
  the frames its receives handed it as a third.
* The machine that runs generated programs is exact in addresses, memory effects, control
  flow, doubleword loads and the address-building instructions. What any other instruction
  computes, and
  whether a branch is taken, is left open, so what holds of every run of this machine holds
  of every real one. An operand that is not aligned counts as a trap.
* Draws of the generator are arbitrary values in range; rejection sampling is one such draw.
* Guest RAM is a byte sequence; the timer and UART windows accept stores and leave RAM alone.
* 64-bit address sums wrap, as in an optimised build.
* In a run of the badge, the link service between slices does not change the machine, which
  is what it does when nobody types, and the watcher only looks at it.

## Model

| member | source | states |
|---|---|---|
| LinkCoherence.RunsAreCoherent | badge/app/src/usbhost.rs:1296-1501 | in every run of client, lossy channels and host up to the first failed exchange, each exchange returns what plain memory would, provided no write could meet a stale acknowledgement |
| LinkCoherence.InvStep | badge/app/src/usbhost.rs:1296-1501 | every single event - drop, repeat, serve, purge, send, absorb, discard, accept - keeps the invariant about what may be in flight |
| LinkCoherence.InFlightBetweenExchanges | badge/app/src/usbhost.rs:1277-1436 | after a completed exchange everything in flight is a copy of its request or an answer to it, save one acknowledgement of the write before a read, which only an out-of-order host can leave |
| LinkCoherence.InOrderGuard | badge/app/src/usbhost.rs:309-338 | for a host that serves in order the guard is exactly: no two consecutive writes of one page |
| LinkCoherence.ServeMixed | crates/rv64-host/src/serve.rs:436-468 | one call of the host over old and new requests sends only known answers, in an order the client can tell apart, and leaves the memory completing the exchange would |
| LinkHazard.GuardIsExact | badge/app/src/usbhost.rs:309-338 | a sequence of reads and writes keeps memory in every run, whatever data is written, if and only if it is guarded |
| LinkHazard.LostWrite | crates/rv64-host/src/serve.rs:436-468 | a concrete run with no consecutive same-page writes in which every exchange succeeds and the last read returns overwritten data |
| LinkHazard.StaleAckAccepted | badge/app/src/usbhost.rs:1267-1275 | at a hazard, the purge notwithstanding, an earlier acknowledgement can end the write and memory keep the old page |
| LinkHazard.WorstRun | badge/app/src/usbhost.rs:1296-1501 | every guarded sequence of operations has a run that completes it and leaves the worst its residue allows in flight |
| HostServe.Host.ServeOnce | crates/rv64-host/src/serve.rs:436-468 | one call answers every request pushed, reads before writes, over the pages as they change, and echoes the console bytes it was sent |
| HostServe.PushedOrder | crates/rv64-host/src/serve.rs:436-468 | with no request left over from before, what one call serves, and in what order, is settled by the requests pushed: console frames among them change neither |
| MuxModule.Mux.Push | crates/rv64-proto/src/lib.rs:517-527 | page frames join the held ones in order, console payloads join the console |
| Frames.PayloadInPlace | crates/rv64-proto/src/lib.rs:517-527 | a frame anywhere in a delivery adds its payload, or itself, at its own place, as it is a console frame or not |
| MuxModule.Mux.TakeMatching | crates/rv64-proto/src/lib.rs:528-533 | the first held frame of a type is removed and returned, nothing else moves |
| Frames.FirstOfType | crates/rv64-proto/src/lib.rs:528-533 | taking the first frame of a type takes the head of that type's own order |
| UsbHost.LinkInner.ExchangeInner | badge/app/src/usbhost.rs:1296-1501 | ends; fails if and only if none of the frames received in it answers the request, and otherwise returns the answer they hold, the page's own response before a refusal; every other frame received is held, purged or counted, and every console byte kept, in order; sends at most the retry budget plus one copies, each in time and in turn, none after a reading past the deadline; a link it gives up on had the cause its fault names: a failed call, a reading past the deadline or past the last wait with nothing of the wanted type received, or the last wrong page received |
| Answers.LaterAttempt | badge/app/src/usbhost.rs:1385-1501 | attempts that heard no answer change nothing about the answer a later attempt hears |
| Answers.LookAnswered | badge/app/src/usbhost.rs:1385-1436 | a held response for the page asked is the answer of everything received in the wait, and taking it purges and keeps what a purge of everything received would |
| Answers.LookRefused | badge/app/src/usbhost.rs:1385-1436 | a held refusal for the page asked, met when no response is held, is the answer of everything received in the wait |
| Answers.LookNothing | badge/app/src/usbhost.rs:1385-1436 | when nothing held is left to look at, nothing received is an answer, and the mismatches counted are all responses of the wanted type received |
| Pacing.NoCopyIsLate | badge/app/src/usbhost.rs:1325-1384 | when each copy directly follows a reading within the deadline, no copy follows any reading past it |
| Pacing.CopyCall | badge/app/src/usbhost.rs:1363-1391 | a copy handed over after a parked listener and a reading within the deadline, as the first or after the last was waited for too long, keeps every copy so |
| Pacing.WaitedTooLong | badge/app/src/usbhost.rs:1460-1469 | a reading more than the attempt deadline after the last copy lets another be handed over |
| UsbHost.LinkInner.Await | badge/app/src/usbhost.rs:1385-1482 | each receive turn lowers time left, spins and held frames lexicographically, so the wait ends: in the answer that the frames received in it hold, if they hold one, and otherwise with the link as it was, to send again only after the attempt's deadline and within the budget, or to give up for the cause its fault names |
| UsbHost.LinkInner.SendCopy | badge/app/src/usbhost.rs:1325-1384 | a copy is handed over only after a purge, a parked listener and then a clock reading within the deadline; otherwise the fault names the call that failed or the reading past the deadline |
| UsbHost.LinkInner.DiscardStaleResponses | badge/app/src/usbhost.rs:1267-1275 | removes every held response of the three types and nothing else, and counts them |
| UsbHost.LinkInner.Absorb | badge/app/src/usbhost.rs:1177-1186 | a delivery joins the held frames in order and its console payload joins the console |
| UsbHost.LinkInner.TakeIn | badge/app/src/usbhost.rs:1478-1480 | a delivery is counted, its page frames join the held ones in order and its console bytes the console |
| UsbHost.LinkInner.Fail | badge/app/src/usbhost.rs:1200-1212 | console bytes are rescued, everything held is dropped, the fault is recorded |
| UsbHost.LinkInner.ReadPage | badge/app/src/usbhost.rs:1756-1764 | on a guarded history a successful read returns the latest written page, or the initial one; it is the answer among the frames received, and the link dies if and only if they hold none |
| UsbHost.LinkInner.WritePage | badge/app/src/usbhost.rs:1766-1775 | on a guarded history a write ends as plain memory says, by the answer among the frames received; the link dies, its log unchanged, if and only if they hold none |
| UsbHost.LinkInner.Pump | badge/app/src/usbhost.rs:1590-1630 | one poll between exchanges holds exactly the page frames it received and adds exactly their console bytes, changes no completed exchange and sends nothing, and records a fault exactly when it fails |
| UsbHost.LinkInner.SendConsole | badge/app/src/usbhost.rs:1637-1665 | no output sends nothing; any other is handed over in one call whose failure is recorded, and no exchange or held frame is touched |
| SendPaced.Send | badge/app/src/usbhost.rs:631-675 | exactly the prefix the tally counts is handed over, in order and once; no call exceeds the chunk; gaps are calls minus one; calls are bounded by the retry budget; success means all; a link fault is the last call's and no other failed, a time-out is the clock's last answer and no other said so, a stall is a full budget of refusals |
| SendPaced.TxTally.Record | badge/app/src/usbhost.rs:741-753 | each call's offer and result are added to the tally |
| Encoding.DecodeEncode | crates/rv64-difftest/src/gen.rs:58-97 | decoding by section 2.3 of the ISA gives back every field of every instruction the encoders can emit |
| Encoding.RTypeFields | crates/rv64-difftest/src/gen.rs:58-60 | all six fields of an R-type word come back |
| Encoding.ITypeFields | crates/rv64-difftest/src/gen.rs:62-64 | all fields of an I-type word come back, with any twelve-bit signed immediate |
| Encoding.STypeFields | crates/rv64-difftest/src/gen.rs:66-73 | all fields of an S-type word come back |
| Encoding.BTypeFields | crates/rv64-difftest/src/gen.rs:75-84 | all fields of a B-type word come back, with any even thirteen-bit signed displacement |
| Encoding.UTypeFields | crates/rv64-difftest/src/gen.rs:86-88 | all fields of a U-type word come back |
| Encoding.JTypeFields | crates/rv64-difftest/src/gen.rs:90-97 | all fields of a J-type word come back, with any even twenty-one-bit signed displacement |
| Compressed.CAddiBack | crates/rv64-difftest/src/gen.rs:821-824 | `c.addi` with its guards decodes to the addition it names and is no hint |
| Compressed.CLuiBack | crates/rv64-difftest/src/gen.rs:630-638 | `c.lui` with its guards is neither reserved nor `c.addi16sp`, and its sign-extended immediate comes back |
| Compressed.SlliBack | crates/rv64-difftest/src/gen.rs:639-644 | `c.slli` with a nonzero shift decodes to it |
| Compressed.CSraiBack | crates/rv64-difftest/src/gen.rs:828-836 | `c.srai` decodes to an arithmetic shift by the same amount |
| Compressed.CAndiBack | crates/rv64-difftest/src/gen.rs:828-836 | `c.andi` decodes with its sign-extended immediate |
| Compressed.CaBack | crates/rv64-difftest/src/gen.rs:840-848 | the six register-register forms decode to the operation and registers named |
| Compressed.CrBack | crates/rv64-difftest/src/gen.rs:671-675 | `c.mv`, `c.add`, `c.jr` and `c.jalr` are told apart by their second register |
| Compressed.Addi4spnBack | crates/rv64-difftest/src/gen.rs:676-688 | every multiple of four up to 1020 comes back through the scrambled field |
| Compressed.Addi16spBack | crates/rv64-difftest/src/gen.rs:689-706 | every nonzero multiple of sixteen from -512 to 496 comes back through the scrambled field |
| Compressed.CLdBack | crates/rv64-difftest/src/gen.rs:726-752 | `c.ld` gives back base, destination and any scaled offset up to 248 |
| Compressed.CSpBack | crates/rv64-difftest/src/gen.rs:753-801 | the stack-pointer loads and stores give back register and any scaled offset, up to 504 for doublewords |
| Compressed.CBranchBack | crates/rv64-difftest/src/gen.rs:968-984 | `c.beqz` and `c.bnez` give back register and any even displacement below 256 |
| Compressed.CJumpBack | crates/rv64-difftest/src/gen.rs:985-1001 | `c.j` gives back any even displacement below 2048 |
| Machine.RealIsSound | crates/rv64/src/cpu.rs:192-232 | an emitted instruction stored in memory is the one fetched there, with its length, as long as only the scratch page changes |
| Machine.AndMask | crates/rv64-difftest/src/gen.rs:271-290 | masking with ones from bit k to bit n keeps exactly those bits |
| Blocks.AddressRuns | crates/rv64-difftest/src/gen.rs:304-317 | the four address instructions leave an aligned address with room for any offset in the scratch page, whatever the registers held |
| Blocks.MemBlockRuns | crates/rv64-difftest/src/gen.rs:487-558 | every memory chunk, load-reserved pairs included, runs without a trap and touches only aligned bytes of the scratch page |
| Blocks.FarJumpRuns | crates/rv64-difftest/src/gen.rs:953-967 | building a target in a register and jumping through it lands exactly the displacement further on, whatever the link register |
| Blocks.BlockRuns | crates/rv64-difftest/src/gen.rs:366-600 | every block, from any registers, runs safely to its end or to its target |
| Programs.ReachesEnd | crates/rv64-difftest/src/gen.rs:899-1015 | a body of forward blocks reaches its last block from any other, within the instructions that lie between |
| Chunks.ResolveBlock | crates/rv64-difftest/src/gen.rs:934-1012 | each of the seven kinds of chunk resolves to a block that transfers control by exactly the displacement it was given |
| Chunks.ResolveSays | crates/rv64-difftest/src/gen.rs:934-1012 | decoded, the instructions a chunk resolves to carry the chunk's own condition, registers and link, and the displacement given: operands in their places |
| Chunks.ResolveSize | crates/rv64-difftest/src/gen.rs:187-197 | a chunk's declared length is the number of bytes it resolves to |
| Chunks.Displacement | crates/rv64-difftest/src/gen.rs:199-207 | an even displacement below 256 fits every format that may carry it and reads back as itself |
| Generator.GenChunk | crates/rv64-difftest/src/gen.rs:366-600 | any draw gives a chunk no longer than the bound, of harmless instructions, of scratch accesses, or of a transfer at most six chunks ahead |
| Generator.GenCompressed | crates/rv64-difftest/src/gen.rs:610-715 | any draw gives exactly one instruction, compressed and legal, that neither touches memory nor transfers control |
| Generator.GenCMem | crates/rv64-difftest/src/gen.rs:726-804 | any draw gives the four address instructions and one compressed access through the address they leave |
| Generator.ScratchAddrIn | crates/rv64-difftest/src/gen.rs:304-317 | the four instructions emitted mean the four steps of an aligned scratch address, with distinct nonzero temporaries |
| Generator.AddressMeans | crates/rv64-difftest/src/gen.rs:304-317 | the four emitted words decode to those four steps for every register choice and width |
| Assembler.Guards | crates/rv64-difftest/src/gen.rs:199-207 | for every draw sequence each displacement is forward, even and at most 144 bytes, to a strictly later chunk |
| Assembler.MakesABody | crates/rv64-difftest/src/gen.rs:918-1012 | the resolved chunks of any draw sequence form a body that only goes forward |
| Assembler.Put | crates/rv64-difftest/src/gen.rs:1038-1046 | instructions are written one after another and every other byte stays |
| Assembler.DrawChunks | crates/rv64-difftest/src/gen.rs:902-918 | the drawn chunks number what was asked for and, with the terminator, stay within the code budget |
| Assembler.Generate | crates/rv64-difftest/src/gen.rs:899-1065 | the image holds the exit stub, the prologue and every resolved block at their offsets; each block decodes to its chunk's own operands, and each transfer lands on the chunk its skip names, or on the terminator; the three reported numbers describe the body |
| Assembler.EveryRunIsSafe | crates/rv64-difftest/src/gen.rs:899-1065 | every run of every generated body reaches the terminating `ecall` in fewer steps than it has instructions, never traps, and leaves every byte outside the scratch page unchanged |
| Startup.PrologueRuns | crates/rv64-difftest/src/gen.rs:871-892 | from the entry point and any registers the prologue neither traps nor stores, gives the trap vector the stub's address, and reaches the body with each register but the zero one holding its own table entry |
| Startup.ProgramRuns | crates/rv64-difftest/src/gen.rs:899-1065 | every generated program, started at its entry, loads its registers and then reaches its `ecall` without a trap and with its code, stub and table as they were |
| Memory.Bus.Store | crates/rv64/src/bus.rs:74-98 | a store lands little-endian in RAM, is accepted by a device window, or faults, by the whole access |
| Memory.Bus.Load | crates/rv64/src/bus.rs:48-72 | a load reads RAM little-endian or faults, by the whole access |
| Memory.Bus.WriteBlob | crates/rv64-host/src/lib.rs:36-54 | the exact memory effect on every outcome: success if and only if the blob fits one window, and on failure everything before the first unmapped byte is written |
| Memory.StoreFollows | crates/rv64-host/src/lib.rs:36-54 | one store further joins on to the run so far, or the run is over at the first unmapped address |
| DeviceTree.PropRange | crates/rv64-host/src/fdt.rs:46-103 | the indexed walk with its node stack finds the property the recursive description finds, or nothing for any malformed blob |
| DeviceTreeRoundTrip.FoundAgain | crates/rv64-host/src/fdt.rs:46-103 | in the flattened form of any tree with well-formed names, looking up a path and a name finds what descending the tree finds, or nothing when the tree has no such property |
| DeviceTreeRoundTrip.FoundIsPatchable | crates/rv64-host/src/fdt.rs:116-127 | an eight-byte property of any such tree is one whose patch keeps every lookup |
| Unicode.AcceptedExactly | crates/rv64-host/src/fdt.rs:67-91 | the names the walk accepts are exactly the UTF-8 forms of code points |
| DeviceTree.Walk | crates/rv64-host/src/fdt.rs:46-103 | for any blob at all, a range found lies inside it and past the token that introduced it |
| DeviceTree.SetU64 | crates/rv64-host/src/fdt.rs:116-127 | an eight-byte value is overwritten in place, most significant byte first; anything else is refused and the blob untouched |
| DeviceTree.PatchKeepsLookups | crates/rv64-host/src/fdt.rs:116-127 | when neither the header nor a name the walk reads meets the patched value, every lookup finds the same range after a patch as before, and what could be patched still can |
| DeviceTree.PatchFrame | crates/rv64-host/src/fdt.rs:116-127 | the patched property reads back as the number, and every property of another name keeps its value |
| DeviceTree.PatchKeepsDisjoint | crates/rv64-host/src/fdt.rs:116-127 | every lookup whose range does not meet the patch keeps its value |
| DeviceTree.ApartIsPatchable | crates/rv64-host/src/fdt.rs:46-127 | that holds of every two-cell value in the struct block of a blob whose header, struct block and strings block do not overlap, whichever block comes first |
| DeviceTree.WalkDisjoint | crates/rv64-host/src/fdt.rs:46-103 | in any blob the values found under two names do not overlap |
| ElfReader.WriteSegment | crates/rv64-host/src/elf.rs:100-130 | data and then zeros are stored, with the exact effect and first unmapped address on failure |
| ElfReader.LoadElf | crates/rv64-host/src/elf.rs:137-160 | the loop over program headers has the outcome and memory of storing each loadable segment in turn |
| ElfReader.Extent | crates/rv64-host/src/elf.rs:171-187 | the result is the maximum reach of any loadable segment, saturating, or an error exactly when a header is malformed |
| ElfReader.LoadedReaches | crates/rv64-host/src/elf.rs:137-187 | whatever the loader accepts the extent scan accepts too |
| ElfReader.FindSymbol | crates/rv64-host/src/elf.rs:194-231 | the nested scan returns the first matching symbol of the first table that has one, skipping only malformed names |
| ElfWriter.Build | crates/rv64-difftest/src/elf.rs:79-137 | the bytes written are an object with the header, program header, sections, symbols and names both readers need |
| ElfRoundTrip.LoadsBack | crates/rv64-difftest/src/elf.rs:79-137 | loading a built object puts the image at the base, zeros to the mapped size, changes nothing else, and returns the entry |
| ElfRoundTrip.SegmentRead | crates/rv64-host/src/elf.rs:137-187 | any program header of any file is read as the segment, and the reach, its fields describe |
| ElfRoundTrip.ExtentBack | crates/rv64-host/src/elf.rs:171-187 | the extent of a built object is the end of its mapped size |
| ElfRoundTrip.SymbolsBack | crates/rv64-host/src/elf.rs:194-231 | both symbols of a built object are found at the addresses written |
| ElfRoundTrip.BuildAndLoad | crates/rv64-difftest/src/elf.rs:79-137 | the writer, the loader and the symbol lookup run one after the other give back the image and both addresses |
| BootImages.LoadKernel | crates/rv64-host/src/lib.rs:185-235 | a raw image is placed, its end taken from the declared footprint, and each refusal is the one its header calls for; an ELF is loaded if and only if its segments are, ends at its extent, and is refused for what its loader found |
| BootImages.RawKernel | crates/rv64-host/src/lib.rs:125-150 | an accepted raw image fits in RAM and ends no lower than its file does |
| BootImages.RawKernelExact | crates/rv64-host/src/lib.rs:125-150 | a raw image is accepted if and only if its header, where it has one, asks for this load offset, the file fits RAM and what it occupies, the larger of the file's and the declared size, ends below 2^64; it then ends there |
| BootImages.BothRecorded | crates/rv64-host/src/lib.rs:745-756 | the tree written for the guest records both ends of the initrd and keeps every other property |
| BootImages.TreeRecordable | crates/rv64-host/src/lib.rs:745-756 | the flattened form of a tree can record an initrd if and only if the tree's chosen node has both eight-byte cells |
| BootImages.LoadBootImages | crates/rv64-host/src/lib.rs:736-773 | a load succeeds if and only if the kernel loads and both other images fit behind its end and can be recorded, and then leaves exactly the three images, the tree already patched, and the start state of the boot protocol |
| DtbAddress.LayoutStacks | crates/rv64-host/src/lib.rs:288-320 | a layout whose images could be placed has the tree on the next word past the kernel, and the initrd on a page of its own: at a page boundary, past the tree by less than a page |
| DtbAddress.LayoutWhenRoom | crates/rv64-host/src/lib.rs:288-320 | when no 64-bit sum overflows, there is a layout if and only if there are a word past the kernel and a page past the tree from which both images fit below the top of RAM |
| DtbAddress.LoadedImages | crates/rv64-host/src/lib.rs:736-773 | after a successful load the three images lie in disjoint regions of RAM, one above the other |
| DtbAddress.FindDtb | badge/app/src/run.rs:550-585 | the badge's checks, in order, with the error each gives |
| DtbAddress.BadgeFindsDtb | badge/app/src/run.rs:550-585 | on the memory a successful load left, the badge returns the host's address if and only if the image size is at least a page and rounds as the footprint does, and the tree has its magic |
| DtbAddress.ProperImagesRecover | badge/app/src/run.rs:550-585 | an image size of a page and no smaller than the file leaves only the magic to ask for, and with an initrd not even that |
| DtbAddress.ServeAndStart | badge/app/src/run.rs:596-608 | host load and badge start, one after the other: the load succeeds exactly when the images fit, and then both ends agree on the whole start state under that same condition |
| RunLoops.RunUntil | crates/rv64-host/src/lib.rs:580-619 | the result is the run the definition of an ending describes, trap looked for before budget |
| RunLoops.RunSliced | badge/app/src/run.rs:832-942 | for every positive slice: a run is stopped if and only if the watcher refuses at the end of some slice it reaches, and at the first such; any other is the run the definition describes, trap looked for after budget |
| RunLoops.OneInstruction | crates/rv64-host/src/lib.rs:580-619 | a machine that writes down what is done to it: each instruction is preceded by one look for interrupts and followed by one tick of the timer, and the last, failed or final, by none |
| RunLoops.EndsOnce | crates/rv64-host/src/lib.rs:580-619 | at most one state, count and ending answers the definition |
| RunLoops.LoopsAgree | badge/app/src/run.rs:832-942 | both loops end in the same state after the same count; the endings differ if and only if the machine reaches a dead end exactly at the budget |
| RunLoops.RunBoth | badge/app/src/run.rs:832-942 | running the two loops, the badge's in slices of any positive length and never refused, gives that agreement |
| RunLoops.EndingsCanDiffer | crates/rv64-host/src/lib.rs:580-619 | for each budget there is a machine on which one loop reports the trap and the other the budget |
| RunLoops.ResumedRun | crates/rv64-host/src/lib.rs:898-911 | a run taken up where another was capped is one run under the joint budget |
| RunLoops.ConsoleReached | crates/rv64-host/src/lib.rs:823-830 | finds a marker at or after the cursor, and leaves the cursor one byte short of a whole marker from the end |
| RunLoops.IncrementalScan | crates/rv64-host/src/lib.rs:823-830 | scanning a grown buffer from the cursor finds the marker if and only if the whole buffer contains it |
| RunLoops.FirstSighting | crates/rv64-host/src/lib.rs:823-830 | over growing buffers the first poll to answer yes is the first buffer that contains the marker |
| RunLoops.BootSliced | crates/rv64-host/src/lib.rs:898-911 | the marker is reached if and only if some look sees it, and at the first look that does; a boot that never shows it is one unsliced run for a positive budget |
| Terminal.Grid.Put | badge/app/src/oled.rs:251-300 | one byte changes the grid as it changes an unbounded terminal, and the cells stay its last rows |
| Terminal.Grid.Write | badge/app/src/oled.rs:302-311 | a printable byte is placed with deferred wrap and the cells stay the last rows |
| Terminal.Grid.Newline | badge/app/src/oled.rs:312-321 | a new line scrolls the cells exactly as it lengthens the unbounded terminal |
| Terminal.Grid.WriteBytes | badge/app/src/oled.rs:322-329 | after any bytes the cells are the last rows of an unbounded terminal fed the same bytes |
| Terminal.ScreenShowsTail | badge/app/src/oled.rs:312-321 | the cells show the last rows' worth of lines, blank past each line's end and past the last line |
| Terminal.StrippedFirst | badge/app/src/oled.rs:251-269 | feeding any bytes equals feeding what a separate stripper leaves of them |
| Terminal.StripInPieces | badge/app/src/oled.rs:195-203 | stripping does not depend on how the bytes are cut |
| Terminal.FeedInPieces | badge/app/src/oled.rs:251-300 | feeding does not depend on how the bytes are cut |
| Terminal.SequenceLeavesNothing | badge/app/src/oled.rs:251-269 | a whole control sequence leaves nothing and ends in ordinary text |
| Terminal.EscapeTakesOne | badge/app/src/oled.rs:251-269 | an escape not followed by an opening bracket swallows one byte and no more |
| Terminal.PrintableText | badge/app/src/oled.rs:302-321 | printable text fills lines to the full width and wraps only when more follows |
| TerminalControls.TextLines | badge/app/src/oled.rs:251-321 | printable text with line feeds shows, from a blank terminal, the wrapping of each of its lines, one under the other |
| TerminalControls.LineFeedStartsAfresh | badge/app/src/oled.rs:272-275 | after a line feed any bytes show below as they would on a blank terminal, and what stood above stays |
| TerminalControls.ReturnOverwrites | badge/app/src/oled.rs:276-276 | after a carriage return text overwrites the line from its first column, and what it does not reach stays |
| TerminalControls.BackspaceReplaces | badge/app/src/oled.rs:277-277 | a byte, a backspace and another leave what the other alone would |
| TerminalControls.BackspaceMoves | badge/app/src/oled.rs:277-277 | a backspace erases nothing and steps left, at the first column nowhere |
| TerminalControls.TabToStop | badge/app/src/oled.rs:278-285 | a tab is as many blanks as lead to the least tab stop past the cursor, or to the edge; at the edge none |
| TerminalControls.Dropped | badge/app/src/oled.rs:287-290 | every other control byte and every byte past the printable ones changes nothing |
| OledSink.FrameShape | badge/app/src/oled.rs:487-503 | a frame is eight lines of sixteen printable characters that differ from the grid at most in a blank last cell |
| OledSink.SpinnerTurns | badge/app/src/oled.rs:487-503 | over a blank last cell a running guest shows a spinner that turns with each beat, a stopped one none, and nothing else differs |
| OledSink.Sink.Frame | badge/app/src/oled.rs:487-503 | the string drawn is the rows of the unbounded terminal's screen, joined, with the spinner |
| OledSink.Sink.Flush | badge/app/src/oled.rs:433-466 | draws if and only if a frame is owed; a failed draw stays owed; when nothing is owed the screen shows the current frame |
| OledSink.OneMoreDraw | badge/app/src/oled.rs:433-466 | an outage is counted once, when it becomes long |
| EchoHost.FindStream | badge/echo-host.py:146-169 | finds the first well-formed command and nothing that is not one, or nothing to act on yet |
| EchoHost.DecimalBack | badge/echo-host.py:146-169 | the page count read is the number written, in any number of digits and after any leading zeros |
| EchoHost.Host.Next | badge/echo-host.py:223-231 | the token that starts earliest is the one the first completing newline ends |
| EchoHost.Host.OnRead | badge/echo-host.py:217-247 | one read serves exactly the tokens it completes, in order, then trims |
| EchoHost.CompletedByTail | badge/echo-host.py:246-247 | a tail completes nothing the whole does not, and completes what it has room for |
| EchoReads.SafeReads | badge/echo-host.py:217-247 | a safe stream is served in full however it is cut into reads |
| EchoReads.UnsafeReads | badge/echo-host.py:246-247 | some cut of an unsafe stream, within what one read may return, loses a command |
| EchoReads.ReadBoundariesExact | badge/echo-host.py:217-247 | the served sequence is independent of the cut exactly when every stream command fits in what a trim keeps or ends soon enough after the last token |
| EchoReads.LongCommandIsUnsafe | badge/echo-host.py:246-247 | filler without newlines and a command too long for what a trim keeps, together longer than a trim allows, ask for one run of pages and are not safe |
| EchoReads.ALostCommand | badge/echo-host.py:246-247 | one such stream, and a cut of it into reads that serves nothing |

## Left out

- The byte codec, its CRC and the decoder's noise capture: frames arrive whole or not at all.
- Partially sent requests: a request that was not sent in full never becomes a frame.
- Time-outs assume that each receive spends one of finitely many spins or advances the clock.
- Console frames from the badge are sent whole; pacing is proved separately in `SendPaced`.
- The page cache, the MMU, the interpreter's arithmetic and the devices behind the timer and UART windows.
- `confirm_park`, transport status, fault text and platform errors: reporting only.
- Backing failures while the badge reads its boot image: the model's RAM always answers.
- `u32` overflow of the failure streak and of counters.
- `exchange`'s type check on a frame the mux already selected by type: it cannot fail.
- The exit stub's own run: it is placed, and the trap vector given its address, but a run ends at the `ecall` as the emulator's does.
- The listing and disassembly text of generated programs, and the quality and period of the random numbers.
- ELF offsets that overflow panic in a debug build; here they wrap.
- ELF kernels in the badge's recovery: it does not support them.
- `stream_pages`' cap on a page count and `show`'s cosmetic filtering of report lines; a report line is only recorded as shown.
- The between-slice service's counters, heartbeat cadence and throughput lines.
- Everything under the Xous target: system calls, threads, address capture and the real display.
