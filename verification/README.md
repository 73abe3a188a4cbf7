# b1nix kernel: verified models of its hardest parts

b1nix is a small operating-system kernel. This project models eight of its files in Dafny and proves what they are for.

**The eBPF subsystem** (`kernel/bpf`). `bpf_verify` is an abstract interpreter: nine kinds of register, spilled stack slots, ring-buffer records held per path, constant folding and pruning. `bpf_run` is the machine it over-approximates, and `bpf_jit_x86.c` compiles programs for that machine.

- The verifier is sound: every run of an accepted program touches only its frame, its context, values of its maps and records it holds, moves strictly forward, and ends at EXIT with every record given back. Each access lands in the object its register was typed by, and together with the rings of its maps a run leaves no record BUSY. `BpfWalk` shows that a walk which ends without error leaves a certificate; `BpfSafety` proves the runs of a certified program safe, for any context, any memory contents off the frame and any helper results its prototypes allow.
- The walk is also exact about refusals: it refuses only when its step budget is spent or when a path of accepted instructions leads from the entry to a state the verifier refuses, and it changes nothing of the program but its map loads.
- The compiled code means what the interpreter means: started by the C calling convention with arbitrary other registers, it returns to its caller with the same r0, the same sequence of helper calls and the same shared memory. What is asked of helpers is asked only along the run, and a kernel whose reservations succeed meets it. This rests on a decoder that undoes the emitters, a layout both passes agree on, and a simulation for every instruction.
- The ring buffer's framing is proved for whole operations and again store by store, with a reader that takes no lock; the BTF checker's acceptance is proved as well.

**The block cache and the I/O gate** (`kernel/dev/blk.c`). One model has a step for every lock-held section and every moment a device command takes effect, and an invariant that every interleaving keeps. Read-ahead and evictions whose write fails are steps on top of these: when a block read ahead is published current is proved exactly. The pool with its hash chains is a class whose sections are proved to be such steps. With one task at a time, read-ahead, eviction, coalesced write-back, flush and invalidation over disks and their partitions answer as a plain array of blocks does. The gate is a hand-over lock with ageing.

**Smaller cores.** The AMD-Vi page table as a finite map, AML field units down to the bit, the ACPI general-purpose event protocol, and the command-line memo table with every load and store of its lock-free lookups a step.

## How it is laid out

| files | what they hold |
|---|---|
| `words`, `memory` | machine words and byte memory |
| `bpf_insn`, `bpf_verifier`, `bpf_wf` | instructions, the verifier's functions, the shape of its states |
| `bpf_machine`, `bpf_semantics`, `bpf_soundness`, `bpf_insn_sound`, `bpf_call_sound`, `bpf_step_sound`, `bpf_safety` | the interpreter and its arithmetic, what a verifier state means, soundness of each instruction, safety of every run |
| `bpf_typed` | accesses land where the verifier's register says |
| `bpf_walk`, `bpf_run` | `bpf_verify` and `bpf_run` as they loop |
| `bpf_examples` | two programs with their certificates |
| `bpf_ring` | a program and the rings it reserves from, together |
| `x86`, `x86_decode`, `x86_machine` | the emitted instructions, their bytes, their effect |
| `jit_*` | the translator, its layout, the simulation, the theorem, the two passes into a buffer, a kernel that meets the theorem |
| `cache_state`, `cache_protocol`, `cache_pool` | the cache as a value, its steps and invariant, the pool in place |
| `cache_ahead` | read-ahead and lost evictions among other processors |
| `cache_serial`, `cache_flush`, `cache_disk` | one task at a time: reads, writes, flushes, disks and partitions |
| `io_gate`, `iommu`, `aml_fields`, `gpe`, `btf` | one component each |
| `ring`, `ring_steps` | the ring by operations, and load by load, store by store |
| `cmdline`, `cmdline_null` | the scans and the memo table; questions asked with a null pointer |

## Where code and comments differ

The models follow the code.

- `bpf_jit_compile` sizes its buffer at 64 bytes an instruction plus 128, as if that covered prologue and epilogue. The zeroed frame makes the prologue 722 bytes, so programs of up to nine instructions never fit and are always interpreted (`JitCompile.ShortProgramsInterpreted`); a program fits exactly when what its instructions leave of 64 bytes each adds up to at least 610 (`JitCompile.FitsIff`).
- An entry of the AMD-Vi table has room for 52 address bits: mapping then translating gives the frame back exactly when it has no more (`Iommu.GivesBack`).
- The end of an AML field is worked out in 32 bits: reading back what was written works exactly when the field ends at or before bit 2^32 (`AmlFields.ReadsBackIff`), and an empty field at bit 0 walks the region.
- The memo's comment says the answer is written before the key is published. The key is the claim and comes first; the ready flag publishes the answer.
- The context is read-only for stores, yet a helper may be handed it as an output buffer: `check_mem` accepts it. `BpfExamples.ContextFilled` is a certified program that has its context filled, and an accepted output buffer is memory the program may write exactly when its register is not the context (`BpfTyped.OutputWritableIff`).
- A block read ahead is published if no write to its device was counted since before the read. That is not enough: a block dirty at the read, written back and recycled before the publication, is published as it was before its last write (`CacheAhead.StaleRun`). A publication is current exactly when no slot held the block dirty with other bytes at the read (`CacheAhead.CurrentIff`).
- A flush of a partition visits none of its blocks if its size is not known, while requests to it are let through: the range visited is all that requests reach exactly for every other device (`CacheDisk.VisitedIff`).
- A question asked with a null pointer leaves an answer in a slot that still counts as free, which the next key to take it inherits. Flags are always answered as a scan answers them exactly as long as no null question is asked; `bootinfo_get_kv` always is (`CmdlineNull.AgreeIff`).

## Model

| member | source | states |
|---|---|---|
| BpfSafety.RunsAreSafe | kernel/bpf/bpf_core.c:725-1392 | In every state of every run of a certified program the next instruction's loads, stores and helper accesses lie in the frame, the context, a value of the program's maps or a record still held, in the very object a stepped state types the register by; runs move strictly forward and are no longer than the program |
| BpfSafety.RunsEndAtExit | kernel/bpf/bpf_core.c:1891-2105 | A run of a certified program never faults or leaves the program: it goes on, or ends at EXIT with no record held and as many commits as reservations |
| BpfSafety.ReservationsAccounted | kernel/bpf/bpf_core.c:929-968 | In every state the records held are the reservations made and not given back, at most eight, each named no later than the instruction reached; BpfRing says which of the ring's records they are |
| BpfRing.NoneLeftBusy | kernel/bpf/bpf_core.c:1673-1682 | When a verified program is about to leave by EXIT, no ring record it made has BUSY set, whatever others did to the rings meanwhile |
| BpfRing.HeldAreBusy | kernel/bpf/bpf_core.c:1636-1682 | In every state of a run, of the ring records it made exactly those it still holds are BUSY |
| BpfRing.JointRunsHold | kernel/bpf/bpf_core.c:1636-1682 | RESERVE, SUBMIT and DISCARD keep held records and BUSY ring records matched one to one, at the addresses given out, for every run |
| BpfRing.CommitFinds | kernel/bpf/bpf_core.c:1673-1682 | What a verified program submits or discards is a record of its own that is still BUSY |
| BpfRing.ReserveIsFresh | kernel/bpf/bpf_core.c:1636-1671 | The record a ring gives out overlaps no record held, which is what the verifier takes for granted of a reservation |
| BpfRing.StepEvolves | kernel/bpf/bpf_core.c:1636-1682 | A step of another program or of the reader finishes none of ours and makes nothing BUSY again |
| BpfRing.OthersEvolve | kernel/bpf/bpf_core.c:1636-1682 | Nor does any number of them |
| BpfSafety.DescribedSteps | kernel/bpf/bpf_core.c:978-1313 | One step of a machine some stepped state describes is safe, does not fault, moves forward and is described again, whatever memory off the frame and the helper do |
| BpfSafety.ReaderCertifiedIff | kernel/bpf/bpf_core.c:725-751 | The program that returns a word of its context has a certificate exactly when the word lies inside the context |
| BpfSoundness.CoversIncludes | kernel/bpf/bpf_core.c:665-707 | If state_covers(o, n), every machine n describes is described by o: pruning is sound |
| BpfSoundness.Pointed | kernel/bpf/bpf_core.c:725-751 | Where check_mem allows an access, the address the pointer really holds is inside the object it stands for |
| BpfStepSound.StepSound | kernel/bpf/bpf_core.c:978-1313 | An accepted instruction is safe on every machine the state describes, accesses only what its registers stand for, and what the interpreter makes of it is described by a state the verdict hands on |
| BpfTyped.StepTyped | kernel/bpf/bpf_core.c:725-751 | A load, store or helper access lands in the frame, the context, a value of the map its register names or the record its register names |
| BpfTyped.OutputWritableIff | kernel/bpf/bpf_core.c:884-903 | A non-empty output buffer of an accepted call is memory the program may write exactly when its register is not the context |
| BpfExamples.ContextFilled | kernel/bpf/bpf_core.c:884-903 | A certified program reaches get_current_comm with its read-only context as the buffer to fill |
| BpfExamples.RingCertified | kernel/bpf/bpf_core.c:929-969 | The program that reserves a record, tests it and submits it has a certificate |
| BpfInsnSound.AluSound | kernel/bpf/bpf_core.c:991-1066 | The verifier's result of an arithmetic instruction describes the interpreter's, pointers and known scalars included |
| BpfInsnSound.FoldAgrees | kernel/bpf/bpf_core.c:772-796 | A folded constant is the value the interpreter computes |
| BpfStepSound.JmpFoldAgrees | kernel/bpf/bpf_core.c:799-821 | A folded condition is the interpreter's, for every conditional jump |
| BpfInsnSound.LoadSound | kernel/bpf/bpf_core.c:1068-1087 | A load gives what the verifier says, a whole spilled slot giving back the spilled pointer or constant |
| BpfInsnSound.StoreSound | kernel/bpf/bpf_core.c:1089-1137 | A store, plain or atomic, writes only where the program may and leaves the frame's slots as the verifier says |
| BpfInsnSound.WideSound | kernel/bpf/bpf_core.c:1139-1187 | A 16-byte load gives its literal or the map it names |
| BpfCallSound.ArgsSound | kernel/bpf/bpf_core.c:855-927 | When the argument loop accepts, every pointer argument reaches as far as the helper may read or write, and output buffers on the stack are forgotten |
| BpfCallSound.CallSound | kernel/bpf/bpf_core.c:842-975 | An accepted call is safe, and the state after it describes the machine for any result the prototype allows |
| BpfCallSound.ReserveSound | kernel/bpf/bpf_core.c:929-969 | A successful reservation is held under the name pc + 1, which no register or slot has yet |
| BpfCallSound.ReleaseSound | kernel/bpf/bpf_core.c:940-954 | Submitting or discarding ends exactly the one record, and nothing that survives still names it |
| BpfStepSound.OkArmSound | kernel/bpf/bpf_core.c:1241-1278 | On the arm where a pointer is not null, every copy of it is usable |
| BpfStepSound.NullArmSound | kernel/bpf/bpf_core.c:1241-1278 | On the arm where it is null, no record is held under its name any more |
| BpfWellFormed.StepKeepsWf | kernel/bpf/bpf_core.c:978-1313 | Every state an instruction hands on is at a later instruction, with distinct reservation names no later than it and offsets that do not run away |
| BpfWellFormed.ProtosWf | kernel/bpf/bpf_core.c:575-618 | Every prototype of the table has its size argument after its memory argument, one map, and reservation and release where the verifier expects them |
| BpfWalk.Walk.Verify | kernel/bpf/bpf_core.c:1341-1392 | Accepts only with a certificate of the rewritten program; refuses only for a spent budget or a path to a refused state; changes only map loads, each pointed at the map its descriptor named |
| BpfWalk.Walk.VerifyPath | kernel/bpf/bpf_core.c:1315-1339 | Walks one path until it ends, is covered or is refused, losing no state still to be checked |
| BpfWalk.Walk.Turn | kernel/bpf/bpf_core.c:1315-1339 | One turn of that loop, within the step budget |
| BpfWalk.Walk.Take | kernel/bpf/bpf_core.c:1324-1336 | Steps one instruction: the state is remembered, the other arm put aside, the invariant kept |
| BpfWalk.Walk.Judged | kernel/bpf/bpf_core.c:709-716 | The verdict on one state, refused when 512 paths are waiting already |
| BpfWalk.Walk.Pruned | kernel/bpf/bpf_core.c:1322-1323 | A path that meets a covering state may end |
| BpfWalk.Walk.Resolve | kernel/bpf/bpf_core.c:1148-1177 | A map load is resolved to the map its descriptor names, or the descriptor names none, or it names one the program does not hold and eight are held already |
| BpfWalk.Held | kernel/bpf/bpf_core.c:1158-1160 | The index of a map the program holds already, or it holds none such |
| BpfWalk.Walk.constructor | kernel/bpf/bpf_core.c:1346-1363 | A walk starts with the entry state to do, the second halves of wide loads marked, and the context size its program's type has |
| BpfWalk.WalkCertifies | kernel/bpf/bpf_core.c:1368-1374 | With nothing left to walk, every successor of a stepped state is covered by a stepped state |
| BpfWalk.WalkSteps | kernel/bpf/bpf_core.c:1330-1337 | Stepping keeps every successor covered, waiting or being walked |
| BpfWalk.VerdictKept | kernel/bpf/bpf_core.c:1148-1177 | Resolving a map load changes no verdict already given |
| BpfWalk.TrailIsPath | kernel/bpf/bpf_core.c:1315-1374 | Whatever the walk reached, a path of accepted instructions leads to from the entry |
| BpfWalk.CheckCovers | kernel/bpf/bpf_core.c:689-707 | The loop over registers, slots and reservations decides coverage |
| BpfWalk.MarkHalves | kernel/bpf/bpf_core.c:1357-1359 | Exactly the second halves of wide loads are marked |
| BpfWalk.ScanArgs | kernel/bpf/bpf_core.c:855-927 | The argument loop computes what the checks of the single arguments compose to |
| BpfWalk.WriteBytes | kernel/bpf/bpf_core.c:755-768 | The byte loop makes plain data of exactly the slots a byte of the write falls in |
| BpfRun.Run | kernel/bpf/bpf_core.c:1891-2105 | On any program, r0 at EXIT or when a guard ends the loop, and 0 for an instruction it does not know; on a verified program the loop leaves by EXIT with its r0, within as many steps as there are instructions, and holding no record; its own guards never end it |
| BpfRun.Loop | kernel/bpf/bpf_core.c:1904-2104 | The loop carries on whatever its turns carry on |
| BpfRun.TurnProper | kernel/bpf/bpf_core.c:1904-2104 | A turn extends a run of a verified program or leaves it by EXIT |
| BpfSemantics.DivisionMeans | kernel/bpf/bpf_core.c:1927-1928 | DIV and MOD are unsigned division in the width, giving zero and the dividend for a zero divisor |
| BpfSemantics.MultiplicationMeans | kernel/bpf/bpf_core.c:1926-1926 | MUL is the product in the width |
| BpfSemantics.ShiftsMean | kernel/bpf/bpf_core.c:1932-1937 | 64-bit shifts multiply and divide by a power of two, the count modulo 64; the arithmetic one rounds down |
| BpfSemantics.ShiftsMean32 | kernel/bpf/bpf_core.c:1932-1937 | 32-bit shifts, the count modulo 32, the result in 32 bits |
| BpfSemantics.BitwiseBits | kernel/bpf/bpf_core.c:1929-1931 | OR, AND and XOR work bit by bit |
| BpfSemantics.EndTwice | kernel/bpf/bpf_core.c:1940-1957 | Swapping to big-endian twice gives the bytes back, truncated to the width |
| BpfSemantics.StoreThenLoad | kernel/bpf/bpf_core.c:1963-2034 | A load of what was stored gives the value, to the size |
| BpfSemantics.AtomicMeans | kernel/bpf/bpf_core.c:1980-2024 | Each atomic the verifier allows applies its operation to the bytes it names and no others, and fetches what was there into src, or into r0 for compare-and-exchange |
| X86Decode.DecodeEncode | kernel/bpf/bpf_jit_x86.c:110-269 | Whatever an emitter wrote, for every register, width, immediate and displacement, decodes to the same instruction and length, forced REX prefixes included |
| X86Decode.StoreTail | kernel/bpf/bpf_jit_x86.c:214-237 | In particular every store, the byte store of a register that needs REX to be named among them |
| X86Decode.StoreImmTail | kernel/bpf/bpf_jit_x86.c:240-269 | And every store of an immediate, in its own width |
| X86Decode.MemRound | kernel/bpf/bpf_jit_x86.c:181-186 | A memory operand decodes to its base and displacement, with the SIB byte where the base needs one |
| JitTranslate.SameLength | kernel/bpf/bpf_jit_x86.c:333-525 | An instruction's code has the same length whatever its displacement, and translates in both passes or neither |
| JitTranslate.LayoutStable | kernel/bpf/bpf_jit_x86.c:333-346 | The code before every instruction is as long as the first pass measured |
| JitTranslate.CodeAt | kernel/bpf/bpf_jit_x86.c:333-525 | At every instruction's offset stands that instruction's code |
| JitTranslate.RelLands | kernel/bpf/bpf_jit_x86.c:506-511 | Every displacement lands on the first byte of its target's code |
| JitCompile.Compile | kernel/bpf/bpf_jit_x86.c:527-568 | Succeeds exactly when memory was granted, every instruction translates and the code fits its buffer; the buffer then starts with the code |
| JitCompile.Jit.Pass | kernel/bpf/bpf_jit_x86.c:333-525 | A pass writes the code its displacements give and notes every offset, or fails exactly when something does not translate or does not fit |
| JitCompile.Jit.Turn | kernel/bpf/bpf_jit_x86.c:337-520 | One instruction of a pass, and the second half of a wide load with it |
| JitCompile.Jit.Translate | kernel/bpf/bpf_jit_x86.c:347-519 | Appends an instruction's code, or gives up on it |
| JitCompile.Jit.PieceOf | kernel/bpf/bpf_jit_x86.c:354-519 | The instructions emitted, displaced by the noted offsets in the final pass |
| JitCompile.Jit.Note | kernel/bpf/bpf_jit_x86.c:346-352 | The offset noted is where the layout puts the instruction |
| JitCompile.Jit.Skip | kernel/bpf/bpf_jit_x86.c:457-461 | The second half of a wide load gets the load's offset and no code |
| JitCompile.Jit.E8 | kernel/bpf/bpf_jit_x86.c:89-95 | A byte is appended, or the buffer is full and nothing is written past it |
| JitCompile.Jit.Emit | kernel/bpf/bpf_jit_x86.c:97-269 | An emitter appends the bytes of its instruction, or the buffer is full |
| JitCompile.FinalPass | kernel/bpf/bpf_jit_x86.c:549-554 | The second pass writes the translation |
| JitCompile.PassLength | kernel/bpf/bpf_jit_x86.c:549-554 | Both passes give every instruction the same offset |
| JitCompile.FitsIff | kernel/bpf/bpf_jit_x86.c:533-541 | The code fits the buffer exactly when what the instructions leave of 64 bytes each adds up to at least 610 |
| JitCompile.ShortProgramsInterpreted | kernel/bpf/bpf_jit_x86.c:533-541 | So a program of up to nine instructions never fits its buffer |
| JitCompile.LongerProgramsFit | kernel/bpf/bpf_jit_x86.c:533-541 | And one whose instructions are each so much shorter than 64 bytes that they leave 610 fits |
| JitArith.RrMeans | kernel/bpf/bpf_jit_x86.c:118-122 | The processor's two-operand operations compute the interpreter's, in both widths |
| JitArith.ShiftMeans | kernel/bpf/bpf_jit_x86.c:167-178 | So do its shifts, for every count the processor masks |
| JitArith.CmpMeans | kernel/bpf/bpf_jit_x86.c:311-329 | After a comparison every condition code decides its jump, signed and unsigned, in both widths |
| JitArith.TestMeans | kernel/bpf/bpf_jit_x86.c:324-326 | After a test, not-equal decides JSET |
| JitSim.AluSim | kernel/bpf/bpf_jit_x86.c:355-407 | The code of an arithmetic instruction does to the processor what the step does to the BPF machine, saving rcx round a variable shift |
| JitSteps.LoadSim | kernel/bpf/bpf_jit_x86.c:408-423 | The same for loads |
| JitSteps.StoreSim | kernel/bpf/bpf_jit_x86.c:424-443 | The same for stores |
| JitSteps.WideSim | kernel/bpf/bpf_jit_x86.c:444-463 | The same for 16-byte loads |
| JitSteps.CondSim | kernel/bpf/bpf_jit_x86.c:486-511 | A conditional jump goes to its target exactly when the interpreter's does |
| JitSteps.JaSim | kernel/bpf/bpf_jit_x86.c:503-511 | An unconditional one goes to its target |
| JitFrames.CallSim | kernel/bpf/bpf_jit_x86.c:299-309 | The argument shuffle makes the interpreter's helper call and keeps the registers a call keeps |
| JitEntry.PrologueSetsUp | kernel/bpf/bpf_jit_x86.c:271-284 | The prologue leaves the processor where the interpreter starts: context in r1, frame in r10, the frame zeroed, the caller's registers saved |
| JitEntry.EpilogueReturns | kernel/bpf/bpf_jit_x86.c:286-294 | The epilogue returns to the caller with its registers and stack restored |
| JitInit.AluInit | kernel/bpf/bpf_core.c:991-1066 | An accepted arithmetic instruction reads only registers that were written |
| JitInit.CallInit | kernel/bpf/bpf_core.c:842-975 | An accepted call reads only written registers, and r1 to r5 count as unwritten after it |
| JitInit.CondInit | kernel/bpf/bpf_core.c:1223-1305 | An accepted conditional jump reads only written registers |
| JitInit.AcceptedTranslates | kernel/bpf/bpf_jit_x86.c:354-519 | An accepted instruction is translated exactly unless it divides, changes byte order, shifts register 4 by another, is atomic or jumps off the end |
| JitMeaning.BothStep | kernel/bpf/bpf_jit_x86.c:333-525 | A step of the interpreter is matched by the processor running the instruction's code, if the helper called just then keeps its word |
| JitMeaning.RunFollows | kernel/bpf/bpf_jit_x86.c:333-525 | So is the rest of every run along which helpers keep theirs |
| JitTheorem.CompiledMeansInterpreted | kernel/bpf/bpf_jit_x86.c:271-525 | On a certified and translated program the compiled code returns with the interpreter's r0, helper calls and shared memory, at the same frame address, from arbitrary registers |
| JitKernel.GrantingKeeps | kernel/bpf/bpf_core.c:1636-1671 | A kernel that grants reservations one behind the other, as a ring does, keeps its word along every run of every program |
| JitKernel.ReservationSucceeds | kernel/bpf/bpf_core.c:1636-1671 | With such a kernel a certified program holds a record four turns into a run that meets all the theorem asks of helpers |
| JitKernel.KernelExists | kernel/bpf/bpf_core.c:1636-1671 | An environment, a stack and a kernel that meet it all, nothing assumed |
| CacheProtocol.StepKeeps | kernel/dev/blk.c:1245-1457 | Every lock-held section and device command keeps the cache's invariant |
| CacheProtocol.RunsKeepInv | kernel/dev/blk.c:1885-2279 | In every state of every interleaving: one linked slot per block, linked slots on exactly one chain once, a claim belongs to one command, and a block not in the cache has its latest bytes on the medium |
| CacheProtocol.HitsAreCurrent | kernel/dev/blk.c:1914-1943 | A lookup answered from the cache gives the last bytes written |
| CacheProtocol.FillsAreCurrent | kernel/dev/blk.c:1946-2028 | A miss is answered with the last bytes written, however long the device took |
| CacheProtocol.CleanedOnlyWhenLanded | kernel/dev/blk.c:1368-1380 | DIRTY goes only when exactly the slot's bytes are on the medium |
| CacheProtocol.AbsentIsOnMedium | kernel/dev/blk.c:1388-1457 | A block no slot is linked for is on the medium |
| CacheProtocol.CleanMeansOnMedium | kernel/dev/blk.c:2794-2825 | Once no slot of a block is dirty, the medium has it |
| CacheAhead.CurrentIff | kernel/dev/blk.c:2040-2063 | In any run so far careful, a block read ahead and published, not lost between, is current exactly if no slot held it dirty with other bytes when the device was read |
| CacheAhead.StaleRun | kernel/dev/blk.c:1969-2063 | A run of a reader, a writer and a write-back, for any two blocks and bytes, in which the count of writes does not change and a block is published older than its last write |
| CacheAhead.FirstStale | kernel/dev/blk.c:2040-2063 | The first such publication leaves a slot that answers lookups with other bytes than the last written |
| CacheAhead.PublishIff | kernel/dev/blk.c:2056-2062 | Publishing a block keeps the cache's invariant exactly when its bytes are what readers are owed |
| CacheAhead.OwedIff | kernel/dev/blk.c:1388-1457 | The device has what readers of a block are owed exactly unless a slot holds the block dirty with other bytes |
| CacheAhead.ARunsKeepInv | kernel/dev/blk.c:1885-2279 | Every interleaving with read-ahead and lost evictions keeps the invariant as long as only blocks sound at their read are published |
| CacheAhead.HitsStayCurrent | kernel/dev/blk.c:1914-1943 | And its hits are the last bytes written and not lost |
| CacheAhead.BehindIffDirty | kernel/dev/blk.c:1388-1457 | In such runs a device is behind on a block exactly while a slot holds it dirty with other bytes |
| CacheAhead.DirtyGoes | kernel/dev/blk.c:1428-1451 | DIRTY goes only when exactly the slot's bytes are on the device, or with the eviction that loses them |
| CacheAhead.LoseKeeps | kernel/dev/blk.c:1428-1456 | An eviction whose write failed loses the bytes of its own block and of no other |
| CacheAhead.OwedChanges | kernel/dev/blk.c:1428-1456 | What readers of a block are owed changes only by a write to it, or to what the device has when it is lost |
| CachePool.Pool.constructor | kernel/dev/blk.c:1183-1243 | An empty pool satisfies the invariant |
| CachePool.Pool.HashInsert | kernel/dev/blk.c:200-210 | The slot is first on its bucket's chain, every chain still linked |
| CachePool.Pool.HashRemove | kernel/dev/blk.c:177-197 | The slot is cut out of its chain, every chain still linked; an unlinked slot is left alone |
| CachePool.Pool.Find | kernel/dev/blk.c:1245-1264 | The linked slot of a block, or none is linked for it |
| CachePool.Pool.Sweep | kernel/dev/blk.c:1405-1427 | The first idle or clean slot from the hand on, else the first dirty one, else all are claimed; the hand is left behind it |
| CachePool.Pool.Vacate | kernel/dev/blk.c:1452-1456 | A clean slot is unlinked and free |
| CachePool.Pool.ReadSection | kernel/dev/blk.c:1913-1970 | The section of a cached read: current bytes, a wait for good reason, a slot that must be written back first, or a fill begun as a step of the protocol |
| CachePool.Pool.StartFill | kernel/dev/blk.c:1959-1970 | A fill begun as a step of the protocol |
| CachePool.Pool.WriteSection | kernel/dev/blk.c:2162-2235 | The section of a cached write, as a step of the protocol |
| CachePool.Pool.WriteNew | kernel/dev/blk.c:2213-2227 | A write into a slot made free for it |
| CachePool.Pool.DeviceRead | kernel/dev/blk.c:1998-2007 | The bytes of the block arrive in the claimed slot |
| CachePool.Pool.EndFill | kernel/dev/blk.c:2008-2028 | The slot is published with what came, or withdrawn |
| CachePool.Pool.Invalidate | kernel/dev/blk.c:3190-3196 | A clean slot is forgotten as a step of the protocol |
| CachePool.Pool.Joins | kernel/dev/blk.c:1334-1337 | Whether a block has a slot that could join a run |
| CachePool.Pool.WalkBack | kernel/dev/blk.c:1333-1339 | Back at most limit - 1 blocks, all of which can join |
| CachePool.Pool.ClaimRun | kernel/dev/blk.c:1341-1350 | Forward as far as it goes: consecutive, dirty, claimed, within the limit, past the anchor |
| CachePool.Pool.BeginWrite | kernel/dev/blk.c:1301-1366 | The run claimed is contiguous, within the device limit, all dirty, contains its anchor, and is a step of the protocol |
| CachePool.Pool.Command | kernel/dev/blk.c:1361-1369 | Each block of the run gets the bytes of its slot |
| CachePool.Pool.DeviceWrite | kernel/dev/blk.c:1366-1369 | The same as a step of the protocol |
| CachePool.Pool.ReleaseRun | kernel/dev/blk.c:1374-1380 | Every claim of the run is given back, clean if the device took it |
| CachePool.Pool.EndWrite | kernel/dev/blk.c:1372-1381 | The same as a step of the protocol; a failed write keeps DIRTY |
| CacheSerial.WriteBack | kernel/dev/blk.c:1301-1382 | A whole write-back cleans its run, the anchor in it, and changes nothing readers see |
| CacheSerial.MakeRoom | kernel/dev/blk.c:1388-1457 | A slot is made free with nothing lost, and with a clean slot in the pool the medium is not touched |
| CacheSerial.Miss | kernel/dev/blk.c:1946-2028 | A miss leaves the block's current bytes in a clean slot |
| CacheSerial.Prefetch | kernel/dev/blk.c:2040-2063 | Publishing blocks read ahead always finds a clean victim: it writes nothing back and publishes no older copy |
| CacheSerial.ReadBlock | kernel/dev/blk.c:1885-2071 | One block through the cache, read-ahead of any size included, is the last one written |
| CacheSerial.WriteBlock | kernel/dev/blk.c:2146-2253 | One block written is the block readers get |
| CacheFlush.SortSet | kernel/dev/blk.c:2480-2493 | The claims in block order, none lost or repeated |
| CacheFlush.CutRuns | kernel/dev/blk.c:2495-2512 | Runs that together are the claims in order, each contiguous on one device and within its limit |
| CacheFlush.FlushRun | kernel/dev/blk.c:2422-2470 | One command for a run, or if the device refuses it one for each block; every claim is given back once, clean unless the device refused that block by itself |
| CacheFlush.FlushOne | kernel/dev/blk.c:2425-2434 | One block by itself: clean on its own block, or refused and still dirty |
| CacheFlush.FlushEach | kernel/dev/blk.c:2462-2469 | Block by block after a refusal, each slot settled by its own command |
| CacheFlush.FlushSorted | kernel/dev/blk.c:2473-2513 | Every claim of the set goes to its own block in exactly one run and is given back, clean unless the device refused it |
| CacheFlush.ReleaseSent | kernel/dev/blk.c:2299-2308 | The claims of a run are given back |
| CacheFlush.Consider | kernel/dev/blk.c:2660-2707 | A slot of the scan is claimed exactly if it is dirty, in the range and, where a file is named, may be of that file |
| CacheFlush.Flush | kernel/dev/blk.c:2638-2737 | Afterwards no wanted slot is dirty unless the device refused its block, no other slot has changed, and without a file named the medium has every block of the range not refused as last written, in batches of any number |
| CacheDisk.PartitionsAlias | kernel/dev/blk.c:1838-1848 | A block written through a partition is read through its disk, and the other way round |
| CacheDisk.ReadCached | kernel/dev/blk.c:1885-2071 | Answers as a plain array of blocks does, out-of-range requests included |
| CacheDisk.WriteCached | kernel/dev/blk.c:2146-2253 | Answers and updates as the plain array does |
| CacheDisk.SyncCached | kernel/dev/blk.c:2794-2825 | Afterwards the raw medium equals the logical disk over the range visited, and over all that requests reach unless the device is a partition of unknown size |
| CacheDisk.VisitedIff | kernel/dev/blk.c:2802-2813 | The range a flush visits is all a device's requests can reach, exactly unless it is a partition of unknown size |
| CacheDisk.InvalidateCached | kernel/dev/blk.c:3151-3200 | Nothing of the device is held any more, and nothing written is lost |
| CacheDisk.Serve | kernel/dev/blk.c:1885-2253 | Any sequence of cached reads, writes, flushes and invalidations is answered as the plain array answers it |
| IoGate.Choose | kernel/dev/blk.c:1669-1702 | The first waiter of least effective priority, or nobody waits |
| IoGate.NotPassedOver | kernel/dev/blk.c:1543-1555 | A request that has waited 256 ticks is not passed over for one that has waited fewer than 32 |
| IoGate.StepKeeps | kernel/dev/blk.c:1582-1702 | Every section of the gate keeps its invariant |
| IoGate.RunsKeepInv | kernel/dev/blk.c:1582-1702 | So does every run |
| IoGate.GateHolds | kernel/dev/blk.c:1582-1702 | At most one task has the device, and while anyone waits unadmitted somebody has it |
| IoGate.HandOverIsFair | kernel/dev/blk.c:1669-1702 | Every hand-over picks a least effective priority and keeps the ageing bound |
| Iommu.Unit.constructor | kernel/dev/amdvi.c:375-436 | An empty domain maps nothing |
| Iommu.Unit.Next | kernel/dev/amdvi.c:181-197 | The table one level down, made if allowed; the mapping is unchanged; without it, none is left to take |
| Iommu.Unit.LeafTable | kernel/dev/amdvi.c:199-211 | The lowest table of a page, the mapping unchanged |
| Iommu.Unit.Map | kernel/dev/amdvi.c:213-233 | Changes exactly the pages it got to, all of them on success; fails only for misalignment or want of a table page |
| Iommu.Unit.Unmap | kernel/dev/amdvi.c:235-250 | Removes exactly its own pages |
| Iommu.Unit.Translate | kernel/dev/amdvi.c:252-264 | Reads the mapping and adds the page offset, changing nothing |
| Iommu.LeafWritten | kernel/dev/amdvi.c:226-228 | Writing a leaf changes what its page maps to and no other page |
| Iommu.CreatedKeepsTree | kernel/dev/amdvi.c:181-197 | A new table page keeps the tables a tree without sharing |
| Iommu.CreatedLeaves | kernel/dev/amdvi.c:181-197 | A new table page maps and unmaps nothing |
| Iommu.WaysMeet | kernel/dev/amdvi.c:199-211 | Pages that come to the same lowest table share all their upper indices |
| Iommu.PackUnpacks | kernel/dev/amdvi.c:226-228 | An entry is present and gives back the frame, to 52 bits |
| Iommu.MappedInside | kernel/dev/amdvi.c:213-233 | Below 2^48, the i-th page of a request maps to its i-th frame |
| Iommu.OthersUnmoved | kernel/dev/amdvi.c:213-250 | Below 2^48, mapping and unmapping leave every other page as it was |
| Iommu.GivesBack | kernel/dev/amdvi.c:252-264 | Translating gives the frame back exactly when it has at most 52 bits |
| Iommu.MapThenTranslate | kernel/dev/amdvi.c:213-264 | An address inside a mapped request translates to the same place in its frames |
| Ring.RingBuf.constructor | kernel/bpf/bpf_core.c:140-161 | An empty ring is framed |
| Ring.RingBuf.Reserve | kernel/bpf/bpf_core.c:1636-1671 | A record in one piece behind the last, behind a discarded pad if the end is near; nothing changes if there is no room; the ring stays framed |
| Ring.RingBuf.Commit | kernel/bpf/bpf_core.c:1673-1682 | Exactly that record is finished, kept or discarded |
| Ring.RingBuf.Consume | kernel/bpf/bpf_core.c:1630-1632 | The reader passes exactly one finished record, or none is finished |
| Ring.ReserveKeeps | kernel/bpf/bpf_core.c:1636-1671 | Reserving keeps the bytes between reader and writer tiled by aligned records that do not cross the end, and no more than the ring holds |
| Ring.CommitKeeps | kernel/bpf/bpf_core.c:1673-1682 | So does finishing a record |
| Ring.ConsumeKeeps | kernel/bpf/bpf_core.c:1630-1632 | So does reading one |
| Ring.RecordsApart | kernel/bpf/bpf_core.c:1636-1671 | No two unread records overlap in the ring's memory |
| Ring.DrainedHasRoom | kernel/bpf/bpf_core.c:932-934 | On a drained ring every size the verifier allows has room |
| Ring.OffIsRemainder | kernel/bpf/bpf_core.c:1647-1647 | A record's offset is its position modulo the ring's size |
| RingSteps.StepKeeps | kernel/bpf/bpf_core.c:1636-1682 | Every store of a reservation, a commit or the reader, one at a time, keeps the ring framed and the reader's view of it whole |
| RingSteps.RunsKeepInv | kernel/bpf/bpf_core.c:1636-1682 | So does every interleaving of them |
| RingSteps.ReaderSeesRecord | kernel/bpf/bpf_core.c:1649-1665 | Whenever the reader believes a record is ahead, its header is there: pad and record headers are stored before the position that publishes them |
| RingSteps.PassKeeps | kernel/bpf/bpf_core.c:1630-1632 | The reader passes exactly the first record, and only a finished one |
| AmlFields.ReadField | kernel/dev/aml.c:955-984 | The field's bits if its accesses are inside the region, zero for a field without bits of its own, else the region error; over 64 bits refused |
| AmlFields.OpRegion.WriteField | kernel/dev/aml.c:986-1028 | The field's bits written and the update rule applied to the rest of its accesses, as far as they are inside the region; success exactly if all are |
| AmlFields.ReadsBack | kernel/dev/aml.c:955-1028 | Reading a field just written gives the value to the field's width, whatever the update rule |
| AmlFields.ReadsBackValue | kernel/dev/aml.c:955-1028 | As numbers: the value modulo two to the width |
| AmlFields.ReadsBackIff | kernel/dev/aml.c:963-965 | It does for every value exactly when the field ends at or before bit 2^32 |
| AmlFields.Preserves | kernel/dev/aml.c:1009-1023 | Under Preserve no bit outside the field changes; under any rule none outside its accesses |
| AmlFields.UnitIsQuotient | kernel/dev/aml.c:963-965 | Accesses start at whole multiples of their width |
| Gpe.StepKeeps | kernel/dev/acpi_event.c:211-299 | Every register access of handler, kacpid and hardware keeps the invariant |
| Gpe.RunsKeepInv | kernel/dev/acpi_event.c:517-562 | So does every run |
| Gpe.MaskedExactlyInService | kernel/dev/acpi_event.c:271-299 | An armed event is masked exactly while it is pending or in service |
| Gpe.EdgesRecorded | kernel/dev/acpi_event.c:517-562 | An edge raised is still recorded until a run of its method starts after it |
| Gpe.NothingStranded | kernel/dev/acpi_event.c:517-562 | With handler and kacpid idle, an edge still owed asserts its interrupt |
| Btf.Parse | kernel/bpf/bpf_btf.c:100-227 | Accepts exactly the well-formed blobs, with the number of their types, reading only inside the blob |
| Btf.Records | kernel/bpf/bpf_btf.c:134-161 | The first pass reads the type section as records end to end, or it cannot be so read |
| Btf.Members | kernel/bpf/bpf_btf.c:183-218 | The loop over members accepts exactly those whose names and types are in range |
| Btf.References | kernel/bpf/bpf_btf.c:165-222 | A record's references are accepted exactly when they are in range |
| Btf.ChainUnique | kernel/bpf/bpf_btf.c:100-227 | There is one way to read a type section |
| Btf.TypeKind | kernel/bpf/bpf_btf.c:230-244 | On an accepted blob, the known kind of type id for exactly 1 to the number of types, and 0 otherwise |
| Cmdline.FlagScan | kernel/bootinfo/multiboot2.c:250-280 | Whether the flag is one of the line's space-separated tokens |
| Cmdline.KvScan | kernel/bootinfo/multiboot2.c:282-324 | The value of the first token with the prefix key=, cut to the room there is, or no token has it |
| Cmdline.StepKeeps | kernel/bootinfo/multiboot2.c:211-248 | Every load, compare-and-swap and store of a lookup or of putting an answer away keeps the table's invariant while no null question is asked, and slots only fill |
| Cmdline.RunsKeepInv | kernel/bootinfo/multiboot2.c:211-248 | So does every interleaving of any number of tasks |
| Cmdline.AnswersAgree | kernel/bootinfo/multiboot2.c:211-356 | Whatever the interleaving, every finished question has the fresh scan's answer, for flags if no null question is asked |
| Cmdline.RunsGrow | kernel/bootinfo/multiboot2.c:231-248 | Over a run a key stays once set, and so do a ready flag and its answer |
| Cmdline.MemoAgrees | kernel/bootinfo/multiboot2.c:211-248 | A ready slot holds its key's scan result, and a key has one slot at most |
| Cmdline.MemoGet | kernel/bootinfo/multiboot2.c:211-229 | Its loads, each on the table as it is by then, come to what Lookup says |
| Cmdline.LookupRight | kernel/bootinfo/multiboot2.c:211-229 | An answer found is the scan's however the table moved between the loads, and what was ready within reach at the first load is found |
| Cmdline.LookupAbsent | kernel/bootinfo/multiboot2.c:211-229 | On a table of absences, finding an answer means the key is not on the line |
| Cmdline.RunSeen | kernel/bootinfo/multiboot2.c:211-248 | Any moments of a run, in order, are what the loads of a lookup may find |
| Cmdline.RunSeenAbsent | kernel/bootinfo/multiboot2.c:211-248 | The same for a table of absences, null questions included |
| Cmdline.HasFlag | kernel/bootinfo/multiboot2.c:326-334 | From a table that moves between the loads or by a scan, the answer is the fresh scan's, for every key but null |
| Cmdline.AbsencesKept | kernel/bootinfo/multiboot2.c:336-356 | In every state of every run of lookups, null ones included, the table of absences says of no key that it is on the line |
| Cmdline.GetKv | kernel/bootinfo/multiboot2.c:336-356 | The value a fresh scan finds, or an empty one for a key that is not on the line, null included, while the table moves |
| CmdlineNull.AgreeIff | kernel/bootinfo/multiboot2.c:211-356 | Every question is always answered as a scan answers it exactly for bootinfo_get_kv, and for bootinfo_has_flag exactly as long as no null question is asked |
| CmdlineNull.NullMisleads | kernel/bootinfo/multiboot2.c:231-248 | After one null question any flag on the line that shares null's first slot can be answered as absent |

## Left out

- Helper bodies, maps' own hash tables, perf events, stack walks and `bpf_cmd`: a helper is any effect its prototype allows, map values are memory at addresses of the map.
- Allocation failure, error texts and the log buffer of the verifier and the BTF checker.
- JitTheorem.CompiledMeansInterpreted: one run without interference in shared memory; helpers are a function of the calls made and of the memory both sides see, and the interpreter has its frame where the compiled code has it.
- JitTheorem.CompiledMeansInterpreted: caches, faults and page protection of the processor are not modelled, and only the instructions the translator emits are.
- JitCompile.Jit.Emit: the emitters are one method over the encoding function rather than one method each.
- JitCompile.Compile: what stands behind the last instruction is a parameter, for a wide load in the last slot, which the verifier refuses and the translator would read past.
- The verifier's functions for single instructions return the new state where the C code updates it in place; the loops round them are methods.
- CacheProtocol.StepKeeps: read-ahead and evictions that lose data are not steps here; they are steps of CacheAhead, on top of these.
- CacheAhead.CurrentIff: a block lost by a failed eviction between its read and its publication is not decided either way.
- CacheSerial.ReadBlock: how far to read ahead and how long a run may be are arbitrary, not the adaptive sizes of the source.
- CacheFlush.Flush: one task at a time, so no slot is busy elsewhere and the wait for such slots is left out, as are the paths without memory for the set or the bounce buffer.
- CacheDisk.Serve: devices accept every command, have 512-byte blocks and the pool has at least one slot; other block sizes go past the cache.
- Write throttling (`bcache_flush_some`), last-used stamps, statistics, `bcache_drop_range`, write-zeroes, discard, `blk_cache_invalidate_range` and the raw paths of device nodes.
- IoGate.StepKeeps: the gate of one device, its sections as steps on a value; tasks are numbers and ticks are given.
- Iommu.Unit.Map: the unit is taken to be enabled; invalidation commands, device-table entries and several units; table pages come from a list of free frames, and addresses from 2^48 up alias as the indices make them.
- Ring.RingBuf.Reserve: one step for each operation; RingSteps has the stores one by one. In both, positions are unbounded, so they do not wrap at 2^64, stores become visible in the order written, and record bytes, the page-offset word and wake-ups are not modelled.
- AmlFields.ReadField: plain memory only; port space, refused spaces, index and bank fields are not modelled, and a region is its bits.
- Gpe.StepKeeps: the handler and kacpid are steps on a value, one instance of each; fixed events, resume, and enabling, disabling or clearing an event through sysfs are not steps.
- Cmdline.StepKeeps: tasks are steps on a value; an answer and its ready flag become visible in the order written, and the line does not change.
- Booting, drivers for sound, storage, graphics and the BCM2835, ACPI table discovery and the AML evaluator: they would add easy members or hardware detail.
