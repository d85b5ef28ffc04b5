# MJIT exit compiler, modelled in Dafny

This project models `RubyVM::MJIT::ExitCompiler`, the part of Ruby's MJIT
compiler that emits the code which hands control from JIT-compiled code back
to the interpreter, and the trampolines that call back into the compiler for
a block or branch that has not been compiled yet.

- **Entry exit**: pop the callee-saved registers SP, EC, CFP, load `Qundef`
  into `rax`, `ret`.
- **Leave exit**: pop the same registers and `ret`, leaving `rax` (the method's
  return value) alone.
- **Side exit**: optionally bump the per-instruction exit counter, write the
  pc (and, when the compile-time context is out of sync, the stack pointer)
  into the control frame, then end like the entry exit. The caller's context
  is not changed: only a copy is synchronized.
- **Block and branch stubs**: load the stub's address, the stack offset and,
  for branches, which successor is meant into `rdi`/`esi`/`edx`, call the
  runtime resolver, `jmp rax`.

Files:

- `asm.dfy` (module `Asm`): the instruction vocabulary (`Instr`), the
  annotations (`Note`), and `Assembler`, a class whose `insns: seq<Instr>` is
  only ever appended to.
- `jit.dfy` (module `Jit`): the collaborators: `Context` (a class with a
  mutable `spOffset`, and `Dup`), `JitState`, `Stub` (with an `id` for the
  stub object's identity), `Iseq`, `Insn`, and
  `Vm`, the values the running VM supplies (stats flag, `Qundef`, the exit
  counter base, the decoder, `to_value`, the line-number lookup).
- `exit_compiler.dfy` (module `Exits`): one function per emitted sequence
  (`EntryExitCode`, `LeaveExitCode`, `SideExitCode`, `SavePcAndSpCode`,
  `IncrInsnExitCode`, `BlockStubCode`, `BranchStubCode`) and the class
  `ExitCompiler`, whose methods append exactly that sequence to the
  assembler and keep the `gcRefs` pin list.
- `machine.dfy` (module `Machine`): an abstract machine that runs
  instructions (registers, native stack, counter memory, and the `pc`/`sp`
  fields of the control frame) and the lemma that running `a + b` is running
  `a` then `b`.
- `exit_shape.dfy` (module `ExitShape`): what the emitted sequences look like.
- `exit_semantics.dfy` (module `ExitSemantics`): what they do when run.

Values owned by the VM (`Qundef`, `C.mjit_insn_exits`, `C.to_value`,
`Compiler.decode_insn`, `C.rb_iseq_line_no`, `C.mjit_opts.stats`) are fields
of the `Vm` parameter; the resolvers `rb_mjit_block_stub_hit` and
`rb_mjit_branch_stub_hit` are fields of the machine's `Runtime` parameter.

## Model

| member | source | states |
|---|---|---|
| `Exits.ExitCompiler.constructor` | lib/ruby_vm/mjit/exit_compiler.rb:3-6 | a new compiler has pinned nothing |
| `Exits.ExitCompiler.CompileEntryExit` | lib/ruby_vm/mjit/exit_compiler.rb:11-25 | appends the entry-exit sequence after the existing instructions, which stay as they were |
| `Exits.ExitCompiler.CompileLeaveExit` | lib/ruby_vm/mjit/exit_compiler.rb:28-36 | appends the leave-exit sequence; earlier instructions are a prefix of the result |
| `Exits.ExitCompiler.CompileSideExit` | lib/ruby_vm/mjit/exit_compiler.rb:41-56 | appends the side-exit sequence for the context's current offset, and the caller's context keeps its `spOffset` (only a copy is synchronized) |
| `Exits.ExitCompiler.CompileBlockStub` | lib/ruby_vm/mjit/exit_compiler.rb:61-70 | appends the block trampoline for the context's offset and pins exactly the stub, after the earlier pins |
| `Exits.ExitCompiler.CompileBranchStub` | lib/ruby_vm/mjit/exit_compiler.rb:77-87 | appends the branch trampoline for the offset and chosen successor and pins exactly the stub |
| `Exits.ExitCompiler.IncrInsnExit` | lib/ruby_vm/mjit/exit_compiler.rb:97-104 | appends the counter increment, which is empty when stats are off |
| `Exits.ExitCompiler.SavePcAndSp` | lib/ruby_vm/mjit/exit_compiler.rb:109-121 | appends the pc (and, for a non-zero offset, sp) stores for the offset it was given, and leaves the given context with offset 0 in both cases |
| `Exits.ExitCompiler.ToValue` | lib/ruby_vm/mjit/exit_compiler.rb:123-126 | appends the object to the pin list, earlier pins unchanged, and returns its VM address |
| `Jit.Context.Dup` | lib/ruby_vm/mjit/exit_compiler.rb:46 | the copy is a new object with the same offset, so changing it cannot change the original |
| `Exits.InsnIndex` | lib/ruby_vm/mjit/exit_compiler.rb:128-130 | the index k of a pc satisfies 8k <= pc - start < 8k + 8 (floor division by the VALUE size) |
| `ExitShape.IncrInsnExitShape` | lib/ruby_vm/mjit/exit_compiler.rb:97-104 | nothing without stats; with stats exactly `mov rax, insn_exits + insn.bin; add [rax], 1` (annotation aside); never touches SP, EC, CFP or the frame |
| `ExitShape.EntryExitShape` | lib/ruby_vm/mjit/exit_compiler.rb:11-24 | ends with pop SP, pop EC, pop CFP, `mov rax, Qundef`, `ret`; has no earlier `ret`; never stores cfp->pc or cfp->sp |
| `ExitShape.LeaveExitShape` | lib/ruby_vm/mjit/exit_compiler.rb:28-36 | is exactly pop SP, pop EC, pop CFP, `ret`; never writes `rax`; stores nothing to the frame |
| `ExitShape.SavePcAndSpShape` | lib/ruby_vm/mjit/exit_compiler.rb:109-121 | always starts with `mov rax, pc; mov [cfp->pc], rax`; for a non-zero offset continues with exactly `add SP, 8*offset; mov [cfp->sp], SP`, and otherwise adjusts and stores no sp at all; the annotation records which |
| `ExitShape.SavePcAndSpTwice` | lib/ruby_vm/mjit/exit_compiler.rb:112-120 | a second call on the synchronized context emits only the pc store, a strict prefix of the first call's effective instructions when that call stored sp |
| `ExitShape.SideExitShape` | lib/ruby_vm/mjit/exit_compiler.rb:41-56 | stores cfp->pc always and cfp->sp exactly when the offset is non-zero, all before the pops; ends with pop SP, EC, CFP, `mov rax, Qundef`, `ret` and returns nowhere earlier |
| `ExitShape.BlockStubShape` | lib/ruby_vm/mjit/exit_compiler.rb:61-70 | annotation with the stub's line first; stub address in `rdi` and offset in `esi` before exactly one call, to the block resolver, second to last; `jmp rax` last; no `ret` |
| `ExitShape.BranchStubShape` | lib/ruby_vm/mjit/exit_compiler.rb:77-87 | as the block stub, plus `edx` = 1 for the branch target and 0 for the fall-through; the one call goes to the branch resolver; the annotation names the chosen successor's line |
| `ExitSemantics.RestoreRegsRuns` | lib/ruby_vm/mjit/exit_compiler.rb:19-21 | the pops load SP, EC, CFP from the top three stack slots in that order and change nothing else; they fault on a stack with fewer than three slots |
| `ExitSemantics.SaveThenRestore` | lib/ruby_vm/mjit/exit_compiler.rb:17-21 | the restore order is the reverse of the save order: saving then restoring gives back every register and the stack |
| `ExitSemantics.IncrInsnExitRuns` | lib/ruby_vm/mjit/exit_compiler.rb:97-104 | run with stats on, adds exactly 1 to the instruction's counter and to no other; with stats off changes nothing; only `rax` among registers can change |
| `ExitSemantics.SavePcAndSpRuns` | lib/ruby_vm/mjit/exit_compiler.rb:109-121 | run, leaves cfp->pc = pc; cfp->sp and SP = SP + 8*offset when the offset is non-zero, both untouched otherwise |
| `ExitSemantics.SavePcAndSpIdempotent` | lib/ruby_vm/mjit/exit_compiler.rb:109-121 | running the second call's code after the first's gives the same machine state as the first alone |
| `ExitSemantics.UndefTailRuns` | lib/ruby_vm/mjit/exit_compiler.rb:50-55 | the shared tail returns with the registers restored and `Qundef` in `rax`, or faults on a short stack |
| `ExitSemantics.EntryExitRuns` | lib/ruby_vm/mjit/exit_compiler.rb:11-25 | returns with `Qundef` in `rax`, SP/EC/CFP from the stack, cfp->pc and cfp->sp unchanged, only the exit counter bumped; faults exactly when fewer than three saved slots are on the stack |
| `ExitSemantics.LeaveExitRuns` | lib/ruby_vm/mjit/exit_compiler.rb:28-36 | returns with `rax` as it was, SP/EC/CFP from the stack, frame and counters unchanged |
| `ExitSemantics.SideExitRuns` | lib/ruby_vm/mjit/exit_compiler.rb:41-56 | returns to the interpreter with cfp->pc = jit.pc, cfp->sp = SP + 8*offset when the offset is non-zero (unchanged otherwise), `Qundef` in `rax`, SP/EC/CFP from the stack, only the exit counter bumped |
| `ExitSemantics.BlockStubRuns` | lib/ruby_vm/mjit/exit_compiler.rb:61-70 | jumps to whatever `rb_mjit_block_stub_hit(to_value(stub), sp_offset)` returns; stack, frame and counters unchanged |
| `ExitSemantics.BranchStubRuns` | lib/ruby_vm/mjit/exit_compiler.rb:77-87 | jumps to whatever `rb_mjit_branch_stub_hit(to_value(stub), sp_offset, target ? 1 : 0)` returns; stack, frame and counters unchanged |

`Exits.PcToInsn` (line 91-93) and `Exits.IseqLineno` (line 128-130) only
forward to VM functions and have no contract of their own; `InsnIndex`
carries what `iseq_lineno` computes itself.

## Left out

- Machine encoding of instructions, register numbers, and the numeric values
  of `Qundef`, `C.mjit_insn_exits` and the control-frame field offsets: these
  are abstract values or symbolic fields.
- Annotation text: each `asm.comment` is one `Comment` instruction whose
  `Note` keeps the cause, the instruction name, the "and SP" flag or the line
  number, but not the iseq label or path.
- `Compiler.decode_insn`, `C.to_value` and `C.rb_iseq_line_no` are foreign
  calls; they are fields of `Vm`. `C.rb_iseq_path` feeds only the
  annotation text and is dropped together with the iseq label.
- `C.mjit_insn_exits + insn.bin` is modelled as integer addition; the
  pointer arithmetic of the foreign type is not part of this model.
- Register widths: `mov esi, sp_offset` and `mov edx, ...` write 32-bit
  registers and `add` works modulo 2^64; the machine keeps unbounded integers.
- The non-atomic counter increment (the `TODO: lock`) and everything about
  how the emitted code runs concurrently on other threads.
- GC behaviour behind `@gc_refs`: only the append to the pin list is
  modelled, not pinning or relocation.
- The prologue that saves the callee-saved registers is not part of this
  model; `SaveRegs` states its order only as the convention the restore
  order is checked against.
- The abstract machine: a `call` only sets `rax` (other caller-saved
  registers are not clobbered), `ret` does not pop a return address, the
  exit counters and the control frame are disjoint memory, and a store
  through any base other than CFP faults.
- `Context` has only `sp_offset`; its other fields are not read here.
- The `jit` argument of `compile_branch_stub` is accepted and unused, as in
  the source.
