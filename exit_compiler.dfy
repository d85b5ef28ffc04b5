/** RubyVM::MJIT::ExitCompiler: emits the code that leaves compiled code for
    the interpreter (entry, leave and side exits) and the trampolines that
    call back into the compiler for a block or branch not compiled yet.

    Each `...Code` function is the exact instruction sequence an operation
    appends; the methods of `ExitCompiler` append it, and the modules
    ExitShape and ExitSemantics prove what these sequences promise. */
module Exits {
  import opened Asm
  import opened Jit

  /** Restore the callee-saved registers: the last one the prologue saved first. */
  function RestoreRegs(): seq<Instr> {
    [Pop(SP), Pop(EC), Pop(CFP)]
  }

  /** How every exit that reports "no value" ends: restore the registers,
      load Qundef into RAX, return. */
  function UndefTail(vm: Vm): seq<Instr> {
    RestoreRegs() + [MovImm(RAX, vm.qundef), Ret]
  }

  /** The calling convention's save order, the mirror image of RestoreRegs.
      The prologue that uses it is not part of this model. */
  function SaveRegs(): seq<Instr> {
    [Push(CFP), Push(EC), Push(SP)]
  }

  /** pc_to_insn: the bytecode instruction at `pc`, as the VM decodes it. */
  function PcToInsn(vm: Vm, pc: int): Insn {
    vm.decodeInsn(pc)
  }

  /** Address of the exit counter of the instruction at `pc`. */
  function CounterSlot(vm: Vm, pc: int): int {
    vm.insnExits + PcToInsn(vm, pc).bin
  }

  /** incr_insn_exit: bump the instruction's exit counter when stats are on. */
  function IncrInsnExitCode(vm: Vm, pc: int): seq<Instr> {
    if vm.stats then
      [Comment(IncrInsnExitNote(PcToInsn(vm, pc).name)),
       MovImm(RAX, CounterSlot(vm, pc)),
       AddMem(RAX, 1)]
    else []
  }

  /** save_pc_and_sp: always record `pc` in the control frame; record the
      adjusted stack pointer only when the context is not synchronized. */
  function SavePcAndSpCode(pc: int, spOffset: int): seq<Instr> {
    [Comment(SavePcNote(spOffset != 0)),
     MovImm(RAX, pc),
     MovMem(CFP, PcField, RAX)] +
    (if spOffset != 0 then [AddImm(SP, ValueSize * spOffset), MovMem(CFP, SpField, SP)] else [])
  }

  /** compile_entry_exit */
  function EntryExitCode(vm: Vm, pc: int, cause: string): seq<Instr> {
    IncrInsnExitCode(vm, pc) +
    [Comment(EntryExitNote(cause))] +
    UndefTail(vm)
  }

  /** compile_leave_exit */
  function LeaveExitCode(): seq<Instr> {
    RestoreRegs() + [Ret]
  }

  /** compile_side_exit, for a context whose offset is `spOffset` */
  function SideExitCode(vm: Vm, pc: int, spOffset: int): seq<Instr> {
    IncrInsnExitCode(vm, pc) +
    SavePcAndSpCode(pc, spOffset) +
    [Comment(ExitToInterpreterNote(PcToInsn(vm, pc).name))] +
    UndefTail(vm)
  }

  /** The instruction index of `pc` within `iseq`. Ruby's `/` floors and
      Dafny's `/` by a positive divisor does too. */
  function InsnIndex(iseq: Iseq, pc: int): (k: int)
    ensures ValueSize * k <= pc - iseq.encoded < ValueSize * k + ValueSize
  {
    (pc - iseq.encoded) / ValueSize
  }

  /** iseq_lineno: the source line of the instruction at `pc`. */
  function IseqLineno(vm: Vm, iseq: Iseq, pc: int): int {
    vm.lineNo(iseq, InsnIndex(iseq, pc))
  }

  /** The successor a branch stub resolves. */
  function BranchPc(stub: Stub, branchTargetP: bool): int
    requires stub.BranchStub?
  {
    if branchTargetP then stub.branchTargetPc else stub.fallthroughPc
  }

  /** compile_block_stub, for a context whose offset is `spOffset` */
  function BlockStubCode(vm: Vm, stub: Stub, spOffset: int): seq<Instr>
    requires stub.BlockStub?
  {
    [Comment(BlockStubNote(IseqLineno(vm, stub.iseq, stub.pc))),
     MovImm(RDI, vm.toValue(stub)),
     MovImm(ESI, spOffset),
     Call(BlockStubHit),
     JmpReg(RAX)]
  }

  /** compile_branch_stub, for a context whose offset is `spOffset` */
  function BranchStubCode(vm: Vm, stub: Stub, spOffset: int, branchTargetP: bool): seq<Instr>
    requires stub.BranchStub?
  {
    [Comment(BranchStubNote(IseqLineno(vm, stub.iseq, BranchPc(stub, branchTargetP)))),
     MovImm(RDI, vm.toValue(stub)),
     MovImm(ESI, spOffset),
     MovImm(EDX, if branchTargetP then 1 else 0),
     Call(BranchStubHit),
     JmpReg(RAX)]
  }

  class ExitCompiler {
    /** Every object whose address has been embedded in emitted code. */
    var gcRefs: seq<Stub>

    constructor ()
      ensures gcRefs == []
    {
      gcRefs := [];
    }

    /** Used for invalidating a block on entry. */
    method CompileEntryExit(vm: Vm, pc: int, asm: Assembler, cause: string)
      modifies asm
      ensures asm.insns == old(asm.insns) + EntryExitCode(vm, pc, cause)
    {
      IncrInsnExit(vm, pc, asm);
      asm.Comment(EntryExitNote(cause));
      asm.Pop(SP);
      asm.Pop(EC);
      asm.Pop(CFP);
      asm.Mov(RAX, vm.qundef);
      asm.Ret();
    }

    method CompileLeaveExit(asm: Assembler)
      modifies asm
      ensures asm.insns == old(asm.insns) + LeaveExitCode()
    {
      asm.Pop(SP);
      asm.Pop(EC);
      asm.Pop(CFP);
      // RAX already holds the return value
      asm.Ret();
    }

    /** Leaves the caller's context as it was: only a copy is synchronized. */
    method CompileSideExit(vm: Vm, jit: JitState, ctx: Context, asm: Assembler)
      modifies asm
      ensures asm.insns == old(asm.insns) + SideExitCode(vm, jit.pc, ctx.spOffset)
      ensures ctx.spOffset == old(ctx.spOffset)
    {
      IncrInsnExit(vm, jit.pc, asm);
      var copy := ctx.Dup();
      SavePcAndSp(jit, copy, asm);
      asm.Comment(ExitToInterpreterNote(PcToInsn(vm, jit.pc).name));
      asm.Pop(SP);
      asm.Pop(EC);
      asm.Pop(CFP);
      asm.Mov(RAX, vm.qundef);
      asm.Ret();
    }

    method CompileBlockStub(vm: Vm, ctx: Context, asm: Assembler, stub: Stub)
      requires stub.BlockStub?
      modifies this, asm
      ensures asm.insns == old(asm.insns) + BlockStubCode(vm, stub, ctx.spOffset)
      ensures gcRefs == old(gcRefs) + [stub]
    {
      asm.Comment(BlockStubNote(IseqLineno(vm, stub.iseq, stub.pc)));
      var v := ToValue(vm, stub);
      asm.Mov(RDI, v);
      asm.Mov(ESI, ctx.spOffset);
      asm.Call(BlockStubHit);
      asm.Jmp(RAX);
    }

    method CompileBranchStub(vm: Vm, jit: JitState, ctx: Context, asm: Assembler, stub: Stub, branchTargetP: bool)
      requires stub.BranchStub?
      modifies this, asm
      ensures asm.insns == old(asm.insns) + BranchStubCode(vm, stub, ctx.spOffset, branchTargetP)
      ensures gcRefs == old(gcRefs) + [stub]
    {
      asm.Comment(BranchStubNote(IseqLineno(vm, stub.iseq, BranchPc(stub, branchTargetP))));
      var v := ToValue(vm, stub);
      asm.Mov(RDI, v);
      asm.Mov(ESI, ctx.spOffset);
      asm.Mov(EDX, if branchTargetP then 1 else 0);
      asm.Call(BranchStubHit);
      asm.Jmp(RAX);
    }

    method IncrInsnExit(vm: Vm, pc: int, asm: Assembler)
      modifies asm
      ensures asm.insns == old(asm.insns) + IncrInsnExitCode(vm, pc)
    {
      if vm.stats {
        var insn := PcToInsn(vm, pc);
        asm.Comment(IncrInsnExitNote(insn.name));
        asm.Mov(RAX, vm.insnExits + insn.bin);
        asm.AddToMem(RAX, 1);
      }
    }

    /** Synchronizes `ctx`: afterwards its offset is zero. */
    method SavePcAndSp(jit: JitState, ctx: Context, asm: Assembler)
      modifies ctx, asm
      ensures asm.insns == old(asm.insns) + SavePcAndSpCode(jit.pc, old(ctx.spOffset))
      ensures ctx.spOffset == 0
    {
      asm.Comment(SavePcNote(ctx.spOffset != 0));
      asm.Mov(RAX, jit.pc);
      asm.MovToFrame(CFP, PcField, RAX);
      if ctx.spOffset != 0 {
        asm.Add(SP, ValueSize * ctx.spOffset);
        asm.MovToFrame(CFP, SpField, SP);
        ctx.spOffset := 0;
      }
    }

    /** Pin `obj` for as long as the emitted code refers to it, and give its address. */
    method ToValue(vm: Vm, obj: Stub) returns (v: int)
      modifies this
      ensures gcRefs == old(gcRefs) + [obj]
      ensures v == vm.toValue(obj)
    {
      gcRefs := gcRefs + [obj];
      v := vm.toValue(obj);
    }
  }
}
