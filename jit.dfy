/** The exit compiler's collaborators: the compile-time context, the JIT
    state, stub descriptors and the values the virtual machine supplies. */
module Jit {

  /** Size in bytes of one VALUE, the interpreter's stack slot. */
  const ValueSize: int := 8

  /** A decoded bytecode instruction: its name and its opcode number. */
  datatype Insn = Insn(name: string, bin: nat)

  /** An instruction sequence, identified here by the address of its first
      encoded instruction (iseq.body.iseq_encoded). Its label and path only
      appear in annotations. */
  datatype Iseq = Iseq(encoded: int)

  /** A not-yet-compiled continuation: a block stub targets one program
      counter, a branch stub one of two successors. `id` is the stub
      object's identity: two stubs for the same target are still two
      objects, with two addresses and two pin-list entries. */
  datatype Stub =
    | BlockStub(id: nat, iseq: Iseq, pc: int)
    | BranchStub(id: nat, iseq: Iseq, branchTargetPc: int, fallthroughPc: int)

  /** The state of the compilation in progress; only its program counter is read here. */
  datatype JitState = JitState(pc: int)

  /** Values and foreign functions of the running virtual machine, passed in
      explicitly: the stats option, the Qundef sentinel, the base address of
      the per-instruction exit counters, the bytecode decoder, the address of
      a stub object as a VALUE, and the line-number lookup of an instruction
      sequence. */
  datatype Vm = Vm(
    stats: bool,
    qundef: int,
    insnExits: int,
    decodeInsn: int -> Insn,
    toValue: Stub -> int,
    lineNo: (Iseq, int) -> int)

  /** The compile-time context of a basic block. `spOffset` is how many
      stack slots the native stack pointer is ahead of the control frame's
      recorded one. */
  class Context {
    var spOffset: int

    constructor (spOffset: int)
      ensures this.spOffset == spOffset
    {
      this.spOffset := spOffset;
    }

    /** An independent copy, so that changing it leaves this context alone. */
    method Dup() returns (copy: Context)
      ensures fresh(copy) && copy.spOffset == spOffset
    {
      copy := new Context(spOffset);
    }
  }
}
