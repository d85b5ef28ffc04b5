/** The instruction vocabulary the exit compiler emits and the append-only
    assembler it emits into. Machine encodings, register numbers and the
    byte offsets of control-frame fields are abstract here. */
module Asm {

  /** Registers the exit compiler names. SP, EC and CFP are the callee-saved
      registers that compiled code uses for the interpreter's stack pointer,
      execution context and control frame; RAX is the call-result register;
      RDI, ESI and EDX carry the first three call arguments. */
  datatype Reg = SP | EC | CFP | RAX | RDI | ESI | EDX

  /** Fields of the interpreter's control frame that an exit can store to. */
  datatype FrameField = PcField | SpField

  /** Runtime entry points a stub trampoline calls. */
  datatype Target = BlockStubHit | BranchStubHit

  /** What an annotation is about. The rendered text (labels, paths) is not
      modelled; what each annotation depends on is. */
  datatype Note =
    | EntryExitNote(cause: string)
    | ExitToInterpreterNote(insnName: string)
    | IncrInsnExitNote(insnName: string)
    | SavePcNote(andSp: bool)
    | BlockStubNote(line: int)
    | BranchStubNote(line: int)

  datatype Instr =
    | Comment(note: Note)
    | Push(reg: Reg)
    | Pop(reg: Reg)
    /** mov dst, imm */
    | MovImm(dst: Reg, imm: int)
    /** mov [base + offsetof(field)], src */
    | MovMem(base: Reg, field: FrameField, src: Reg)
    /** add dst, imm */
    | AddImm(dst: Reg, imm: int)
    /** add qword [addr], imm */
    | AddMem(addr: Reg, imm: int)
    | Call(target: Target)
    | JmpReg(reg: Reg)
    | Ret

  /** Does executing `i` overwrite register `r`? A call leaves its result in RAX. */
  predicate Writes(i: Instr, r: Reg) {
    match i
    case Pop(d) => d == r
    case MovImm(d, _) => d == r
    case AddImm(d, _) => d == r
    case Call(_) => r == RAX
    case _ => false
  }

  predicate WritesAny(code: seq<Instr>, r: Reg) {
    exists k :: 0 <= k < |code| && Writes(code[k], r)
  }

  /** Does `code` store to control-frame field `f`? */
  predicate StoresField(code: seq<Instr>, f: FrameField) {
    exists k :: 0 <= k < |code| && code[k].MovMem? && code[k].field == f
  }

  /** `code` without its annotations: the instructions that have an effect. */
  function Strip(code: seq<Instr>): (r: seq<Instr>)
    ensures |r| <= |code|
    ensures forall k :: 0 <= k < |r| ==> !r[k].Comment?
  {
    if code == [] then []
    else (if code[0].Comment? then [] else [code[0]]) + Strip(code[1..])
  }

  lemma {:induction false} StripAppend(a: seq<Instr>, b: seq<Instr>)
    ensures Strip(a + b) == Strip(a) + Strip(b)
  {
    if a == [] {
      assert a + b == b;
    } else {
      assert (a + b)[0] == a[0];
      assert (a + b)[1..] == a[1..] + b;
      StripAppend(a[1..], b);
    }
  }

  /** The entry points `code` calls, in order. */
  function CallTargets(code: seq<Instr>): (r: seq<Target>)
    ensures |r| <= |code|
    ensures forall t :: t in r <==> Call(t) in code
  {
    if code == [] then []
    else (if code[0].Call? then [code[0].target] else []) + CallTargets(code[1..])
  }

  /** The code generator's instruction buffer: it only ever grows at the end. */
  class Assembler {
    var insns: seq<Instr>

    constructor ()
      ensures insns == []
    {
      insns := [];
    }

    method Comment(note: Note)
      modifies this
      ensures insns == old(insns) + [Instr.Comment(note)]
    {
      insns := insns + [Instr.Comment(note)];
    }

    method Pop(r: Reg)
      modifies this
      ensures insns == old(insns) + [Instr.Pop(r)]
    {
      insns := insns + [Instr.Pop(r)];
    }

    method Mov(dst: Reg, imm: int)
      modifies this
      ensures insns == old(insns) + [MovImm(dst, imm)]
    {
      insns := insns + [MovImm(dst, imm)];
    }

    method MovToFrame(base: Reg, field: FrameField, src: Reg)
      modifies this
      ensures insns == old(insns) + [MovMem(base, field, src)]
    {
      insns := insns + [MovMem(base, field, src)];
    }

    method Add(dst: Reg, imm: int)
      modifies this
      ensures insns == old(insns) + [AddImm(dst, imm)]
    {
      insns := insns + [AddImm(dst, imm)];
    }

    method AddToMem(addr: Reg, imm: int)
      modifies this
      ensures insns == old(insns) + [AddMem(addr, imm)]
    {
      insns := insns + [AddMem(addr, imm)];
    }

    method Call(target: Target)
      modifies this
      ensures insns == old(insns) + [Instr.Call(target)]
    {
      insns := insns + [Instr.Call(target)];
    }

    method Jmp(r: Reg)
      modifies this
      ensures insns == old(insns) + [JmpReg(r)]
    {
      insns := insns + [JmpReg(r)];
    }

    method Ret()
      modifies this
      ensures insns == old(insns) + [Instr.Ret]
    {
      insns := insns + [Instr.Ret];
    }
  }
}
