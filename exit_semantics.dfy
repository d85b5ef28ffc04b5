/** What the emitted code does when it runs: proved on the abstract machine
    of module Machine. These are the behavioural promises of the exits
    (what the interpreter finds in the control frame and the registers when
    it takes over) and of the trampolines (which resolver they call, with
    which arguments, and where they go next). */
module ExitSemantics {
  import opened Asm
  import opened Jit
  import opened Machine
  import opened Exits

  /** The state after the three callee-saved registers are popped. */
  function Restored(s: State): State
    requires |s.stack| >= 3
  {
    s.Set(SP, s.stack[0]).Set(EC, s.stack[1]).Set(CFP, s.stack[2]).(stack := s.stack[3..])
  }

  /** The exit counters after incr_insn_exit's code has run. */
  function CountedExit(vm: Vm, pc: int, counters: map<int, int>): map<int, int> {
    var slot := CounterSlot(vm, pc);
    if vm.stats then counters[slot := (if slot in counters then counters[slot] else 0) + 1]
    else counters
  }

  /** The native stack pointer the interpreter must see: SP moved ahead by
      `spOffset` slots. */
  function AdjustedSp(s: State, spOffset: int): int {
    s.Get(SP) + ValueSize * spOffset
  }

  /** The state after save_pc_and_sp's code has run. */
  function Saved(s: State, pc: int, spOffset: int): State {
    var t := s.Set(RAX, pc).(cfpPc := pc);
    if spOffset != 0 then t.Set(SP, AdjustedSp(s, spOffset)).(cfpSp := AdjustedSp(s, spOffset)) else t
  }

  /** Popping SP, EC and CFP takes them from the top three stack slots in
      that order and changes nothing else; with fewer than three slots it faults. */
  lemma RestoreRegsRuns(rt: Runtime, s: State)
    ensures |s.stack| < 3 ==> Exec(rt, s, RestoreRegs()) == Fault
    ensures |s.stack| >= 3 ==> Exec(rt, s, RestoreRegs()) == Running(Restored(s))
  {
  }

  /** The restore order is the exact reverse of the save order: saving and
      then restoring gives every register and the stack back unchanged. */
  lemma SaveThenRestore(rt: Runtime, s: State)
    ensures var o := Exec(rt, s, SaveRegs() + RestoreRegs());
      o.Running? &&
      (forall r :: o.state.Get(r) == s.Get(r)) &&
      o.state.stack == s.stack &&
      o.state.counters == s.counters &&
      o.state.cfpPc == s.cfpPc && o.state.cfpSp == s.cfpSp
  {
    var s1 := s.(stack := [s.Get(CFP)] + s.stack);
    var s2 := s1.(stack := [s.Get(EC)] + s1.stack);
    var s3 := s2.(stack := [s.Get(SP)] + s2.stack);
    ExecCons(rt, s, Push(CFP), [Push(EC), Push(SP)]);
    ExecCons(rt, s1, Push(EC), [Push(SP)]);
    ExecCons(rt, s2, Push(SP), []);
    assert Exec(rt, s, SaveRegs()) == Running(s3);
    ExecAppend(rt, s, SaveRegs(), RestoreRegs());
    RestoreRegsRuns(rt, s3);
    assert s3.stack[3..] == s.stack;
  }

  /** incr_insn_exit's code adds exactly one to the counter of the
      instruction at `pc` when stats are on, and otherwise does nothing; it
      touches no other counter and no register but RAX. */
  lemma IncrInsnExitRuns(rt: Runtime, vm: Vm, pc: int, s: State)
    ensures var o := Exec(rt, s, IncrInsnExitCode(vm, pc));
      o.Running? &&
      o.state.counters == CountedExit(vm, pc, s.counters) &&
      (vm.stats ==> o.state.counters[CounterSlot(vm, pc)] == s.Counter(CounterSlot(vm, pc)) + 1) &&
      (forall a :: a != CounterSlot(vm, pc) ==> o.state.Counter(a) == s.Counter(a)) &&
      (forall r :: r != RAX ==> o.state.Get(r) == s.Get(r)) &&
      (!vm.stats ==> o.state == s) &&
      o.state.stack == s.stack && o.state.cfpPc == s.cfpPc && o.state.cfpSp == s.cfpSp
  {
    if vm.stats {
      var c := IncrInsnExitCode(vm, pc);
      var slot := CounterSlot(vm, pc);
      var s1 := s.Set(RAX, slot);
      assert c[0..] == c;
      ExecFrom(rt, s, c, 0);
      ExecFrom(rt, s, c, 1);
      ExecFrom(rt, s1, c, 2);
    }
  }

  /** save_pc_and_sp's code leaves the frame holding `pc` and, when the
      offset is non-zero, the stack pointer advanced by that many slots
      (in SP and in cfp->sp alike); with a zero offset cfp->sp and SP are
      untouched. Only RAX and SP among the registers can change. */
  lemma SavePcAndSpRuns(rt: Runtime, pc: int, spOffset: int, s: State)
    ensures var o := Exec(rt, s, SavePcAndSpCode(pc, spOffset));
      o == Running(Saved(s, pc, spOffset)) &&
      o.state.cfpPc == pc &&
      o.state.cfpSp == (if spOffset != 0 then AdjustedSp(s, spOffset) else s.cfpSp) &&
      o.state.Get(SP) == (if spOffset != 0 then AdjustedSp(s, spOffset) else s.Get(SP)) &&
      (forall r :: r != RAX && r != SP ==> o.state.Get(r) == s.Get(r)) &&
      o.state.stack == s.stack && o.state.counters == s.counters
  {
    var c := SavePcAndSpCode(pc, spOffset);
    var s1 := s.Set(RAX, pc);
    var s2 := s1.(cfpPc := pc);
    assert c[0..] == c;
    ExecFrom(rt, s, c, 0);
    ExecFrom(rt, s, c, 1);
    ExecFrom(rt, s1, c, 2);
    if spOffset != 0 {
      var s3 := s2.Set(SP, AdjustedSp(s, spOffset));
      ExecFrom(rt, s2, c, 3);
      ExecFrom(rt, s3, c, 4);
    }
  }

  /** Reconciling twice is reconciling once: running the second call's code
      (on the now synchronized context) after the first's changes nothing. */
  lemma SavePcAndSpIdempotent(rt: Runtime, pc: int, spOffset: int, s: State)
    ensures Exec(rt, s, SavePcAndSpCode(pc, spOffset) + SavePcAndSpCode(pc, 0)) ==
            Exec(rt, s, SavePcAndSpCode(pc, spOffset))
  {
    var t := Saved(s, pc, spOffset);
    SavePcAndSpRuns(rt, pc, spOffset, s);
    ExecAppend(rt, s, SavePcAndSpCode(pc, spOffset), SavePcAndSpCode(pc, 0));
    SavePcAndSpRuns(rt, pc, 0, t);
    assert t.Set(RAX, pc).regs == t.regs;
  }

  /** The tail every non-leave exit ends with. */
  lemma UndefTailRuns(rt: Runtime, vm: Vm, s: State)
    ensures var o := Exec(rt, s, UndefTail(vm));
      (|s.stack| < 3 ==> o == Fault) &&
      (|s.stack| >= 3 ==> o == Returned(Restored(s).Set(RAX, vm.qundef)))
  {
    RestoreRegsRuns(rt, s);
    ExecAppend(rt, s, RestoreRegs(), [MovImm(RAX, vm.qundef), Ret]);
    if |s.stack| >= 3 {
      ExecCons(rt, Restored(s), MovImm(RAX, vm.qundef), [Ret]);
      ExecCons(rt, Restored(s).Set(RAX, vm.qundef), Ret, []);
    }
  }

  /** The entry exit hands back to its caller with Qundef in RAX and the
      callee-saved registers restored from the stack; it leaves cfp->pc and
      cfp->sp as they were; only the instruction's exit counter can change.
      It faults only if the stack does not hold the three saved registers. */
  lemma EntryExitRuns(rt: Runtime, vm: Vm, pc: int, cause: string, s: State)
    ensures var o := Exec(rt, s, EntryExitCode(vm, pc, cause));
      (|s.stack| < 3 <==> o == Fault) &&
      (|s.stack| >= 3 ==>
        o.Returned? &&
        o.state.Get(RAX) == vm.qundef &&
        o.state.Get(SP) == s.stack[0] && o.state.Get(EC) == s.stack[1] && o.state.Get(CFP) == s.stack[2] &&
        o.state.stack == s.stack[3..] &&
        o.state.cfpPc == s.cfpPc && o.state.cfpSp == s.cfpSp &&
        o.state.counters == CountedExit(vm, pc, s.counters))
  {
    var incr := IncrInsnExitCode(vm, pc);
    var note := [Comment(EntryExitNote(cause))];
    var tail := UndefTail(vm);
    assert EntryExitCode(vm, pc, cause) == incr + (note + tail);
    IncrInsnExitRuns(rt, vm, pc, s);
    var s1 := Exec(rt, s, incr).state;
    ExecAppend(rt, s, incr, note + tail);
    ExecCons(rt, s1, note[0], tail);
    UndefTailRuns(rt, vm, s1);
  }

  /** The leave exit hands back to its caller with RAX as it found it (the
      method's return value), the callee-saved registers restored from the
      stack, and the frame and counters untouched. */
  lemma LeaveExitRuns(rt: Runtime, s: State)
    ensures var o := Exec(rt, s, LeaveExitCode());
      (|s.stack| < 3 <==> o == Fault) &&
      (|s.stack| >= 3 ==>
        o.Returned? &&
        o.state.Get(RAX) == s.Get(RAX) &&
        o.state.Get(SP) == s.stack[0] && o.state.Get(EC) == s.stack[1] && o.state.Get(CFP) == s.stack[2] &&
        o.state.stack == s.stack[3..] &&
        o.state.cfpPc == s.cfpPc && o.state.cfpSp == s.cfpSp &&
        o.state.counters == s.counters)
  {
  }

  /** The side exit hands over to the interpreter with cfp->pc set to the
      exiting instruction's pc and cfp->sp set to SP advanced by the
      context's offset (left as it was when the offset is zero), Qundef in
      RAX and the callee-saved registers restored from the stack; only the
      instruction's exit counter can change. */
  lemma SideExitRuns(rt: Runtime, vm: Vm, pc: int, spOffset: int, s: State)
    ensures var o := Exec(rt, s, SideExitCode(vm, pc, spOffset));
      (|s.stack| < 3 <==> o == Fault) &&
      (|s.stack| >= 3 ==>
        o.Returned? &&
        o.state.cfpPc == pc &&
        o.state.cfpSp == (if spOffset != 0 then AdjustedSp(s, spOffset) else s.cfpSp) &&
        o.state.Get(RAX) == vm.qundef &&
        o.state.Get(SP) == s.stack[0] && o.state.Get(EC) == s.stack[1] && o.state.Get(CFP) == s.stack[2] &&
        o.state.stack == s.stack[3..] &&
        o.state.counters == CountedExit(vm, pc, s.counters))
  {
    var incr := IncrInsnExitCode(vm, pc);
    var save := SavePcAndSpCode(pc, spOffset);
    var note := [Comment(ExitToInterpreterNote(PcToInsn(vm, pc).name))];
    var tail := UndefTail(vm);
    assert SideExitCode(vm, pc, spOffset) == incr + (save + (note + tail));
    IncrInsnExitRuns(rt, vm, pc, s);
    var s1 := Exec(rt, s, incr).state;
    ExecAppend(rt, s, incr, save + (note + tail));
    SavePcAndSpRuns(rt, pc, spOffset, s1);
    var s2 := Saved(s1, pc, spOffset);
    ExecAppend(rt, s1, save, note + tail);
    ExecCons(rt, s2, note[0], tail);
    UndefTailRuns(rt, vm, s2);
  }

  /** A block stub trampoline calls rb_mjit_block_stub_hit with the stub's
      address and the context's offset and jumps to the address it returns;
      the stack and the frame are as it found them. */
  lemma BlockStubRuns(rt: Runtime, vm: Vm, stub: Stub, spOffset: int, s: State)
    requires stub.BlockStub?
    ensures var o := Exec(rt, s, BlockStubCode(vm, stub, spOffset));
      o.Jumped? &&
      o.dest == rt.blockStubHit(vm.toValue(stub), spOffset) &&
      o.state.Get(RDI) == vm.toValue(stub) && o.state.Get(ESI) == spOffset &&
      o.state.stack == s.stack && o.state.cfpPc == s.cfpPc && o.state.cfpSp == s.cfpSp &&
      o.state.counters == s.counters
  {
    var c := BlockStubCode(vm, stub, spOffset);
    var s1 := s.Set(RDI, vm.toValue(stub));
    var s2 := s1.Set(ESI, spOffset);
    var s3 := s2.Set(RAX, rt.blockStubHit(vm.toValue(stub), spOffset));
    assert c[0..] == c;
    ExecFrom(rt, s, c, 0);
    ExecFrom(rt, s, c, 1);
    ExecFrom(rt, s1, c, 2);
    ExecFrom(rt, s2, c, 3);
    ExecFrom(rt, s3, c, 4);
  }

  /** A branch stub trampoline calls rb_mjit_branch_stub_hit with the stub's
      address, the context's offset and 1 for the branch target or 0 for
      the fall-through, and jumps to the address it returns. */
  lemma BranchStubRuns(rt: Runtime, vm: Vm, stub: Stub, spOffset: int, branchTargetP: bool, s: State)
    requires stub.BranchStub?
    ensures var o := Exec(rt, s, BranchStubCode(vm, stub, spOffset, branchTargetP));
      o.Jumped? &&
      o.dest == rt.branchStubHit(vm.toValue(stub), spOffset, if branchTargetP then 1 else 0) &&
      o.state.Get(RDI) == vm.toValue(stub) && o.state.Get(ESI) == spOffset &&
      o.state.Get(EDX) == (if branchTargetP then 1 else 0) &&
      o.state.stack == s.stack && o.state.cfpPc == s.cfpPc && o.state.cfpSp == s.cfpSp &&
      o.state.counters == s.counters
  {
    var c := BranchStubCode(vm, stub, spOffset, branchTargetP);
    var flag := if branchTargetP then 1 else 0;
    var s1 := s.Set(RDI, vm.toValue(stub));
    var s2 := s1.Set(ESI, spOffset);
    var s3 := s2.Set(EDX, flag);
    var s4 := s3.Set(RAX, rt.branchStubHit(vm.toValue(stub), spOffset, flag));
    assert c[0..] == c;
    ExecFrom(rt, s, c, 0);
    ExecFrom(rt, s, c, 1);
    ExecFrom(rt, s1, c, 2);
    ExecFrom(rt, s2, c, 3);
    ExecFrom(rt, s3, c, 4);
    ExecFrom(rt, s4, c, 5);
  }
}
