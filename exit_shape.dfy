/** What the emitted sequences look like: register-restore order, where the
    call-result register is written, which control-frame fields are stored,
    and the layout of the stub trampolines. */
module ExitShape {
  import opened Asm
  import opened Jit
  import opened Exits

  lemma StoresFieldAppend(a: seq<Instr>, b: seq<Instr>, f: FrameField)
    ensures StoresField(a + b, f) <==> StoresField(a, f) || StoresField(b, f)
  {
    if StoresField(a + b, f) {
      var k :| 0 <= k < |a + b| && (a + b)[k].MovMem? && (a + b)[k].field == f;
      if k >= |a| { assert b[k - |a|] == (a + b)[k]; } else { assert a[k] == (a + b)[k]; }
    }
    if StoresField(a, f) {
      var k :| 0 <= k < |a| && a[k].MovMem? && a[k].field == f;
      assert (a + b)[k] == a[k];
    }
    if StoresField(b, f) {
      var k :| 0 <= k < |b| && b[k].MovMem? && b[k].field == f;
      assert (a + b)[k + |a|] == b[k];
    }
  }

  /** incr_insn_exit emits nothing without stats; with stats it loads the
      address of the instruction's own counter into RAX and adds one there. */
  lemma IncrInsnExitShape(vm: Vm, pc: int)
    ensures var c := IncrInsnExitCode(vm, pc);
      (!vm.stats ==> c == []) &&
      (vm.stats ==> Strip(c) == [MovImm(RAX, vm.insnExits + vm.decodeInsn(pc).bin), AddMem(RAX, 1)]) &&
      !StoresField(c, PcField) && !StoresField(c, SpField) &&
      !WritesAny(c, SP) && !WritesAny(c, EC) && !WritesAny(c, CFP)
  {
    var c := IncrInsnExitCode(vm, pc);
    if vm.stats {
      assert c == [c[0]] + [c[1]] + [c[2]];
      StripAppend([c[0]] + [c[1]], [c[2]]);
      StripAppend([c[0]], [c[1]]);
    }
  }

  /** compile_entry_exit ends by popping SP, EC and CFP in that order,
      loading Qundef into RAX and returning; it returns nowhere else, and it
      never stores to the control frame's pc or sp. */
  lemma EntryExitShape(vm: Vm, pc: int, cause: string)
    ensures var c := EntryExitCode(vm, pc, cause);
      |c| >= 5 &&
      c[|c| - 5..] == [Pop(SP), Pop(EC), Pop(CFP), MovImm(RAX, vm.qundef), Ret] &&
      (forall k :: 0 <= k < |c| - 1 ==> c[k] != Ret) &&
      !StoresField(c, PcField) && !StoresField(c, SpField)
  {
  }

  /** compile_leave_exit is exactly pop SP, pop EC, pop CFP, ret: it leaves
      the call-result register RAX alone and stores nothing to the frame. */
  lemma LeaveExitShape()
    ensures var c := LeaveExitCode();
      c == [Pop(SP), Pop(EC), Pop(CFP), Ret] &&
      !WritesAny(c, RAX) &&
      !StoresField(c, PcField) && !StoresField(c, SpField)
  {
  }

  /** save_pc_and_sp always loads `pc` into RAX and stores it to cfp->pc
      first; it adjusts SP and stores cfp->sp if and only if the offset is
      non-zero, by exactly ValueSize slots per unit of offset, and its
      annotation says whether it did. */
  lemma SavePcAndSpShape(pc: int, spOffset: int)
    ensures var c := SavePcAndSpCode(pc, spOffset);
      c[0] == Comment(SavePcNote(spOffset != 0)) &&
      |Strip(c)| == (if spOffset == 0 then 2 else 4) &&
      Strip(c)[..2] == [MovImm(RAX, pc), MovMem(CFP, PcField, RAX)] &&
      StoresField(c, PcField) &&
      (StoresField(c, SpField) <==> spOffset != 0) &&
      (WritesAny(c, SP) <==> spOffset != 0) &&
      (spOffset != 0 ==> Strip(c)[2..] == [AddImm(SP, ValueSize * spOffset), MovMem(CFP, SpField, SP)])
  {
    var c := SavePcAndSpCode(pc, spOffset);
    var head := [Comment(SavePcNote(spOffset != 0)), MovImm(RAX, pc), MovMem(CFP, PcField, RAX)];
    var tail := if spOffset != 0 then [AddImm(SP, ValueSize * spOffset), MovMem(CFP, SpField, SP)] else [];
    assert c == head + tail;
    StripAppend(head, tail);
    assert head == [head[0]] + [head[1], head[2]];
    StripAppend([head[0]], [head[1], head[2]]);
    assert [head[1], head[2]] == [head[1]] + [head[2]];
    StripAppend([head[1]], [head[2]]);
    assert Strip(head) == [MovImm(RAX, pc), MovMem(CFP, PcField, RAX)];
    if spOffset != 0 {
      assert tail == [tail[0]] + [tail[1]];
      StripAppend([tail[0]], [tail[1]]);
      assert c[3] == AddImm(SP, ValueSize * spOffset);
      assert Writes(c[3], SP);
      assert c[4].MovMem? && c[4].field == SpField;
    } else {
      assert c == head;
      assert !Writes(c[0], SP) && !Writes(c[1], SP) && !Writes(c[2], SP);
    }
    assert c[2].MovMem? && c[2].field == PcField;
  }

  /** A second save_pc_and_sp on the same, now synchronized, context emits
      only the pc store: after annotations are dropped it is the first two
      effective instructions of the first call's output, and a strictly
      shorter prefix when the first call also stored sp. */
  lemma SavePcAndSpTwice(pc: int, spOffset: int)
    ensures var first := Strip(SavePcAndSpCode(pc, spOffset));
      var second := Strip(SavePcAndSpCode(pc, 0));
      second == [MovImm(RAX, pc), MovMem(CFP, PcField, RAX)] &&
      second <= first &&
      (spOffset != 0 ==> second < first) &&
      (spOffset == 0 ==> second == first)
  {
    SavePcAndSpShape(pc, spOffset);
    SavePcAndSpShape(pc, 0);
  }

  /** Code whose only `ret` is its last instruction stays that way behind a
      prefix without `ret`. */
  lemma RetOnlyAtEnd(head: seq<Instr>, tail: seq<Instr>)
    requires Ret !in head
    requires forall k :: 0 <= k < |tail| - 1 ==> tail[k] != Ret
    ensures forall k :: 0 <= k < |head + tail| - 1 ==> (head + tail)[k] != Ret
  {
    forall k | 0 <= k < |head + tail| - 1 ensures (head + tail)[k] != Ret {
      if k < |head| {
        assert (head + tail)[k] == head[k];
      } else {
        assert (head + tail)[k] == tail[k - |head|];
      }
    }
  }

  /** compile_side_exit writes cfp->pc always and cfp->sp exactly when the
      context's offset is non-zero, all before the registers are restored;
      it then ends like the entry exit and returns nowhere else. */
  lemma SideExitShape(vm: Vm, pc: int, spOffset: int)
    ensures var c := SideExitCode(vm, pc, spOffset);
      |c| >= 5 &&
      c[|c| - 5..] == [Pop(SP), Pop(EC), Pop(CFP), MovImm(RAX, vm.qundef), Ret] &&
      (forall k :: 0 <= k < |c| - 1 ==> c[k] != Ret) &&
      (forall k :: |c| - 5 <= k < |c| ==> !c[k].MovMem?) &&
      StoresField(c, PcField) &&
      (StoresField(c, SpField) <==> spOffset != 0)
  {
    var c := SideExitCode(vm, pc, spOffset);
    var incr := IncrInsnExitCode(vm, pc);
    var save := SavePcAndSpCode(pc, spOffset);
    var note := [Comment(ExitToInterpreterNote(PcToInsn(vm, pc).name))];
    var head := incr + save + note;
    var tail := UndefTail(vm);
    assert tail == [Pop(SP), Pop(EC), Pop(CFP), MovImm(RAX, vm.qundef), Ret];
    assert c == head + tail;
    assert c[|c| - 5..] == tail;
    IncrInsnExitShape(vm, pc);
    SavePcAndSpShape(pc, spOffset);
    forall f: FrameField ensures StoresField(c, f) <==> StoresField(save, f) {
      StoresFieldAppend(incr, save, f);
      StoresFieldAppend(incr + save, note, f);
      StoresFieldAppend(head, tail, f);
    }
    assert Ret !in head by {
      assert Ret !in incr && Ret !in save && Ret !in note;
    }
    RetOnlyAtEnd(head, tail);
  }

  /** compile_block_stub: an annotation naming the stub's line first, then
      the stub's address in RDI and the context's offset in ESI, then exactly
      one call, to rb_mjit_block_stub_hit, then a jump to the address it
      returned in RAX as the last instruction; it never returns directly. */
  lemma BlockStubShape(vm: Vm, stub: Stub, spOffset: int)
    requires stub.BlockStub?
    ensures var c := BlockStubCode(vm, stub, spOffset);
      |c| >= 2 &&
      c[0] == Comment(BlockStubNote(vm.lineNo(stub.iseq, InsnIndex(stub.iseq, stub.pc)))) &&
      CallTargets(c) == [BlockStubHit] &&
      c[|c| - 2] == Call(BlockStubHit) &&
      c[|c| - 1] == JmpReg(RAX) &&
      MovImm(RDI, vm.toValue(stub)) in c[..|c| - 2] &&
      MovImm(ESI, spOffset) in c[..|c| - 2] &&
      Ret !in c
  {
    var c := BlockStubCode(vm, stub, spOffset);
    assert CallTargets(c[4..]) == [];
    assert CallTargets(c[3..]) == [BlockStubHit] + CallTargets(c[4..]);
    assert CallTargets(c[2..]) == CallTargets(c[3..]);
    assert CallTargets(c[1..]) == CallTargets(c[2..]);
    assert CallTargets(c) == CallTargets(c[1..]);
    assert c[..|c| - 2][1] == MovImm(RDI, vm.toValue(stub));
    assert c[..|c| - 2][2] == MovImm(ESI, spOffset);
  }

  /** compile_branch_stub: the same layout as a block stub, with the chosen
      successor (1 for the branch target, 0 for the fall-through) in EDX,
      one call to rb_mjit_branch_stub_hit, and the annotation naming the
      line of the successor chosen. */
  lemma BranchStubShape(vm: Vm, stub: Stub, spOffset: int, branchTargetP: bool)
    requires stub.BranchStub?
    ensures var c := BranchStubCode(vm, stub, spOffset, branchTargetP);
      var succ := if branchTargetP then stub.branchTargetPc else stub.fallthroughPc;
      |c| >= 2 &&
      c[0] == Comment(BranchStubNote(vm.lineNo(stub.iseq, InsnIndex(stub.iseq, succ)))) &&
      CallTargets(c) == [BranchStubHit] &&
      c[|c| - 2] == Call(BranchStubHit) &&
      c[|c| - 1] == JmpReg(RAX) &&
      MovImm(RDI, vm.toValue(stub)) in c[..|c| - 2] &&
      MovImm(ESI, spOffset) in c[..|c| - 2] &&
      MovImm(EDX, if branchTargetP then 1 else 0) in c[..|c| - 2] &&
      Ret !in c
  {
    var c := BranchStubCode(vm, stub, spOffset, branchTargetP);
    assert CallTargets(c[5..]) == [];
    assert CallTargets(c[4..]) == [BranchStubHit] + CallTargets(c[5..]);
    assert CallTargets(c[3..]) == CallTargets(c[4..]);
    assert CallTargets(c[2..]) == CallTargets(c[3..]);
    assert CallTargets(c[1..]) == CallTargets(c[2..]);
    assert CallTargets(c) == CallTargets(c[1..]);
    assert c[..|c| - 2][1] == MovImm(RDI, vm.toValue(stub));
    assert c[..|c| - 2][2] == MovImm(ESI, spOffset);
    assert c[..|c| - 2][3] == MovImm(EDX, if branchTargetP then 1 else 0);
  }

}
