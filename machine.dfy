/** An abstract machine that gives the emitted instructions a meaning, so that
    what an exit or a trampoline does when it runs can be stated and proved.
    It keeps the registers, the native stack (top first), the exit-counter
    memory and the two fields of the control frame that CFP points to. */
module Machine {
  import opened Asm

  datatype State = State(
    regs: map<Reg, int>,
    stack: seq<int>,
    counters: map<int, int>,
    cfpPc: int,
    cfpSp: int)
  {
    function Get(r: Reg): int {
      if r in regs then regs[r] else 0
    }

    function Set(r: Reg, v: int): State {
      this.(regs := regs[r := v])
    }

    function Counter(addr: int): int {
      if addr in counters then counters[addr] else 0
    }
  }

  /** The runtime's stub resolvers: each returns the address to continue at. */
  datatype Runtime = Runtime(
    blockStubHit: (int, int) -> int,
    branchStubHit: (int, int, int) -> int)

  /** Running code either falls off its end, returns to its caller, jumps
      away, or faults (a pop from an empty stack, a store to memory the
      model does not track). */
  datatype Outcome =
    | Running(state: State)
    | Returned(state: State)
    | Jumped(state: State, dest: int)
    | Fault

  function Step(rt: Runtime, s: State, i: Instr): Outcome {
    match i
    case Comment(_) => Running(s)
    case Push(r) => Running(s.(stack := [s.Get(r)] + s.stack))
    case Pop(r) =>
      if s.stack == [] then Fault
      else Running(s.Set(r, s.stack[0]).(stack := s.stack[1..]))
    case MovImm(r, v) => Running(s.Set(r, v))
    case MovMem(base, f, src) =>
      if base != CFP then Fault
      else if f == PcField then Running(s.(cfpPc := s.Get(src)))
      else Running(s.(cfpSp := s.Get(src)))
    case AddImm(r, v) => Running(s.Set(r, s.Get(r) + v))
    case AddMem(a, v) =>
      var addr := s.Get(a);
      Running(s.(counters := s.counters[addr := s.Counter(addr) + v]))
    case Call(t) =>
      var res :=
        if t == BlockStubHit then rt.blockStubHit(s.Get(RDI), s.Get(ESI))
        else rt.branchStubHit(s.Get(RDI), s.Get(ESI), s.Get(EDX));
      Running(s.Set(RAX, res))
    case JmpReg(r) => Jumped(s, s.Get(r))
    case Ret => Returned(s)
  }

  /** Run `code` from `s` until it ends, returns, jumps or faults. */
  function Exec(rt: Runtime, s: State, code: seq<Instr>): Outcome
    decreases |code|, 0
  {
    if code == [] then Running(s)
    else Then(rt, Step(rt, s, code[0]), code[1..])
  }

  /** Continue with `code` if `o` is still running. */
  function Then(rt: Runtime, o: Outcome, code: seq<Instr>): Outcome
    decreases |code|, 1
  {
    if o.Running? then Exec(rt, o.state, code) else o
  }

  /** Running two pieces of code one after the other is running their concatenation. */
  lemma {:induction false} ExecAppend(rt: Runtime, s: State, a: seq<Instr>, b: seq<Instr>)
    ensures Exec(rt, s, a + b) == Then(rt, Exec(rt, s, a), b)
    decreases |a|
  {
    if a == [] {
      assert a + b == b;
    } else {
      assert (a + b)[0] == a[0];
      assert (a + b)[1..] == a[1..] + b;
      var o := Step(rt, s, a[0]);
      if o.Running? {
        ExecAppend(rt, o.state, a[1..], b);
      }
    }
  }

  /** Executing one instruction and then the rest. */
  lemma ExecCons(rt: Runtime, s: State, i: Instr, rest: seq<Instr>)
    ensures Exec(rt, s, [i] + rest) == Then(rt, Step(rt, s, i), rest)
  {
  }

  /** Executing the suffix of `code` that starts at instruction `k`. */
  lemma ExecFrom(rt: Runtime, s: State, code: seq<Instr>, k: nat)
    requires k < |code|
    ensures Exec(rt, s, code[k..]) == Then(rt, Step(rt, s, code[k]), code[k + 1..])
  {
  }
}
