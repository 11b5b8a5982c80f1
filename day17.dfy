/**
 * 2024 day 17, Chronospatial Computer: a 3-bit computer with registers A, B
 * and C runs a program of opcode/operand pairs and outputs numbers. Part 1
 * runs the program and prints its output; part 2 searches for the value of
 * register A that makes the program output a copy of itself.
 */
module Day17 {
  import opened Wrappers
  import opened Text
  import opened Bits

  /** The program: one opcode or operand per entry (a `u8` each). */
  type Program = seq<nat>

  datatype Registers = Registers(a: nat, b: nat, c: nat)

  /** What the computer holds between instructions. */
  datatype State = State(registers: Registers, pointer: nat, output: seq<nat>)

  /** How a bounded run ends: past the end of the program, at a panic, or
      with its fuel spent while the instruction pointer is still inside. */
  datatype Outcome = Halted(state: State) | Fault(state: State) | Exhausted(state: State)

  /** `Computer::new`: the given registers, the pointer at 0, no output. */
  function Initial(registers: Registers): State {
    State(registers, 0, [])
  }

  /** `literal_operand`: the operand itself; above 7 it panics. */
  function Literal(operand: nat): Option<nat> {
    if operand <= 7 then Some(operand) else None
  }

  /** `combo_operand`: 0 to 3 stand for themselves, 4, 5 and 6 for registers
      A, B and C; 7 is reserved and, like anything larger, panics. */
  function Combo(registers: Registers, operand: nat): Option<nat> {
    if operand <= 3 then Some(operand)
    else if operand == 4 then Some(registers.a)
    else if operand == 5 then Some(registers.b)
    else if operand == 6 then Some(registers.c)
    else None
  }

  /** The state after `execute(opcode, operand)`, or None where it panics. */
  function Executed(opcode: nat, operand: nat, s: State): (r: Option<State>)
    ensures r.None? <==>
      opcode > 7
      || ((opcode == 1 || opcode == 3) && operand > 7)
      || ((opcode == 0 || opcode == 2 || opcode == 5 || opcode == 6 || opcode == 7) && operand > 6)
  {
    var regs := s.registers;
    var next := s.pointer + 2;
    if opcode == 0 then
      match Combo(regs, operand)
      case None => None
      case Some(v) => Some(State(regs.(a := ShiftRight(regs.a, v)), next, s.output))
    else if opcode == 1 then
      match Literal(operand)
      case None => None
      case Some(v) => Some(State(regs.(b := Xor(regs.b, v)), next, s.output))
    else if opcode == 2 then
      match Combo(regs, operand)
      case None => None
      case Some(v) => Some(State(regs.(b := v % 8), next, s.output))
    else if opcode == 3 then
      match Literal(operand)
      case None => None
      case Some(v) => Some(State(regs, if regs.a == 0 then next else v, s.output))
    else if opcode == 4 then
      Some(State(regs.(b := Xor(regs.b, regs.c)), next, s.output))
    else if opcode == 5 then
      match Combo(regs, operand)
      case None => None
      case Some(v) => Some(State(regs, next, s.output + [v % 8]))
    else if opcode == 6 then
      match Combo(regs, operand)
      case None => None
      case Some(v) => Some(State(regs.(b := ShiftRight(regs.a, v)), next, s.output))
    else if opcode == 7 then
      match Combo(regs, operand)
      case None => None
      case Some(v) => Some(State(regs.(c := ShiftRight(regs.a, v)), next, s.output))
    else
      None
  }

  /** One turn of `run`'s loop: fetch the opcode and its operand (a missing
      operand panics on the index) and execute them. */
  function Stepped(program: Program, s: State): Option<State>
    requires s.pointer < |program|
  {
    if s.pointer + 1 < |program| then Executed(program[s.pointer], program[s.pointer + 1], s)
    else None
  }

  /** `run` with at most `fuel` instructions. */
  function RunFrom(program: Program, s: State, fuel: nat): Outcome
    decreases fuel
  {
    if s.pointer >= |program| then Halted(s)
    else if fuel == 0 then Exhausted(s)
    else
      match Stepped(program, s)
      case None => Fault(s)
      case Some(t) => RunFrom(program, t, fuel - 1)
  }

  /** The output of a run from fresh registers that halts within `fuel` instructions. */
  function OutputOf(program: Program, registers: Registers, fuel: nat): Option<seq<nat>> {
    match RunFrom(program, Initial(registers), fuel)
    case Halted(t) => Some(t.output)
    case _ => None
  }

  predicate Octal(output: seq<nat>) {
    forall i :: 0 <= i < |output| ==> output[i] < 8
  }

  /** `format_output`: the values in decimal, separated by commas. */
  function FormatOutput(output: seq<nat>): string {
    Join(seq(|output|, i requires 0 <= i < |output| => DecimalString(output[i])), ",")
  }

  /*------------------------------------------------------------------------
    Properties of single instructions
  ------------------------------------------------------------------------*/

  /** Every instruction moves the pointer on by two, except a jump taken
      because A is not zero, which sets it to the literal operand. */
  lemma ExecutedPointer(opcode: nat, operand: nat, s: State)
    requires Executed(opcode, operand, s).Some?
    ensures Executed(opcode, operand, s).value.pointer ==
      if opcode == 3 && s.registers.a != 0 then operand else s.pointer + 2
  {
  }

  /** Only `out` writes output, and what it appends is the combo operand modulo 8. */
  lemma ExecutedOutput(opcode: nat, operand: nat, s: State)
    requires Executed(opcode, operand, s).Some?
    ensures opcode != 5 ==> Executed(opcode, operand, s).value.output == s.output
    ensures opcode == 5 ==>
      Combo(s.registers, operand).Some? &&
      Executed(opcode, operand, s).value.output == s.output + [Combo(s.registers, operand).value % 8]
  {
  }

  /** `adv`, `bdv` and `cdv` store A divided by two to the power of the combo
      operand into A, B and C respectively, leaving the other registers alone. */
  lemma ExecutedDivision(opcode: nat, operand: nat, s: State)
    requires opcode == 0 || opcode == 6 || opcode == 7
    requires Executed(opcode, operand, s).Some?
    ensures Combo(s.registers, operand).Some?
    ensures var r := s.registers;
            var q := r.a / Pow2(Combo(r, operand).value);
            Executed(opcode, operand, s).value.registers ==
              if opcode == 0 then r.(a := q) else if opcode == 6 then r.(b := q) else r.(c := q)
  {
    ShiftRightDivides(s.registers.a, Combo(s.registers, operand).value);
  }

  /** `bxl` run twice with the same operand leaves B as it was, and `bxc` run
      twice leaves B as it was, since exclusive or undoes itself. */
  lemma XorInstructionsUndo(opcode: nat, operand: nat, s: State)
    requires opcode == 1 || opcode == 4
    requires Executed(opcode, operand, s).Some?
    ensures var t := Executed(opcode, operand, s).value;
            Executed(opcode, operand, t).Some? &&
            Executed(opcode, operand, t).value.registers == s.registers
  {
    var t := Executed(opcode, operand, s).value;
    if opcode == 1 {
      XorInvolution(s.registers.b, operand);
    } else {
      XorInvolution(s.registers.b, s.registers.c);
    }
    assert Executed(opcode, operand, t).value.registers.b == s.registers.b;
  }

  /** No instruction makes register A larger: only `adv` writes it, and it divides. */
  lemma ExecutedKeepsA(opcode: nat, operand: nat, s: State)
    requires Executed(opcode, operand, s).Some?
    ensures Executed(opcode, operand, s).value.registers.a <= s.registers.a
  {
    if opcode == 0 {
      ShiftRightDivides(s.registers.a, Combo(s.registers, operand).value);
    }
  }

  /** `bst`, `bxl` and `bxc` keep B below 8 when B and C already are. */
  lemma ExecutedKeepsBOctal(opcode: nat, operand: nat, s: State)
    requires Executed(opcode, operand, s).Some?
    requires opcode == 1 || opcode == 2 || opcode == 4
    requires s.registers.b < 8 && s.registers.c < 8
    ensures Executed(opcode, operand, s).value.registers.b < 8
  {
    assert Pow2(3) == 8;
    if opcode == 1 {
      XorBelow(s.registers.b, operand, 3);
    } else if opcode == 4 {
      XorBelow(s.registers.b, s.registers.c, 3);
    }
  }

  /*------------------------------------------------------------------------
    Properties of whole runs
  ------------------------------------------------------------------------*/

  /** A run ends in the halted state exactly when its pointer is past the end of the program. */
  lemma {:induction false} RunStopsPastEnd(program: Program, s: State, fuel: nat)
    ensures RunFrom(program, s, fuel).Halted? <==> RunFrom(program, s, fuel).state.pointer >= |program|
    decreases fuel
  {
    if s.pointer < |program| && fuel > 0 {
      match Stepped(program, s)
      case None =>
      case Some(t) => RunStopsPastEnd(program, t, fuel - 1);
    }
  }

  /** A run only ever appends to the output, and everything it appends is below 8. */
  lemma {:induction false} RunOutputOctal(program: Program, s: State, fuel: nat)
    ensures var out := RunFrom(program, s, fuel).state.output;
            |s.output| <= |out| && out[..|s.output|] == s.output &&
            (forall i :: |s.output| <= i < |out| ==> out[i] < 8)
    decreases fuel
  {
    if s.pointer < |program| && fuel > 0 {
      match Stepped(program, s)
      case None =>
      case Some(t) =>
        ExecutedOutput(program[s.pointer], program[s.pointer + 1], s);
        RunOutputOctal(program, t, fuel - 1);
    }
  }

  /** So a run from fresh registers outputs only numbers below 8. */
  lemma OutputOfOctal(program: Program, registers: Registers, fuel: nat)
    requires OutputOf(program, registers, fuel).Some?
    ensures Octal(OutputOf(program, registers, fuel).value)
  {
    RunOutputOctal(program, Initial(registers), fuel);
  }

  /** Register A never grows during a run. */
  lemma {:induction false} RunKeepsA(program: Program, s: State, fuel: nat)
    ensures RunFrom(program, s, fuel).state.registers.a <= s.registers.a
    decreases fuel
  {
    if s.pointer < |program| && fuel > 0 {
      match Stepped(program, s)
      case None =>
      case Some(t) =>
        ExecutedKeepsA(program[s.pointer], program[s.pointer + 1], s);
        RunKeepsA(program, t, fuel - 1);
    }
  }

  /** A run that halts within some fuel halts in the same state with any more fuel:
      the bound only decides whether the answer is known, never what it is. */
  lemma {:induction false} RunMoreFuel(program: Program, s: State, fuel: nat, more: nat)
    requires RunFrom(program, s, fuel).Halted?
    ensures RunFrom(program, s, fuel + more) == RunFrom(program, s, fuel)
    decreases fuel
  {
    if s.pointer < |program| {
      match Stepped(program, s)
      case None =>
      case Some(t) => RunMoreFuel(program, t, fuel - 1, more);
    }
  }

  /** The program `0,3,5,4,3,0` started with A = 117440 outputs a copy of itself. */
  lemma QuineExample(a: nat, fuel: nat)
    requires a == 117440 && fuel >= 18
    ensures OutputOf(Quine, Registers(a, 0, 0), fuel) == Some(Quine)
  {
    var a1, a2, a3, a4, a5 := a / 8, a / 64, a / 512, a / 4096, a / 32768;
    assert a1 == 14680 && a2 == 1835 && a3 == 229 && a4 == 28 && a5 == 3;
    var o1, o2, o3, o4, o5 := [0], [0, 3], [0, 3, 5], [0, 3, 5, 4], [0, 3, 5, 4, 3];
    assert [] + [a1 % 8] == o1 && o1 + [a2 % 8] == o2 && o2 + [a3 % 8] == o3;
    assert o3 + [a4 % 8] == o4 && o4 + [a5 % 8] == o5 && o5 + [a5 / 8 % 8] == Quine;
    var s1 := State(Registers(a1, 0, 0), 0, o1);
    var s2 := State(Registers(a2, 0, 0), 0, o2);
    var s3 := State(Registers(a3, 0, 0), 0, o3);
    var s4 := State(Registers(a4, 0, 0), 0, o4);
    var s5 := State(Registers(a5, 0, 0), 0, o5);
    var s6 := State(Registers(0, 0, 0), 6, Quine);
    assert RunFrom(Quine, Initial(Registers(a, 0, 0)), fuel) == RunFrom(Quine, s1, fuel - 3) by {
      QuineRound(a, [], fuel);
    }
    assert RunFrom(Quine, s1, fuel - 3) == RunFrom(Quine, s2, fuel - 6) by {
      QuineRound(a1, o1, fuel - 3);
    }
    assert RunFrom(Quine, s2, fuel - 6) == RunFrom(Quine, s3, fuel - 9) by {
      QuineRound(a2, o2, fuel - 6);
    }
    assert RunFrom(Quine, s3, fuel - 9) == RunFrom(Quine, s4, fuel - 12) by {
      QuineRound(a3, o3, fuel - 9);
    }
    assert RunFrom(Quine, s4, fuel - 12) == RunFrom(Quine, s5, fuel - 15) by {
      QuineRound(a4, o4, fuel - 12);
    }
    assert RunFrom(Quine, s5, fuel - 15) == RunFrom(Quine, s6, fuel - 18) by {
      QuineRound(a5, o5, fuel - 15);
    }
  }

  const Quine: Program := [0, 3, 5, 4, 3, 0]

  /** One pass of the example's loop: divide A by 8, output the new A modulo 8,
      and jump back to the start unless A has reached zero. */
  lemma QuineRound(a: nat, output: seq<nat>, fuel: nat)
    requires fuel >= 3
    ensures var a' := a / 8;
            RunFrom(Quine, State(Registers(a, 0, 0), 0, output), fuel) ==
              RunFrom(Quine, State(Registers(a', 0, 0), if a' == 0 then 6 else 0, output + [a' % 8]), fuel - 3)
  {
    ShiftRightDivides(a, 3);
    assert Pow2(3) == 8;
    var s0 := State(Registers(a, 0, 0), 0, output);
    var a' := a / 8;
    var s1 := State(Registers(a', 0, 0), 2, output);
    var s2 := State(Registers(a', 0, 0), 4, output + [a' % 8]);
    assert Stepped(Quine, s0) == Some(s1);
    assert Stepped(Quine, s1) == Some(s2);
    assert RunFrom(Quine, s0, fuel) == RunFrom(Quine, s2, fuel - 2);
  }

  /*------------------------------------------------------------------------
    The computer
  ------------------------------------------------------------------------*/

  class Computer {
    var registerA: nat
    var registerB: nat
    var registerC: nat
    const program: Program
    var instructionPointer: nat
    var output: seq<nat>

    function Snapshot(): State
      reads this
    {
      State(Registers(registerA, registerB, registerC), instructionPointer, output)
    }

    constructor (registers: Registers, program: Program)
      ensures this.program == program
      ensures Snapshot() == Initial(registers)
    {
      registerA, registerB, registerC := registers.a, registers.b, registers.c;
      this.program := program;
      instructionPointer := 0;
      output := [];
    }

    method IncrementInstructionPointer()
      modifies this
      ensures instructionPointer == old(instructionPointer) + 2
      ensures registerA == old(registerA) && registerB == old(registerB) && registerC == old(registerC)
      ensures output == old(output)
    {
      instructionPointer := instructionPointer + 2;
    }

    method Adv(operand: nat) returns (ok: bool)
      modifies this
      ensures ok == Executed(0, operand, old(Snapshot())).Some?
      ensures Snapshot() == if ok then Executed(0, operand, old(Snapshot())).value else old(Snapshot())
    {
      var value := Combo(Snapshot().registers, operand);
      if value.None? {
        return false;
      }
      ShiftRightDivides(registerA, value.value);
      registerA := registerA / Pow2(value.value);
      IncrementInstructionPointer();
      return true;
    }

    method Bxl(operand: nat) returns (ok: bool)
      modifies this
      ensures ok == Executed(1, operand, old(Snapshot())).Some?
      ensures Snapshot() == if ok then Executed(1, operand, old(Snapshot())).value else old(Snapshot())
    {
      var value := Literal(operand);
      if value.None? {
        return false;
      }
      registerB := Xor(registerB, value.value);
      IncrementInstructionPointer();
      return true;
    }

    method Bst(operand: nat) returns (ok: bool)
      modifies this
      ensures ok == Executed(2, operand, old(Snapshot())).Some?
      ensures Snapshot() == if ok then Executed(2, operand, old(Snapshot())).value else old(Snapshot())
    {
      var value := Combo(Snapshot().registers, operand);
      if value.None? {
        return false;
      }
      registerB := value.value % 8;
      IncrementInstructionPointer();
      return true;
    }

    method Jnz(operand: nat) returns (ok: bool)
      modifies this
      ensures ok == Executed(3, operand, old(Snapshot())).Some?
      ensures Snapshot() == if ok then Executed(3, operand, old(Snapshot())).value else old(Snapshot())
    {
      var value := Literal(operand);
      if value.None? {
        return false;
      }
      if registerA == 0 {
        IncrementInstructionPointer();
      } else {
        instructionPointer := value.value;
      }
      return true;
    }

    method Bxc(operand: nat)
      modifies this
      ensures Executed(4, operand, old(Snapshot())).Some?
      ensures Snapshot() == Executed(4, operand, old(Snapshot())).value
    {
      registerB := Xor(registerB, registerC);
      IncrementInstructionPointer();
    }

    method Out(operand: nat) returns (ok: bool)
      modifies this
      ensures ok == Executed(5, operand, old(Snapshot())).Some?
      ensures Snapshot() == if ok then Executed(5, operand, old(Snapshot())).value else old(Snapshot())
    {
      var value := Combo(Snapshot().registers, operand);
      if value.None? {
        return false;
      }
      output := output + [value.value % 8];
      IncrementInstructionPointer();
      return true;
    }

    method Bdv(operand: nat) returns (ok: bool)
      modifies this
      ensures ok == Executed(6, operand, old(Snapshot())).Some?
      ensures Snapshot() == if ok then Executed(6, operand, old(Snapshot())).value else old(Snapshot())
    {
      var value := Combo(Snapshot().registers, operand);
      if value.None? {
        return false;
      }
      ShiftRightDivides(registerA, value.value);
      registerB := registerA / Pow2(value.value);
      IncrementInstructionPointer();
      return true;
    }

    method Cdv(operand: nat) returns (ok: bool)
      modifies this
      ensures ok == Executed(7, operand, old(Snapshot())).Some?
      ensures Snapshot() == if ok then Executed(7, operand, old(Snapshot())).value else old(Snapshot())
    {
      var value := Combo(Snapshot().registers, operand);
      if value.None? {
        return false;
      }
      ShiftRightDivides(registerA, value.value);
      registerC := registerA / Pow2(value.value);
      IncrementInstructionPointer();
      return true;
    }

    /** `execute`: dispatch on the opcode; `ok` is false where the source panics. */
    method Execute(opcode: nat, operand: nat) returns (ok: bool)
      modifies this
      ensures ok == Executed(opcode, operand, old(Snapshot())).Some?
      ensures Snapshot() == if ok then Executed(opcode, operand, old(Snapshot())).value else old(Snapshot())
    {
      if opcode == 0 {
        ok := Adv(operand);
      } else if opcode == 1 {
        ok := Bxl(operand);
      } else if opcode == 2 {
        ok := Bst(operand);
      } else if opcode == 3 {
        ok := Jnz(operand);
      } else if opcode == 4 {
        Bxc(operand);
        ok := true;
      } else if opcode == 5 {
        ok := Out(operand);
      } else if opcode == 6 {
        ok := Bdv(operand);
      } else if opcode == 7 {
        ok := Cdv(operand);
      } else {
        ok := false;
      }
    }

    /** `run`, for at most `fuel` instructions: the computer ends in the state
        the bounded run reaches, and the outcome says why it stopped. */
    method Run(fuel: nat) returns (outcome: Outcome)
      modifies this
      ensures outcome == RunFrom(program, old(Snapshot()), fuel)
      ensures Snapshot() == outcome.state
    {
      var remaining: nat := fuel;
      while instructionPointer < |program|
        invariant RunFrom(program, Snapshot(), remaining) == RunFrom(program, old(Snapshot()), fuel)
        decreases remaining
      {
        if remaining == 0 {
          return Exhausted(Snapshot());
        }
        if instructionPointer + 1 >= |program| {
          return Fault(Snapshot());
        }
        var opcode := program[instructionPointer];
        var operand := program[instructionPointer + 1];
        var ok := Execute(opcode, operand);
        if !ok {
          return Fault(Snapshot());
        }
        remaining := remaining - 1;
      }
      return Halted(Snapshot());
    }
  }

  /*------------------------------------------------------------------------
    Searching for register A
  ------------------------------------------------------------------------*/

  /** `register_a_solver` from candidate `k` on: the candidates are `(A << 3) + k`
      for `k` from 0 to 62; one whose output is the last `slice` entries of the
      program is either the answer (when the slice is the whole program) or the
      start of a search one entry longer, and a failed search moves on to the
      next candidate. Runs that do not halt within `fuel` instructions do not match. */
  function SolveFrom(program: Program, registers: Registers, slice: nat, k: nat, fuel: nat): Option<nat>
    requires slice <= |program| && k <= 63
    decreases |program| - slice, 63 - k
  {
    if k == 63 then None
    else
      var candidate := registers.(a := registers.a * 8 + k);
      if OutputOf(program, candidate, fuel) == Some(program[|program| - slice..]) then
        if slice == |program| then Some(candidate.a)
        else
          match SolveFrom(program, candidate, slice + 1, 0, fuel)
          case Some(a) => Some(a)
          case None => SolveFrom(program, registers, slice, k + 1, fuel)
      else SolveFrom(program, registers, slice, k + 1, fuel)
  }

  function Solve(program: Program, registers: Registers, slice: nat, fuel: nat): Option<nat>
    requires slice <= |program|
  {
    SolveFrom(program, registers, slice, 0, fuel)
  }

  /** Whatever the search returns makes the program output exactly itself. */
  lemma {:induction false} SolveFromSound(program: Program, registers: Registers, slice: nat, k: nat, fuel: nat)
    requires slice <= |program| && k <= 63
    requires SolveFrom(program, registers, slice, k, fuel).Some?
    ensures OutputOf(program, registers.(a := SolveFrom(program, registers, slice, k, fuel).value), fuel) == Some(program)
    decreases |program| - slice, 63 - k
  {
    var candidate := registers.(a := registers.a * 8 + k);
    if OutputOf(program, candidate, fuel) == Some(program[|program| - slice..]) {
      if slice == |program| {
        assert program[|program| - slice..] == program;
      } else if SolveFrom(program, candidate, slice + 1, 0, fuel).Some? {
        SolveFromSound(program, candidate, slice + 1, 0, fuel);
      } else {
        SolveFromSound(program, registers, slice, k + 1, fuel);
      }
    } else {
      SolveFromSound(program, registers, slice, k + 1, fuel);
    }
  }

  /** The search only returns values whose top digits are the starting A:
      each level multiplies by 8 before adding its candidate offset. */
  lemma {:induction false} SolveFromAtLeast(program: Program, registers: Registers, slice: nat, k: nat, fuel: nat)
    requires slice <= |program| && k <= 63
    requires SolveFrom(program, registers, slice, k, fuel).Some?
    ensures SolveFrom(program, registers, slice, k, fuel).value >= registers.a * 8 + k
    decreases |program| - slice, 63 - k
  {
    var candidate := registers.(a := registers.a * 8 + k);
    if OutputOf(program, candidate, fuel) == Some(program[|program| - slice..]) {
      if slice == |program| {
      } else if SolveFrom(program, candidate, slice + 1, 0, fuel).Some? {
        SolveFromAtLeast(program, candidate, slice + 1, 0, fuel);
      } else {
        SolveFromAtLeast(program, registers, slice, k + 1, fuel);
      }
    } else {
      SolveFromAtLeast(program, registers, slice, k + 1, fuel);
    }
  }

  /** A run of a fresh computer, as `register_a_solver` does for each candidate. */
  method RunFresh(registers: Registers, program: Program, fuel: nat) returns (output: Option<seq<nat>>)
    ensures output == OutputOf(program, registers, fuel)
  {
    var computer := new Computer(registers, program);
    var outcome := computer.Run(fuel);
    if outcome.Halted? {
      return Some(computer.output);
    }
    return None;
  }

  /** `register_a_solver`: the loop over candidates with the recursive call inside it. */
  method RegisterASolver(registers: Registers, program: Program, sliceSize: nat, fuel: nat) returns (r: Option<nat>)
    requires sliceSize <= |program|
    ensures r == Solve(program, registers, sliceSize, fuel)
    decreases |program| - sliceSize
  {
    var programTail := program[|program| - sliceSize..];
    for registerOctal := 0 to 63
      invariant SolveFrom(program, registers, sliceSize, registerOctal, fuel) == Solve(program, registers, sliceSize, fuel)
    {
      var testRegisters := registers.(a := registers.a * 8 + registerOctal);
      var output := RunFresh(testRegisters, program, fuel);
      if output == Some(programTail) {
        if sliceSize == |program| {
          return Some(testRegisters.a);
        }
        var result := RegisterASolver(testRegisters, program, sliceSize + 1, fuel);
        if result.Some? {
          return result;
        }
      }
    }
    return None;
  }

  /*------------------------------------------------------------------------
    The two parts
  ------------------------------------------------------------------------*/

  /** Part 1: the formatted output of the program, if it halts within `fuel` instructions. */
  method Part1(registers: Registers, program: Program, fuel: nat) returns (r: Option<string>)
    ensures r.Some? <==> OutputOf(program, registers, fuel).Some?
    ensures r.Some? ==> r.value == FormatOutput(OutputOf(program, registers, fuel).value)
  {
    var computer := new Computer(registers, program);
    var outcome := computer.Run(fuel);
    if !outcome.Halted? {
      return None;
    }
    return Some(FormatOutput(computer.output));
  }

  /** Part 2: the search from A = 0 with B and C as given, in decimal; None where
      the source panics: on an empty program (the program's tail slice starts
      before its beginning) or where `unwrap` finds that the search found nothing. */
  method Part2(registers: Registers, program: Program, fuel: nat) returns (r: Option<string>)
    ensures r.Some? <==> |program| >= 1 && Solve(program, registers.(a := 0), 1, fuel).Some?
    ensures r.Some? ==> r.value == DecimalString(Solve(program, registers.(a := 0), 1, fuel).value)
    ensures r.Some? ==> exists a :: r.value == DecimalString(a) && OutputOf(program, registers.(a := a), fuel) == Some(program)
  {
    if |program| == 0 {
      return None;
    }
    var start := registers.(a := 0);
    var found := RegisterASolver(start, program, 1, fuel);
    if found.None? {
      return None;
    }
    SolveFromSound(program, start, 1, 0, fuel);
    assert start.(a := found.value) == registers.(a := found.value);
    return Some(DecimalString(found.value));
  }

  /** The formatted output splits back on commas into the values, each parsing to itself. */
  lemma FormatOutputRoundTrip(output: seq<nat>)
    requires |output| > 0
    ensures |Split(FormatOutput(output), ',')| == |output|
    ensures forall i :: 0 <= i < |output| ==> ParseNat(Split(FormatOutput(output), ',')[i]) == Some(output[i])
  {
    var parts := seq(|output|, i requires 0 <= i < |output| => DecimalString(output[i]));
    forall i | 0 <= i < |parts|
      ensures ',' !in parts[i]
    {
      assert AllDigits(parts[i]);
    }
    SplitJoin(parts, ',');
    forall i | 0 <= i < |output|
      ensures ParseNat(parts[i]) == Some(output[i])
    {
      DecimalRoundTrip(output[i]);
    }
  }
}
