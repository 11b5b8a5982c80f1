/**
 * Day 24 of 2024, "Crossed Wires": a circuit of AND, OR and XOR gates.
 * Part 1 evaluates the gates over a worklist and reads the `z` wires as a
 * binary number; part 2 walks what should be a ripple-carry adder bit by bit
 * and reports the output wires that were swapped.
 */
module Day24 {
  import opened Wrappers
  import opened Text
  import Bits

  type Wire = string

  datatype GateOperation = Xor | And | Or

  /** What a gate does in a ripple-carry adder, from its inputs and operation. */
  datatype GateRole = XyXor | XyAnd | ZXor | CAnd | COr

  /** A gate: its two input wires in ascending order, its operation and its role. */
  datatype Gate = Gate(inputs: (Wire, Wire), operation: GateOperation, role: GateRole)

  /*------------------------------------------------------------------------
    Operations
  ------------------------------------------------------------------------*/

  /** `GateOperation::function`: the boolean operation a gate applies. */
  function Apply(op: GateOperation, a: bool, b: bool): bool {
    match op
    case And => a && b
    case Or => a || b
    case Xor => a != b
  }

  /** The same operations on whole numbers, digit by digit. */
  function BitwiseOp(op: GateOperation, a: nat, b: nat): nat {
    match op
    case And => Bits.And(a, b)
    case Or => Bits.Or(a, b)
    case Xor => Bits.Xor(a, b)
  }

  /** `bool::bitand`, `bitor` and `bitxor` are the bitwise operations on one binary digit. */
  lemma ApplyIsBitwise(op: GateOperation, a: nat, b: nat, k: nat)
    ensures Bits.TestBit(BitwiseOp(op, a, b), k) == Apply(op, Bits.TestBit(a, k), Bits.TestBit(b, k))
  {
    match op
    case And => Bits.TestBitAnd(a, b, k);
    case Or => Bits.TestBitOr(a, b, k);
    case Xor => Bits.TestBitXor(a, b, k);
  }

  /** `Display for GateOperation`. */
  function OperationName(op: GateOperation): string {
    match op
    case And => "AND"
    case Or => "OR"
    case Xor => "XOR"
  }

  /** `From<&str> for GateOperation`; None for any other name (a panic). */
  function ParseOperation(s: string): Option<GateOperation> {
    if s == "AND" then Some(And)
    else if s == "OR" then Some(Or)
    else if s == "XOR" then Some(Xor)
    else None
  }

  /** Displaying an operation and parsing the name back gives the operation, and
      the only names that parse are the three displayed ones. */
  lemma OperationRoundTrip(op: GateOperation, s: string)
    ensures ParseOperation(OperationName(op)) == Some(op)
    ensures ParseOperation(s) == Some(op) <==> s == OperationName(op)
  {
  }

  /*------------------------------------------------------------------------
    Gates
  ------------------------------------------------------------------------*/

  /** `inputs`: the two wires in ascending order. */
  function SortedInputs(a: Wire, b: Wire): (r: (Wire, Wire))
    ensures r == (a, b) || r == (b, a)
    ensures !StrLess(r.1, r.0)
  {
    StrLessTotal(a, b);
    if StrLess(a, b) then (a, b) else (b, a)
  }

  /** The order the wires are given in does not matter. */
  lemma SortedInputsSymmetric(a: Wire, b: Wire)
    ensures SortedInputs(a, b) == SortedInputs(b, a)
  {
    StrLessTotal(a, b);
    StrLessIrreflexive(a);
  }

  /** Two sorted pairs of the same wires are the same pair. */
  lemma SortedUnique(p: (Wire, Wire), q: (Wire, Wire))
    requires !StrLess(p.1, p.0) && !StrLess(q.1, q.0)
    requires p == q || p == (q.1, q.0)
    ensures p == q
  {
    StrLessTotal(p.0, p.1);
  }

  /** The operation a role belongs to. */
  function RoleOperation(role: GateRole): GateOperation {
    match role
    case XyXor => Xor
    case ZXor => Xor
    case XyAnd => And
    case CAnd => And
    case COr => Or
  }

  /** `GateRole::new`; the source takes the first character of each input, so
      both must be non-empty. */
  function NewRole(inputs: (Wire, Wire), op: GateOperation): (r: GateRole)
    requires |inputs.0| > 0 && |inputs.1| > 0
    ensures RoleOperation(r) == op
    ensures (r == XyXor || r == XyAnd) <==> inputs.0[0] == 'x' && inputs.1[0] == 'y' && op != Or
  {
    match (inputs.0[0], inputs.1[0], op)
    case ('x', 'y', Xor) => XyXor
    case ('x', 'y', And) => XyAnd
    case (_, _, Xor) => ZXor
    case (_, _, And) => CAnd
    case (_, _, Or) => COr
  }

  /** `Gate::from`. */
  function GateFrom(inputs: (Wire, Wire), op: GateOperation): (g: Gate)
    requires |inputs.0| > 0 && |inputs.1| > 0
    ensures g.inputs == inputs && g.operation == op && RoleOperation(g.role) == op
  {
    Gate(inputs, op, NewRole(inputs, op))
  }

  /** A gate as `Gate::new` builds it: non-empty inputs in ascending order, and
      the role its inputs and operation give. */
  predicate WellFormed(g: Gate) {
    |g.inputs.0| > 0 && |g.inputs.1| > 0 && !StrLess(g.inputs.1, g.inputs.0) &&
    g.role == NewRole(g.inputs, g.operation)
  }

  /** `Gate::new`: None when the operation name is not one of the three (a panic). */
  function NewGate(input0: Wire, input1: Wire, operation: string): (r: Option<Gate>)
    requires |input0| > 0 && |input1| > 0
    ensures r.Some? <==> ParseOperation(operation).Some?
    ensures r.Some? ==> WellFormed(r.value) && Some(r.value.operation) == ParseOperation(operation)
    ensures r.Some? ==> r.value.inputs == (input0, input1) || r.value.inputs == (input1, input0)
  {
    match ParseOperation(operation)
    case None => None
    case Some(op) => Some(GateFrom(SortedInputs(input0, input1), op))
  }

  /** `Gate::new(a, b, op)` and `Gate::new(b, a, op)` are the same gate. */
  lemma NewGateSymmetric(a: Wire, b: Wire, operation: string)
    requires |a| > 0 && |b| > 0
    ensures NewGate(a, b, operation) == NewGate(b, a, operation)
  {
    SortedInputsSymmetric(a, b);
  }

  /** Two well-formed gates with the same inputs, in either order, and the same
      operation are the same gate. */
  lemma WellFormedUnique(g: Gate, h: Gate)
    requires WellFormed(g) && WellFormed(h) && g.operation == h.operation
    requires g.inputs == h.inputs || g.inputs == (h.inputs.1, h.inputs.0)
    ensures g == h
  {
    SortedUnique(g.inputs, h.inputs);
  }

  /*------------------------------------------------------------------------
    Parsing
  ------------------------------------------------------------------------*/

  /** A wire's initial value: "0" or "1"; anything else is a panic. */
  function WireValue(s: string): Option<bool> {
    if s == "0" then Some(false) else if s == "1" then Some(true) else None
  }

  /** A line "x00: 1": the wire before ": " and the value after it. */
  function ParseWire(line: string): Option<(Wire, bool)> {
    var parts := SplitOn(line, ": ");
    if |parts| < 2 then None
    else
      match WireValue(parts[1])
      case None => None
      case Some(v) => Some((parts[0], v))
  }

  /** A line "x00 AND y00 -> z00": the gate of the first three words and the
      fifth word as its output; fewer than five words is a panic. */
  function ParseGate(line: string): Option<(Gate, Wire)> {
    var words := Words(line);
    if |words| < 5 then None
    else
      match NewGate(words[0], words[2], words[1])
      case None => None
      case Some(g) => Some((g, words[4]))
  }

  /** A wire name the gate lines can hold: not empty and without whitespace. */
  predicate Plain(w: string) {
    |w| > 0 && forall j :: 0 <= j < |w| ==> w[j] !in Whitespace
  }

  lemma OperationNamePlain(op: GateOperation)
    ensures Plain(OperationName(op))
  {
  }

  /** The five words of a gate line, joined with spaces. */
  lemma JoinGateLine(a: string, name: string, b: string, out: string)
    ensures Join([a, name, b, "->", out], " ") == a + " " + name + " " + b + " -> " + out
  {
    var words := [a, name, b, "->", out];
    assert words[4..] == [out];
    assert Join(words[3..], " ") == "->" + " " + out;
    assert Join(words[2..], " ") == b + " " + ("->" + " " + out);
    assert Join(words[1..], " ") == name + " " + (b + " " + ("->" + " " + out));
    assert " -> " == " " + "->" + " ";
  }

  /** A gate line written as the puzzle writes it parses back to that gate and output. */
  lemma ParseGateRoundTrip(a: Wire, op: GateOperation, b: Wire, out: Wire)
    requires Plain(a) && Plain(b) && Plain(out)
    ensures ParseGate(a + " " + OperationName(op) + " " + b + " -> " + out) ==
      Some((GateFrom(SortedInputs(a, b), op), out))
  {
    var words := [a, OperationName(op), b, "->", out];
    JoinGateLine(a, OperationName(op), b, out);
    OperationNamePlain(op);
    assert Plain("->");
    forall i | 0 <= i < |words|
      ensures Plain(words[i])
    {
    }
    WordsJoin(words);
    OperationRoundTrip(op, OperationName(op));
  }

  /** The wire lines collected into a map, a later line for the same wire
      replacing an earlier one; None when a line does not parse. */
  function CollectWires(lines: seq<string>): (r: Option<map<Wire, bool>>)
    ensures r.Some? <==> forall i :: 0 <= i < |lines| ==> ParseWire(lines[i]).Some?
    ensures r.Some? ==> forall w :: w in r.value <==> exists i :: 0 <= i < |lines| && ParseWire(lines[i]).value.0 == w
    decreases |lines|
  {
    if lines == [] then Some(map[])
    else
      var init := lines[..|lines| - 1];
      var r := match (CollectWires(init), ParseWire(lines[|lines| - 1]))
        case (Some(m), Some((w, v))) => Some(m[w := v])
        case _ => None;
      assert forall i :: 0 <= i < |init| ==> init[i] == lines[i];
      r
  }

  /** The value a wire gets is the one on the last line naming it. */
  lemma {:induction false} CollectWiresLastWins(lines: seq<string>, i: nat)
    requires CollectWires(lines).Some? && i < |lines|
    requires forall j :: i < j < |lines| ==> ParseWire(lines[j]).value.0 != ParseWire(lines[i]).value.0
    ensures CollectWires(lines).value[ParseWire(lines[i]).value.0] == ParseWire(lines[i]).value.1
    decreases |lines|
  {
    var init := lines[..|lines| - 1];
    if i < |lines| - 1 {
      assert init[i] == lines[i];
      forall j | i < j < |init|
        ensures ParseWire(init[j]).value.0 != ParseWire(init[i]).value.0
      {
        assert init[j] == lines[j];
      }
      CollectWiresLastWins(init, i);
    }
  }

  /** The gate lines collected into a map from gate to output wire, a later
      line for the same gate replacing an earlier one. */
  function CollectGates(lines: seq<string>): (r: Option<map<Gate, Wire>>)
    ensures r.Some? <==> forall i :: 0 <= i < |lines| ==> ParseGate(lines[i]).Some?
    ensures r.Some? ==> forall g :: g in r.value ==> WellFormed(g) && |r.value[g]| > 0
    decreases |lines|
  {
    if lines == [] then Some(map[])
    else
      var init := lines[..|lines| - 1];
      match (CollectGates(init), ParseGate(lines[|lines| - 1]))
      case (Some(m), Some((g, out))) => Some(m[g := out])
      case _ => None
  }

  /** The index of the first empty line, or the number of lines when there is none. */
  function FirstEmpty(lines: seq<string>): (k: nat)
    ensures k <= |lines| && (k < |lines| ==> lines[k] == "")
    ensures forall i :: 0 <= i < k ==> lines[i] != ""
  {
    if lines == [] then 0 else if lines[0] == "" then 0 else 1 + FirstEmpty(lines[1..])
  }

  /** `parse_input_file`: the wires before the first empty line and the gates
      after it; None where the source panics. */
  function ParseInput(input: string): (r: Option<(map<Wire, bool>, map<Gate, Wire>)>)
    ensures r.Some? ==> forall g :: g in r.value.1 ==> WellFormed(g) && |r.value.1[g]| > 0
  {
    var lines := Lines(input);
    var k := FirstEmpty(lines);
    if k == |lines| then None
    else
      match (CollectWires(lines[..k]), CollectGates(lines[k + 1..]))
      case (Some(wires), Some(gates)) => Some((wires, gates))
      case _ => None
  }

  /*------------------------------------------------------------------------
    Evaluating the circuit
  ------------------------------------------------------------------------*/

  /** The gate's output wire holds its operation applied to its input wires. */
  predicate Evaluated(wires: map<Wire, bool>, gate: Gate, out: Wire) {
    gate.inputs.0 in wires && gate.inputs.1 in wires && out in wires &&
    wires[out] == Apply(gate.operation, wires[gate.inputs.0], wires[gate.inputs.1])
  }

  /** `queue` lists every gate of the map once, with its output wire. */
  predicate Lists(queue: seq<(Gate, Wire)>, gates: map<Gate, Wire>) {
    (forall i :: 0 <= i < |queue| ==> queue[i].0 in gates && gates[queue[i].0] == queue[i].1) &&
    (forall g :: g in gates ==> exists i :: 0 <= i < |queue| && queue[i].0 == g) &&
    (forall i, j :: 0 <= i < j < |queue| ==> queue[i].0 != queue[j].0)
  }

  /** The worklist of `process_gates`: the front gate is evaluated when both its
      inputs have values, and otherwise goes to the back. `fuel` bounds the
      number of gates taken from the front; None when it runs out. */
  function Process(wires: map<Wire, bool>, queue: seq<(Gate, Wire)>, fuel: nat): Option<map<Wire, bool>>
    decreases fuel
  {
    if queue == [] then Some(wires)
    else if fuel == 0 then None
    else
      var gate := queue[0].0;
      if gate.inputs.0 in wires && gate.inputs.1 in wires then
        var value := Apply(gate.operation, wires[gate.inputs.0], wires[gate.inputs.1]);
        Process(wires[queue[0].1 := value], queue[1..], fuel - 1)
      else
        Process(wires, queue[1..] + [queue[0]], fuel - 1)
  }

  /** `process_gates`: the queue holds the gates in the map's iteration order,
      which the source does not fix; it is returned as `queue`. */
  method ProcessGates(wires: map<Wire, bool>, gates: map<Gate, Wire>, fuel: nat)
    returns (r: Option<map<Wire, bool>>, ghost queue: seq<(Gate, Wire)>)
    ensures Lists(queue, gates)
    ensures r == Process(wires, queue, fuel)
  {
    var remaining := gates.Keys;
    var pending: seq<(Gate, Wire)> := [];
    while remaining != {}
      invariant remaining <= gates.Keys
      invariant forall i :: 0 <= i < |pending| ==>
        pending[i].0 in gates && pending[i].0 !in remaining && gates[pending[i].0] == pending[i].1
      invariant forall g :: g in gates && g !in remaining ==> exists i :: 0 <= i < |pending| && pending[i].0 == g
      invariant forall i, j :: 0 <= i < j < |pending| ==> pending[i].0 != pending[j].0
      decreases remaining
    {
      var gate :| gate in remaining;
      ghost var before := pending;
      pending := pending + [(gate, gates[gate])];
      remaining := remaining - {gate};
      forall g | g in gates && g !in remaining
        ensures exists i :: 0 <= i < |pending| && pending[i].0 == g
      {
        if g == gate {
          assert pending[|pending| - 1].0 == g;
        } else {
          var i :| 0 <= i < |before| && before[i].0 == g;
          assert pending[i] == before[i];
        }
      }
    }
    queue := pending;
    var current := wires;
    var steps: nat := 0;
    while pending != [] && steps < fuel
      invariant steps <= fuel
      invariant Process(wires, queue, fuel) == Process(current, pending, fuel - steps)
      decreases fuel - steps
    {
      var gate, out := pending[0].0, pending[0].1;
      if gate.inputs.0 in current && gate.inputs.1 in current {
        var value := Apply(gate.operation, current[gate.inputs.0], current[gate.inputs.1]);
        current := current[out := value];
        pending := pending[1..];
      } else {
        pending := pending[1..] + [(gate, out)];
      }
      steps := steps + 1;
    }
    if pending == [] {
      r := Some(current);
    } else {
      r := None;
    }
  }

  /** No two entries of the queue drive the same wire. */
  predicate DistinctOutputs(queue: seq<(Gate, Wire)>) {
    forall i, j :: 0 <= i < j < |queue| ==> queue[i].1 != queue[j].1
  }

  lemma RotateDistinct(queue: seq<(Gate, Wire)>)
    requires |queue| > 0 && DistinctOutputs(queue)
    ensures DistinctOutputs(queue[1..] + [queue[0]])
  {
    var rotated := queue[1..] + [queue[0]];
    forall i, j | 0 <= i < j < |rotated|
      ensures rotated[i].1 != rotated[j].1
    {
      if j == |rotated| - 1 {
        assert rotated[j] == queue[0] && rotated[i] == queue[i + 1];
      } else {
        assert rotated[i] == queue[i + 1] && rotated[j] == queue[j + 1];
      }
    }
  }

  /** The invariant behind `ProcessEvaluates`: while no queued gate drives a wire
      that already has a value, values once set never change, so every gate
      evaluated so far (`done`) stays evaluated and the initial wires keep
      their values. */
  lemma {:induction false} ProcessEvaluatesFrom(
    initial: map<Wire, bool>, wires: map<Wire, bool>, queue: seq<(Gate, Wire)>,
    done: set<(Gate, Wire)>, fuel: nat)
    requires forall x :: x in initial ==> x in wires && wires[x] == initial[x]
    requires forall p :: p in done ==> Evaluated(wires, p.0, p.1)
    requires DistinctOutputs(queue)
    requires forall i :: 0 <= i < |queue| ==> queue[i].1 !in wires
    requires Process(wires, queue, fuel).Some?
    ensures var w := Process(wires, queue, fuel).value;
      (forall x :: x in initial ==> x in w && w[x] == initial[x]) &&
      (forall p :: p in done ==> Evaluated(w, p.0, p.1)) &&
      (forall i :: 0 <= i < |queue| ==> Evaluated(w, queue[i].0, queue[i].1))
    decreases fuel
  {
    if queue != [] {
      var gate, out := queue[0].0, queue[0].1;
      var w := Process(wires, queue, fuel).value;
      if gate.inputs.0 in wires && gate.inputs.1 in wires {
        var next := wires[out := Apply(gate.operation, wires[gate.inputs.0], wires[gate.inputs.1])];
        var rest := queue[1..];
        forall p | p in done + {queue[0]}
          ensures Evaluated(next, p.0, p.1)
        {
          if p in done {
            assert Evaluated(wires, p.0, p.1);
          }
        }
        forall i | 0 <= i < |rest|
          ensures rest[i].1 !in next
        {
          assert rest[i] == queue[i + 1];
        }
        ProcessEvaluatesFrom(initial, next, rest, done + {queue[0]}, fuel - 1);
        forall i | 0 <= i < |queue|
          ensures Evaluated(w, queue[i].0, queue[i].1)
        {
          if i > 0 {
            assert queue[i] == rest[i - 1];
          } else {
            assert queue[0] in done + {queue[0]};
          }
        }
      } else {
        var rotated := queue[1..] + [queue[0]];
        RotateDistinct(queue);
        forall i | 0 <= i < |rotated|
          ensures rotated[i].1 !in wires
        {
          if i < |rotated| - 1 {
            assert rotated[i] == queue[i + 1];
          }
        }
        ProcessEvaluatesFrom(initial, wires, rotated, done, fuel - 1);
        forall i | 0 <= i < |queue|
          ensures Evaluated(w, queue[i].0, queue[i].1)
        {
          if i == 0 {
            assert queue[0] == rotated[|rotated| - 1];
          } else {
            assert queue[i] == rotated[i - 1];
          }
        }
      }
    }
  }

  /** When `process_gates` finishes on a circuit where every wire is driven by
      at most one gate and no gate drives an initial wire, the initial wires
      keep their values and every gate's output holds its operation applied to
      its inputs. */
  lemma ProcessEvaluates(wires: map<Wire, bool>, gates: map<Gate, Wire>, queue: seq<(Gate, Wire)>, fuel: nat)
    requires Lists(queue, gates)
    requires forall g :: g in gates ==> gates[g] !in wires
    requires forall g, h :: g in gates && h in gates && g != h ==> gates[g] != gates[h]
    requires Process(wires, queue, fuel).Some?
    ensures var w := Process(wires, queue, fuel).value;
      (forall x :: x in wires ==> x in w && w[x] == wires[x]) &&
      (forall g :: g in gates ==> Evaluated(w, g, gates[g]))
  {
    forall i, j | 0 <= i < j < |queue|
      ensures queue[i].1 != queue[j].1
    {
      assert queue[i].0 != queue[j].0;
    }
    ProcessEvaluatesFrom(wires, wires, queue, {}, fuel);
    var w := Process(wires, queue, fuel).value;
    forall g | g in gates
      ensures Evaluated(w, g, gates[g])
    {
      var i :| 0 <= i < |queue| && queue[i].0 == g;
      assert Evaluated(w, queue[i].0, queue[i].1);
    }
  }

  /** `wire` is an input of some gate still in the queue. */
  predicate Awaits(queue: seq<(Gate, Wire)>, wire: Wire) {
    exists i :: 0 <= i < |queue| && (queue[i].0.inputs.0 == wire || queue[i].0.inputs.1 == wire)
  }

  /** A gate waiting for a wire that has no value and that no queued gate
      drives stays in the queue for ever. */
  lemma {:induction false} ProcessStuck(wires: map<Wire, bool>, queue: seq<(Gate, Wire)>, fuel: nat, wire: Wire)
    requires wire !in wires && Awaits(queue, wire)
    requires forall i :: 0 <= i < |queue| ==> queue[i].1 != wire
    ensures Process(wires, queue, fuel).None?
    decreases fuel
  {
    var k :| 0 <= k < |queue| && (queue[k].0.inputs.0 == wire || queue[k].0.inputs.1 == wire);
    if fuel > 0 {
      var gate, out := queue[0].0, queue[0].1;
      if gate.inputs.0 in wires && gate.inputs.1 in wires {
        var rest := queue[1..];
        assert k > 0 && rest[k - 1] == queue[k];
        forall i | 0 <= i < |rest|
          ensures rest[i].1 != wire
        {
          assert rest[i] == queue[i + 1];
        }
        ProcessStuck(wires[out := Apply(gate.operation, wires[gate.inputs.0], wires[gate.inputs.1])], rest, fuel - 1, wire);
      } else {
        var rotated := queue[1..] + [queue[0]];
        if k == 0 {
          assert rotated[|rotated| - 1] == queue[0];
        } else {
          assert rotated[k - 1] == queue[k];
        }
        forall i | 0 <= i < |rotated|
          ensures rotated[i].1 != wire
        {
          if i < |rotated| - 1 {
            assert rotated[i] == queue[i + 1];
          }
        }
        ProcessStuck(wires, rotated, fuel - 1, wire);
      }
    }
  }

  /** `process_gates` never finishes when a gate needs a wire that has no
      initial value and that no gate drives, however long it runs. */
  lemma ProcessNeverFinishes(wires: map<Wire, bool>, gates: map<Gate, Wire>, queue: seq<(Gate, Wire)>, wire: Wire, fuel: nat)
    requires Lists(queue, gates)
    requires wire !in wires && forall g :: g in gates ==> gates[g] != wire
    requires exists g :: g in gates && (g.inputs.0 == wire || g.inputs.1 == wire)
    ensures Process(wires, queue, fuel).None?
  {
    var g :| g in gates && (g.inputs.0 == wire || g.inputs.1 == wire);
    var i :| 0 <= i < |queue| && queue[i].0 == g;
    assert Awaits(queue, wire);
    ProcessStuck(wires, queue, fuel, wire);
  }

  /*------------------------------------------------------------------------
    Reading a number off the wires
  ------------------------------------------------------------------------*/

  /** `wire_bit`: the characters after the first, as a `u8`. */
  function WireBit(wire: Wire): Option<nat> {
    if |wire| == 0 then None
    else
      match ParseUnsigned(wire[1..])
      case Some(b) => if b < 256 then Some(b) else None
      case None => None
  }

  /** `format!("{c}{:02}", n)`: the letter and the number with at least two digits. */
  function WireName(c: char, n: nat): (w: Wire)
    ensures |w| > 1 && w[0] == c
  {
    [c] + (if n < 10 then "0" else "") + DecimalString(n)
  }

  /** `wire_bit` reads back the number a wire was named with. */
  lemma WireBitOfName(c: char, n: nat)
    requires n < 256
    ensures WireBit(WireName(c, n)) == Some(n)
  {
    var digits := DecimalString(n);
    var suffix := (if n < 10 then "0" else "") + digits;
    assert WireName(c, n)[1..] == suffix;
    DecimalRoundTrip(n);
    DecimalValueAppend(if n < 10 then "0" else "", digits);
    assert DecimalValue(suffix) == n;
  }

  /** Some wire the selector picks holds 1 and is named with bit `b`. */
  ghost predicate BitFrom(wires: map<Wire, bool>, selector: string, b: nat) {
    exists w :: w in wires && StartsWith(w, selector) && wires[w] && WireBit(w) == Some(b)
  }

  /** Some wire the selector picks has no bit number (`unwrap` panics). */
  ghost predicate BadWire(wires: map<Wire, bool>, selector: string) {
    exists w :: w in wires && StartsWith(w, selector) && WireBit(w).None?
  }

  /** What `combine_bits` promises: a panic exactly when a selected wire has
      no bit number, and otherwise the number whose binary digit `b` is 1
      exactly when a selected wire named with `b` holds 1. */
  ghost predicate Combined(r: Option<nat>, wires: map<Wire, bool>, selector: string) {
    (r.None? <==> BadWire(wires, selector)) &&
    (r.Some? ==> forall b: nat :: Bits.TestBit(r.value, b) <==> BitFrom(wires, selector, b))
  }

  /** `combine_bits`: the wires are taken in the map's iteration order, which
      the source does not fix; `Combined` does not depend on it. */
  method CombineBits(wires: map<Wire, bool>, selector: string) returns (r: Option<nat>)
    ensures Combined(r, wires, selector)
  {
    var remaining := wires.Keys;
    var acc: nat := 0;
    forall b: nat
      ensures !Bits.TestBit(acc, b)
    {
      Bits.TestBitZero(b);
    }
    while remaining != {}
      invariant remaining <= wires.Keys
      invariant forall w :: w in wires && w !in remaining && StartsWith(w, selector) ==> WireBit(w).Some?
      invariant forall b: nat :: Bits.TestBit(acc, b) <==>
        exists w :: w in wires && w !in remaining && StartsWith(w, selector) && wires[w] && WireBit(w) == Some(b)
      decreases remaining
    {
      var wire :| wire in remaining;
      remaining := remaining - {wire};
      if StartsWith(wire, selector) {
        var bit := WireBit(wire);
        if bit.None? {
          return None;
        }
        if wires[wire] {
          forall b: nat
            ensures Bits.TestBit(Bits.Or(acc, Bits.Pow2(bit.value)), b) <==> Bits.TestBit(acc, b) || b == bit.value
          {
            Bits.TestBitOr(acc, Bits.Pow2(bit.value), b);
            Bits.TestBitPow2(bit.value, b);
          }
          acc := Bits.Or(acc, Bits.Pow2(bit.value));
        }
      }
    }
    r := Some(acc);
  }

  /** The number `combine_bits` gives is the same whatever the iteration order:
      only one number has the binary digits `Combined` prescribes. */
  lemma CombinedUnique(r: Option<nat>, s: Option<nat>, wires: map<Wire, bool>, selector: string)
    requires Combined(r, wires, selector) && Combined(s, wires, selector)
    ensures r == s
  {
    if r.Some? && s.Some? {
      Bits.BitsDetermine(r.value, s.value);
    }
  }

  /** Part 1: parse, evaluate the gates, and read the `z` wires as a number.
      `fuel` bounds the worklist (see `Process`). */
  method Part1(input: string, fuel: nat) returns (r: Option<nat>, ghost queue: seq<(Gate, Wire)>)
    ensures ParseInput(input).None? ==> r.None?
    ensures ParseInput(input).Some? ==>
      var (wires, gates) := ParseInput(input).value;
      Lists(queue, gates) &&
      (Process(wires, queue, fuel).None? ==> r.None?) &&
      (Process(wires, queue, fuel).Some? ==> Combined(r, Process(wires, queue, fuel).value, "z"))
  {
    var parsed := ParseInput(input);
    if parsed.None? {
      return None, [];
    }
    var (wires, gates) := parsed.value;
    var processed;
    processed, queue := ProcessGates(wires, gates, fuel);
    if processed.None? {
      return None, queue;
    }
    r := CombineBits(processed.value, "z");
  }

  /*------------------------------------------------------------------------
    Finding the crossed wires
  ------------------------------------------------------------------------*/

  /** `order` lists the gates of the map, standing for its iteration order. */
  predicate Covers(order: seq<Gate>, gates: map<Gate, Wire>) {
    (forall i :: 0 <= i < |order| ==> order[i] in gates) && (forall g :: g in gates ==> g in order)
  }

  /** The gate has the operation and `input` as one of its inputs. */
  predicate Touches(g: Gate, input: Wire, op: GateOperation) {
    g.operation == op && (g.inputs.0 == input || g.inputs.1 == input)
  }

  /** `find_gate`: the first gate in `order` with the operation and `input` as
      an input, with its other input and its output wire. */
  function FindGate(gates: map<Gate, Wire>, order: seq<Gate>, input: Wire, op: GateOperation): (r: Option<(Gate, Wire, Wire)>)
    requires forall i :: 0 <= i < |order| ==> order[i] in gates
    ensures r.Some? ==>
      var (g, other, out) := r.value;
      g in gates && gates[g] == out && g.operation == op &&
      (g.inputs == (input, other) || g.inputs == (other, input))
  {
    if order == [] then None
    else
      var g := order[0];
      if g.operation == op && g.inputs.0 == input then Some((g, g.inputs.1, gates[g]))
      else if g.operation == op && g.inputs.1 == input then Some((g, g.inputs.0, gates[g]))
      else FindGate(gates, order[1..], input, op)
  }

  /** `find_gate` finds nothing exactly when no gate it searches has the
      operation and the input. */
  lemma {:induction false} FindGateSearches(gates: map<Gate, Wire>, order: seq<Gate>, input: Wire, op: GateOperation)
    requires forall i :: 0 <= i < |order| ==> order[i] in gates
    ensures FindGate(gates, order, input, op).None? <==> forall i :: 0 <= i < |order| ==> !Touches(order[i], input, op)
  {
    if order != [] && !Touches(order[0], input, op) {
      FindGateSearches(gates, order[1..], input, op);
      assert forall i :: 1 <= i < |order| ==> order[i] == order[1..][i - 1];
    }
  }

  /** With `order` covering the map, `find_gate` finds nothing exactly when no
      gate of the map has the operation and the input. */
  lemma FindGateNone(gates: map<Gate, Wire>, order: seq<Gate>, input: Wire, op: GateOperation)
    requires Covers(order, gates)
    ensures FindGate(gates, order, input, op).None? <==> forall g :: g in gates ==> !Touches(g, input, op)
  {
    FindGateSearches(gates, order, input, op);
    if FindGate(gates, order, input, op).None? {
      forall g | g in gates
        ensures !Touches(g, input, op)
      {
        var i :| 0 <= i < |order| && order[i] == g;
      }
    }
  }

  /** `get_gate`: the gate itself when the map has it; otherwise a gate with the
      same operation sharing one of its inputs, and the pair of wires that
      were crossed: the gate's unmatched input and the found gate's other
      input. None when there is neither (a panic). */
  function GetGate(gates: map<Gate, Wire>, order: seq<Gate>, gate: Gate): (r: Option<(Gate, Wire, Option<(Wire, Wire)>)>)
    requires Covers(order, gates)
    ensures gate in gates ==> r == Some((gate, gates[gate], None))
    ensures r.Some? ==> r.value.0 in gates && gates[r.value.0] == r.value.1 && r.value.0.operation == gate.operation
    ensures r.Some? && gate !in gates ==> (
      r.value.2.Some? &&
      var (a, b) := r.value.2.value;
      var found := r.value.0.inputs;
      (a == gate.inputs.1 && (found == (gate.inputs.0, b) || found == (b, gate.inputs.0))) ||
      (a == gate.inputs.0 && (found == (gate.inputs.1, b) || found == (b, gate.inputs.1))))
  {
    if gate in gates then Some((gate, gates[gate], None))
    else
      match FindGate(gates, order, gate.inputs.0, gate.operation)
      case Some((g, other, out)) => Some((g, out, Some((gate.inputs.1, other))))
      case None =>
        match FindGate(gates, order, gate.inputs.1, gate.operation)
        case Some((g, other, out)) => Some((g, out, Some((gate.inputs.0, other))))
        case None => None
  }

  /** `get_gate` panics exactly when the map has neither the gate nor a gate
      with its operation and one of its inputs. */
  lemma GetGateNone(gates: map<Gate, Wire>, order: seq<Gate>, gate: Gate)
    requires Covers(order, gates)
    ensures GetGate(gates, order, gate).None? <==> (
      gate !in gates &&
      forall g :: g in gates ==> !Touches(g, gate.inputs.0, gate.operation) && !Touches(g, gate.inputs.1, gate.operation))
  {
    FindGateNone(gates, order, gate.inputs.0, gate.operation);
    FindGateNone(gates, order, gate.inputs.1, gate.operation);
  }

  /** In a map of well-formed gates, a crossed pair `get_gate` reports for a
      well-formed gate names two different wires. */
  lemma GetGateCrossedDistinct(gates: map<Gate, Wire>, order: seq<Gate>, gate: Gate)
    requires Covers(order, gates) && WellFormed(gate)
    requires forall g :: g in gates ==> WellFormed(g)
    requires GetGate(gates, order, gate).Some? && GetGate(gates, order, gate).value.2.Some?
    ensures GetGate(gates, order, gate).value.2.value.0 != GetGate(gates, order, gate).value.2.value.1
  {
    var (found, _, pair) := GetGate(gates, order, gate).value;
    if pair.value.0 == pair.value.1 {
      WellFormedUnique(found, gate);
      assert false;
    }
  }

  /** The map as `parse_input_file` builds it: well-formed gates driving
      non-empty wires. */
  predicate Circuit(gates: map<Gate, Wire>) {
    forall g :: g in gates ==> WellFormed(g) && |gates[g]| > 0
  }

  /** The crossed pair `get_gate` reported, if any, as a sequence. */
  function Reported(pair: Option<(Wire, Wire)>): seq<(Wire, Wire)> {
    if pair.Some? then [pair.value] else []
  }

  /** Every pair names two different wires. */
  predicate DistinctPairs(pairs: seq<(Wire, Wire)>) {
    forall p :: p in pairs ==> p.0 != p.1
  }

  /** `[out, z]` when the sum gate drives `out` rather than the expected `z`. */
  function Misrouted(out: Wire, z: Wire): (r: seq<(Wire, Wire)>)
    ensures DistinctPairs(r)
  {
    if out != z then [(out, z)] else []
  }

  /** `get_gate` on the gate with these inputs and operation, with the crossed
      pair it reports proved to name two different wires. */
  function Expect(gates: map<Gate, Wire>, order: seq<Gate>, a: Wire, b: Wire, op: GateOperation): (r: Option<(Wire, seq<(Wire, Wire)>)>)
    requires Covers(order, gates) && Circuit(gates) && |a| > 0 && |b| > 0
    ensures r.Some? ==> |r.value.0| > 0 && DistinctPairs(r.value.1)
    ensures GateFrom(SortedInputs(a, b), op) in gates ==> r == Some((gates[GateFrom(SortedInputs(a, b), op)], []))
  {
    var gate := GateFrom(SortedInputs(a, b), op);
    match GetGate(gates, order, gate)
    case None => None
    case Some((_, out, pair)) =>
      if pair.Some? then
        GetGateCrossedDistinct(gates, order, gate);
        Some((out, Reported(pair)))
      else Some((out, Reported(pair)))
  }

  /** One middle bit of `find_crossed_wires`, with `c` the carry into it: the
      pairs reported, in the order the source pushes them, and the carry out. */
  function BitCrossings(gates: map<Gate, Wire>, order: seq<Gate>, bit: nat, c: Wire): (r: Option<(seq<(Wire, Wire)>, Wire)>)
    requires Covers(order, gates) && Circuit(gates) && |c| > 0
    ensures r.Some? ==> DistinctPairs(r.value.0) && |r.value.1| > 0
  {
    var x, y := WireName('x', bit), WireName('y', bit);
    var xyXor, xyAnd := Expect(gates, order, x, y, Xor), Expect(gates, order, x, y, And);
    if xyXor.None? || xyAnd.None? then None
    else
      var (s, a) := (xyXor.value.0, xyAnd.value.0);
      var zXor, cAnd := Expect(gates, order, s, c, Xor), Expect(gates, order, s, c, And);
      if zXor.None? || cAnd.None? then None
      else
        var cOr := Expect(gates, order, a, cAnd.value.0, Or);
        if cOr.None? then None
        else
          var pairs := xyXor.value.1 + xyAnd.value.1 + zXor.value.1 +
            Misrouted(zXor.value.0, WireName('z', bit)) + cAnd.value.1 + cOr.value.1;
          Some((pairs, cOr.value.0))
  }

  /** The loop over bits `bit` to 44, with the pairs reported so far in `acc`. */
  function MiddleBits(gates: map<Gate, Wire>, order: seq<Gate>, bit: nat, c: Wire, acc: seq<(Wire, Wire)>): (r: Option<(seq<(Wire, Wire)>, Wire)>)
    requires Covers(order, gates) && Circuit(gates) && |c| > 0
    ensures r.Some? && DistinctPairs(acc) ==> DistinctPairs(r.value.0)
    decreases 45 - bit
  {
    if bit >= 45 then Some((acc, c))
    else
      match BitCrossings(gates, order, bit, c)
      case None => None
      case Some((pairs, next)) => MiddleBits(gates, order, bit + 1, next, acc + pairs)
  }

  /** What `find_crossed_wires` reports: the first bit's sum wire, the middle
      bits, and the last carry, which should be `z45`; None where the source
      panics (a missing gate). */
  function CrossedWires(gates: map<Gate, Wire>, order: seq<Gate>): (r: Option<seq<(Wire, Wire)>>)
    requires Covers(order, gates) && Circuit(gates)
    ensures r.Some? ==> DistinctPairs(r.value)
  {
    var xyXor := GateFrom(SortedInputs("x00", "y00"), Xor);
    var xyAnd := GateFrom(SortedInputs("x00", "y00"), And);
    if xyXor !in gates || xyAnd !in gates then None
    else LastBit(MiddleBits(gates, order, 1, gates[xyAnd], Misrouted(gates[xyXor], "z00")))
  }

  /** The last bit: the carry out of bit 44 should be `z45`. */
  function LastBit(middle: Option<(seq<(Wire, Wire)>, Wire)>): (r: Option<seq<(Wire, Wire)>>)
    ensures middle.Some? && DistinctPairs(middle.value.0) ==> r.Some? && DistinctPairs(r.value)
  {
    match middle
    case None => None
    case Some((pairs, last)) => Some(pairs + Misrouted(last, WireName('z', 45)))
  }

  /** `find_crossed_wires`: the gates are searched in `order`, the map's
      iteration order. */
  method FindCrossedWires(gates: map<Gate, Wire>, order: seq<Gate>) returns (r: Option<seq<(Wire, Wire)>>)
    requires Covers(order, gates) && Circuit(gates)
    ensures r == CrossedWires(gates, order)
  {
    var xyXor := GateFrom(SortedInputs("x00", "y00"), Xor);
    var xyAnd := GateFrom(SortedInputs("x00", "y00"), And);
    if xyXor !in gates || xyAnd !in gates {
      return None;
    }
    var crossed: seq<(Wire, Wire)> := [];
    var zOut := gates[xyXor];
    if zOut != "z00" {
      crossed := crossed + [(zOut, "z00")];
    }
    assert crossed == Misrouted(zOut, "z00");
    var c := gates[xyAnd];
    for bit := 1 to 45
      invariant |c| > 0
      invariant CrossedWires(gates, order) == LastBit(MiddleBits(gates, order, bit, c, crossed))
    {
      var step := BitStep(gates, order, bit, c);
      if step.None? {
        return None;
      }
      crossed := crossed + step.value.0;
      c := step.value.1;
    }
    ghost var middle := crossed;
    if c != WireName('z', 45) {
      crossed := crossed + [(c, WireName('z', 45))];
    }
    assert crossed == middle + Misrouted(c, WireName('z', 45));
    r := Some(crossed);
  }

  /** The body of the loop over the middle bits: the five gates of a full
      adder looked up in the order the source looks them up. */
  method BitStep(gates: map<Gate, Wire>, order: seq<Gate>, bit: nat, c: Wire) returns (r: Option<(seq<(Wire, Wire)>, Wire)>)
    requires Covers(order, gates) && Circuit(gates) && |c| > 0
    ensures r == BitCrossings(gates, order, bit, c)
  {
    var x, y, z := WireName('x', bit), WireName('y', bit), WireName('z', bit);
    var xyXor := ExpectGate(gates, order, x, y, Xor);
    var xyAnd := ExpectGate(gates, order, x, y, And);
    if xyXor.None? || xyAnd.None? {
      return None;
    }
    var s, a := xyXor.value.0, xyAnd.value.0;
    var zXor := ExpectGate(gates, order, s, c, Xor);
    var cAnd := ExpectGate(gates, order, s, c, And);
    if zXor.None? || cAnd.None? {
      return None;
    }
    var crossed := xyXor.value.1 + xyAnd.value.1 + zXor.value.1;
    ghost var before := crossed;
    if zXor.value.0 != z {
      crossed := crossed + [(zXor.value.0, z)];
    }
    assert crossed == before + Misrouted(zXor.value.0, z);
    crossed := crossed + cAnd.value.1;
    var cOr := ExpectGate(gates, order, a, cAnd.value.0, Or);
    if cOr.None? {
      return None;
    }
    r := Some((crossed + cOr.value.1, cOr.value.0));
  }

  /** One `get_gate` call of the loop body with the push of the crossed pair
      it reports: the output wire, and the pairs to push. */
  method ExpectGate(gates: map<Gate, Wire>, order: seq<Gate>, a: Wire, b: Wire, op: GateOperation) returns (r: Option<(Wire, seq<(Wire, Wire)>)>)
    requires Covers(order, gates) && Circuit(gates) && |a| > 0 && |b| > 0
    ensures r == Expect(gates, order, a, b, op)
  {
    var found := GetGate(gates, order, GateFrom(SortedInputs(a, b), op));
    if found.None? {
      return None;
    }
    var (_, out, pair) := found.value;
    var pushed: seq<(Wire, Wire)> := [];
    if pair.Some? {
      pushed := pushed + [pair.value];
    }
    assert pushed == Reported(pair);
    r := Some((out, pushed));
    assert Expect(gates, order, a, b, op) == Some((out, Reported(pair)));
  }

  /** The output wire of the map's gate with these inputs and operation. */
  function Lookup(gates: map<Gate, Wire>, a: Wire, b: Wire, op: GateOperation): Option<Wire>
    requires |a| > 0 && |b| > 0
  {
    var g := GateFrom(SortedInputs(a, b), op);
    if g in gates then Some(gates[g]) else None
  }

  /** Bit `bit` of a ripple-carry adder with carry in `c` and carry out `next`:
      x XOR y drives `s`, x AND y drives `a`, s XOR c drives `z`, s AND c
      drives `t` and a OR t drives `next`. */
  predicate FullAdder(gates: map<Gate, Wire>, bit: nat, c: Wire, next: Wire)
    requires |c| > 0
  {
    var x, y := WireName('x', bit), WireName('y', bit);
    var s, a := Lookup(gates, x, y, Xor), Lookup(gates, x, y, And);
    s.Some? && a.Some? && |s.value| > 0 && |a.value| > 0 &&
    var t := Lookup(gates, s.value, c, And);
    Lookup(gates, s.value, c, Xor) == Some(WireName('z', bit)) &&
    t.Some? && |t.value| > 0 && Lookup(gates, a.value, t.value, Or) == Some(next)
  }

  /** A 45-bit ripple-carry adder: a half adder for bit 0, full adders for bits
      1 to 44 chained through `carries`, and the last carry on `z45`. */
  predicate RippleCarryAdder(gates: map<Gate, Wire>, carries: seq<Wire>) {
    |carries| == 46 && (forall i :: 0 <= i < 46 ==> |carries[i]| > 0) &&
    Lookup(gates, "x00", "y00", Xor) == Some("z00") &&
    Lookup(gates, "x00", "y00", And) == Some(carries[1]) &&
    carries[45] == WireName('z', 45) &&
    forall bit :: 1 <= bit < 45 ==> FullAdder(gates, bit, carries[bit], carries[bit + 1])
  }

  lemma {:induction false} MiddleBitsOfAdder(gates: map<Gate, Wire>, order: seq<Gate>, carries: seq<Wire>, bit: nat, acc: seq<(Wire, Wire)>)
    requires Covers(order, gates) && Circuit(gates) && RippleCarryAdder(gates, carries)
    requires 1 <= bit <= 45
    ensures MiddleBits(gates, order, bit, carries[bit], acc) == Some((acc, carries[45]))
    decreases 45 - bit
  {
    if bit < 45 {
      var c := carries[bit];
      assert FullAdder(gates, bit, c, carries[bit + 1]);
      var x, y := WireName('x', bit), WireName('y', bit);
      var s, a := Lookup(gates, x, y, Xor).value, Lookup(gates, x, y, And).value;
      var t := Lookup(gates, s, c, And).value;
      assert Expect(gates, order, x, y, Xor) == Some((s, []));
      assert Expect(gates, order, x, y, And) == Some((a, []));
      assert Expect(gates, order, s, c, Xor) == Some((WireName('z', bit), []));
      assert Expect(gates, order, s, c, And) == Some((t, []));
      assert Expect(gates, order, a, t, Or) == Some((carries[bit + 1], []));
      assert BitCrossings(gates, order, bit, c) == Some(([], carries[bit + 1]));
      assert acc + [] == acc;
      MiddleBitsOfAdder(gates, order, carries, bit + 1, acc);
    }
  }

  /** A circuit that is a correct ripple-carry adder has no crossed wires. */
  lemma AdderHasNoCrossedWires(gates: map<Gate, Wire>, order: seq<Gate>, carries: seq<Wire>)
    requires Covers(order, gates) && Circuit(gates) && RippleCarryAdder(gates, carries)
    ensures CrossedWires(gates, order) == Some([])
  {
    var xyXor := GateFrom(SortedInputs("x00", "y00"), Xor);
    var xyAnd := GateFrom(SortedInputs("x00", "y00"), And);
    assert xyXor in gates && gates[xyXor] == "z00";
    assert xyAnd in gates && gates[xyAnd] == carries[1];
    assert Misrouted(gates[xyXor], "z00") == [];
    MiddleBitsOfAdder(gates, order, carries, 1, []);
    assert Misrouted(carries[45], WireName('z', 45)) == [];
    assert [] + Misrouted(carries[45], WireName('z', 45)) == [];
  }

  /** The wires of the pairs, pair by pair. */
  function Flatten(pairs: seq<(Wire, Wire)>): (ws: seq<Wire>)
    ensures forall w :: w in ws <==> exists i :: 0 <= i < |pairs| && (pairs[i].0 == w || pairs[i].1 == w)
  {
    if pairs == [] then []
    else
      var rest := Flatten(pairs[1..]);
      assert forall i :: 1 <= i < |pairs| ==> pairs[i] == pairs[1..][i - 1];
      [pairs[0].0, pairs[0].1] + rest
  }

  /** Part 2: the crossed wires, without repeats, in ascending order and joined
      with commas. */
  method Part2(input: string) returns (r: Option<string>, ghost order: seq<Gate>)
    ensures ParseInput(input).None? ==> r.None?
    ensures ParseInput(input).Some? ==>
      var gates := ParseInput(input).value.1;
      Covers(order, gates) &&
      match CrossedWires(gates, order)
      case None => r.None?
      case Some(pairs) => r == Some(Join(AscendingSet(Flatten(pairs)), ","))
  {
    var parsed := ParseInput(input);
    if parsed.None? {
      return None, [];
    }
    var gates := parsed.value.1;
    var searched: seq<Gate> := [];
    var remaining := gates.Keys;
    while remaining != {}
      invariant remaining <= gates.Keys
      invariant forall i :: 0 <= i < |searched| ==> searched[i] in gates
      invariant forall g :: g in gates ==> g in searched || g in remaining
      decreases remaining
    {
      var g :| g in remaining;
      searched := searched + [g];
      remaining := remaining - {g};
    }
    order := searched;
    var crossed := FindCrossedWires(gates, searched);
    if crossed.None? {
      return None, order;
    }
    r := Some(Join(AscendingSet(Flatten(crossed.value)), ","));
  }
}
