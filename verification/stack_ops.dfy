// The stack operations of CRPNCalc (RPNCalc.cpp): the shared pop helpers,
// the binary and unary operators, clearing, rotation and the registers.
//
// Operand naming follows the source: a binary operator pops the top into
// `second` and the value beneath it into `first`, and computes
// `first OP second`.

module StackOps {
  import opened CalcTypes

  /** Nothing but the stack differs between `e` and `r`. */
  predicate OnlyStackChanged(e: Engine, r: Engine) {
    r == e.(stack := r.stack)
  }

  /** Nothing but the stack and the error flag differs between `e` and `r`. */
  predicate OnlyStackOrFlagChanged(e: Engine, r: Engine) {
    r == e.(stack := r.stack, error := r.error)
  }

  // ---------------------------------------------------------------------------
  // binary_prep / unary_prep
  // ---------------------------------------------------------------------------

  datatype Popped2 = Popped2(rest: Engine, first: real, second: real) | Underflow2(failed: Engine)

  /**
   * binary_prep: with the error flag clear and at least two values, the
   * original stack is `second` on `first` on the rest; otherwise the flag
   * is set and the stack is left alone.
   */
  function BinaryPrep(e: Engine): (r: Popped2)
    ensures r.Popped2? <==> !e.error && |e.stack| >= 2
    ensures r.Popped2? ==> e.stack == [r.second, r.first] + r.rest.stack && OnlyStackChanged(e, r.rest)
    ensures r.Underflow2? ==> r.failed == e.(error := true)
  {
    if !e.error && |e.stack| >= 2 then
      Popped2(e.(stack := e.stack[2..]), e.stack[1], e.stack[0])
    else
      Underflow2(e.(error := true))
  }

  datatype Popped1 = Popped1(rest: Engine, top: real) | Underflow1(failed: Engine)

  /** unary_prep: pops whenever the stack is non-empty, whatever the error flag says. */
  function UnaryPrep(e: Engine): (r: Popped1)
    ensures r.Popped1? <==> |e.stack| > 0
    ensures r.Popped1? ==> e.stack == [r.top] + r.rest.stack && OnlyStackChanged(e, r.rest)
    ensures r.Underflow1? ==> r.failed == e.(error := true)
  {
    if |e.stack| > 0 then Popped1(e.(stack := e.stack[1..]), e.stack[0])
    else Underflow1(e.(error := true))
  }

  /** The shape shared by add, subtract, multiply and mod. */
  function Binary(e: Engine, op: (real, real) -> real): (r: Engine)
    ensures OnlyStackOrFlagChanged(e, r)
    ensures !e.error && |e.stack| >= 2 ==>
              OnlyStackChanged(e, r) && r.stack == [op(e.stack[1], e.stack[0])] + e.stack[2..]
    ensures e.error || |e.stack| < 2 ==> r == e.(error := true)
  {
    match BinaryPrep(e)
    case Underflow2(failed) => failed
    case Popped2(rest, first, second) => Push(rest, op(first, second))
  }

  /**
   * The shape shared by neg, sqrt and the trigonometric operations: the
   * value is popped even when the error flag was already set, and then
   * only the push is skipped, so the top is lost.
   */
  function Unary(e: Engine, f: real -> real): (r: Engine)
    ensures OnlyStackOrFlagChanged(e, r)
    ensures |e.stack| == 0 ==> r == e.(error := true)
    ensures |e.stack| > 0 && !e.error ==> r == e.(stack := [f(e.stack[0])] + e.stack[1..])
    ensures |e.stack| > 0 && e.error ==> r == e.(stack := e.stack[1..])
  {
    match UnaryPrep(e)
    case Underflow1(failed) => failed
    case Popped1(rest, d) => if rest.error then rest else Push(rest, f(d))
  }

  // ---------------------------------------------------------------------------
  // Arithmetic
  // ---------------------------------------------------------------------------

  /** `[..., a, b]` becomes `[..., a + b]`. */
  function Add(e: Engine): (r: Engine)
    ensures OnlyStackOrFlagChanged(e, r)
    ensures !e.error && |e.stack| >= 2 ==>
              OnlyStackChanged(e, r) && |r.stack| == |e.stack| - 1
              && r.stack[0] == e.stack[1] + e.stack[0] && r.stack[1..] == e.stack[2..]
    ensures e.error || |e.stack| < 2 ==> r == e.(error := true)
  {
    Binary(e, (a, b) => a + b)
  }

  /** `[..., a, b]` becomes `[..., a - b]`. */
  function Subtract(e: Engine): (r: Engine)
    ensures OnlyStackOrFlagChanged(e, r)
    ensures !e.error && |e.stack| >= 2 ==>
              OnlyStackChanged(e, r) && |r.stack| == |e.stack| - 1
              && r.stack[0] == e.stack[1] - e.stack[0] && r.stack[1..] == e.stack[2..]
    ensures e.error || |e.stack| < 2 ==> r == e.(error := true)
  {
    Binary(e, (a, b) => a - b)
  }

  /** `[..., a, b]` becomes `[..., a * b]`. */
  function Multiply(e: Engine): (r: Engine)
    ensures OnlyStackOrFlagChanged(e, r)
    ensures !e.error && |e.stack| >= 2 ==>
              OnlyStackChanged(e, r) && |r.stack| == |e.stack| - 1
              && r.stack[0] == e.stack[1] * e.stack[0] && r.stack[1..] == e.stack[2..]
    ensures e.error || |e.stack| < 2 ==> r == e.(error := true)
  {
    Binary(e, (a, b) => a * b)
  }

  /** `[..., a, b]` becomes `[..., fmod(a, b)]`; a zero divisor is not checked. */
  function Modulo(e: Engine, m: Libm): (r: Engine)
    ensures OnlyStackOrFlagChanged(e, r)
    ensures !e.error && |e.stack| >= 2 ==>
              OnlyStackChanged(e, r) && |r.stack| == |e.stack| - 1
              && r.stack[0] == m.fmod(e.stack[1], e.stack[0]) && r.stack[1..] == e.stack[2..]
    ensures e.error || |e.stack| < 2 ==> r == e.(error := true)
  {
    Binary(e, m.fmod)
  }

  /**
   * divide: a zero divisor restores both operands and sets the error flag.
   * When binary_prep refuses (flag already set, or fewer than two values)
   * the source CLEARS the error flag instead of leaving it set.
   */
  function Divide(e: Engine): (r: Engine)
    ensures OnlyStackOrFlagChanged(e, r)
    ensures e.error || |e.stack| < 2 ==> r == e.(error := false)
    ensures !e.error && |e.stack| >= 2 && e.stack[0] == 0.0 ==> r == e.(error := true)
    ensures !e.error && |e.stack| >= 2 && e.stack[0] != 0.0 ==>
              OnlyStackChanged(e, r) && |r.stack| == |e.stack| - 1
              && r.stack[0] * e.stack[0] == e.stack[1] && r.stack[1..] == e.stack[2..]
  {
    match BinaryPrep(e)
    case Underflow2(failed) => failed.(error := false)
    case Popped2(rest, first, second) =>
      if second == 0.0 then Push(Push(rest, first), second).(error := true)
      else Push(rest, first / second)
  }

  /** exp: `0 ^ 0` restores both operands and sets the error flag. */
  function Power(e: Engine, m: Libm): (r: Engine)
    ensures OnlyStackOrFlagChanged(e, r)
    ensures e.error || |e.stack| < 2 ==> r == e.(error := true)
    ensures !e.error && |e.stack| >= 2 && e.stack[0] == 0.0 && e.stack[1] == 0.0 ==> r == e.(error := true)
    ensures !e.error && |e.stack| >= 2 && !(e.stack[0] == 0.0 && e.stack[1] == 0.0) ==>
              OnlyStackChanged(e, r) && |r.stack| == |e.stack| - 1
              && r.stack[0] == m.pow(e.stack[1], e.stack[0]) && r.stack[1..] == e.stack[2..]
  {
    match BinaryPrep(e)
    case Underflow2(failed) => failed
    case Popped2(rest, first, second) =>
      if first == 0.0 && second == 0.0 then Push(Push(rest, first), second).(error := true)
      else Push(rest, m.pow(first, second))
  }

  /** neg: the top is replaced by its negation. */
  function Negate(e: Engine): (r: Engine)
    ensures OnlyStackOrFlagChanged(e, r)
    ensures |e.stack| == 0 ==> r == e.(error := true)
    ensures |e.stack| > 0 && !e.error ==>
              OnlyStackChanged(e, r) && |r.stack| == |e.stack|
              && r.stack[0] + e.stack[0] == 0.0 && r.stack[1..] == e.stack[1..]
    ensures |e.stack| > 0 && e.error ==> r == e.(stack := e.stack[1..])
  {
    Unary(e, x => -x)
  }

  /** _sqrt: the top is replaced by sqrt(top). */
  function SquareRoot(e: Engine, m: Libm): (r: Engine)
    ensures OnlyStackOrFlagChanged(e, r)
    ensures |e.stack| == 0 ==> r == e.(error := true)
    ensures |e.stack| > 0 && !e.error ==>
              OnlyStackChanged(e, r) && |r.stack| == |e.stack|
              && r.stack[0] == m.sqrt(e.stack[0]) && r.stack[1..] == e.stack[1..]
    ensures |e.stack| > 0 && e.error ==> r == e.(stack := e.stack[1..])
  {
    Unary(e, m.sqrt)
  }

  /** _sin, _cos, _tan: the argument is converted from degrees first in DEG mode. */
  function Forward(e: Engine, f: real -> real): (r: Engine)
    ensures OnlyStackOrFlagChanged(e, r)
    ensures |e.stack| == 0 ==> r == e.(error := true)
    ensures |e.stack| > 0 && !e.error ==>
              OnlyStackChanged(e, r) && |r.stack| == |e.stack| && r.stack[1..] == e.stack[1..]
              && r.stack[0] == (if e.trigmode == Deg then f(Deg2Rad(e.stack[0])) else f(e.stack[0]))
    ensures |e.stack| > 0 && e.error ==> r == e.(stack := e.stack[1..])
  {
    Unary(e, d => if e.trigmode == Deg then f(Deg2Rad(d)) else f(d))
  }

  /** _asin, _acos, _atan: the radian result is converted to degrees in DEG mode. */
  function Inverse(e: Engine, f: real -> real): (r: Engine)
    ensures OnlyStackOrFlagChanged(e, r)
    ensures |e.stack| == 0 ==> r == e.(error := true)
    ensures |e.stack| > 0 && !e.error ==>
              OnlyStackChanged(e, r) && |r.stack| == |e.stack| && r.stack[1..] == e.stack[1..]
              && r.stack[0] == (if e.trigmode == Deg then Rad2Deg(f(e.stack[0])) else f(e.stack[0]))
    ensures |e.stack| > 0 && e.error ==> r == e.(stack := e.stack[1..])
  {
    Unary(e, d => if e.trigmode == Deg then Rad2Deg(f(d)) else f(d))
  }

  // ---------------------------------------------------------------------------
  // Clearing, rotation, registers
  // ---------------------------------------------------------------------------

  /** clearEntry: drops the top if there is one; an empty stack is not an error. */
  function ClearEntry(e: Engine): (r: Engine)
    ensures OnlyStackChanged(e, r)
    ensures |e.stack| == 0 ==> r == e
    ensures |e.stack| > 0 ==> e.stack == [e.stack[0]] + r.stack
  {
    if |e.stack| > 0 then e.(stack := e.stack[1..]) else e
  }

  /** clearAll: pops until empty. */
  function ClearAll(e: Engine): (r: Engine)
    ensures OnlyStackChanged(e, r) && |r.stack| == 0
  {
    e.(stack := [])
  }

  /** rotateDown: the top moves to the bottom. */
  function RotateDown(e: Engine): (r: Engine)
    ensures OnlyStackOrFlagChanged(e, r)
    ensures |e.stack| == 0 ==> r == e.(error := true)
    ensures |e.stack| > 0 ==>
              OnlyStackChanged(e, r) && |r.stack| == |e.stack|
              && r.stack[|r.stack| - 1] == e.stack[0]
              && (forall i :: 0 <= i < |r.stack| - 1 ==> r.stack[i] == e.stack[i + 1])
    ensures multiset(r.stack) == multiset(e.stack)
  {
    if |e.stack| == 0 then e.(error := true)
    else
      assert e.stack == [e.stack[0]] + e.stack[1..];
      SwapHalves([e.stack[0]], e.stack[1..]);
      e.(stack := e.stack[1..] + [e.stack[0]])
  }

  /** rotateUp: the bottom moves to the top. */
  function RotateUp(e: Engine): (r: Engine)
    ensures OnlyStackOrFlagChanged(e, r)
    ensures |e.stack| == 0 ==> r == e.(error := true)
    ensures |e.stack| > 0 ==>
              OnlyStackChanged(e, r) && |r.stack| == |e.stack|
              && r.stack[0] == e.stack[|e.stack| - 1]
              && (forall i :: 1 <= i < |r.stack| ==> r.stack[i] == e.stack[i - 1])
    ensures multiset(r.stack) == multiset(e.stack)
  {
    if |e.stack| == 0 then e.(error := true)
    else
      var n := |e.stack|;
      assert e.stack == e.stack[..n - 1] + [e.stack[n - 1]];
      SwapHalves(e.stack[..n - 1], [e.stack[n - 1]]);
      e.(stack := [e.stack[n - 1]] + e.stack[..n - 1])
  }

  /** Exchanging the two halves of a stack keeps its contents. */
  lemma SwapHalves(a: seq<real>, b: seq<real>)
    ensures multiset(a + b) == multiset(b + a)
  {
  }

  /** getReg: pushes a copy of register `i`, whatever the error flag says. */
  function GetReg(e: Engine, i: Reg): (r: Engine)
    ensures OnlyStackChanged(e, r) && |r.stack| == |e.stack| + 1
    ensures r.stack[0] == e.registers[i] && r.stack[1..] == e.stack
  {
    Push(e, e.registers[i])
  }

  /** setReg: copies the top into register `i` without popping it. */
  function SetReg(e: Engine, i: Reg): (r: Engine)
    ensures |e.stack| == 0 ==> r == e.(error := true)
    ensures |e.stack| > 0 ==>
              r == e.(registers := r.registers)
              && r.registers[i] == e.stack[0]
              && (forall j :: 0 <= j < NUMREGS && j != i ==> r.registers[j] == e.registers[j])
  {
    if |e.stack| > 0 then e.(registers := e.registers[i := e.stack[0]])
    else e.(error := true)
  }

  // ---------------------------------------------------------------------------
  // Relations between operations
  // ---------------------------------------------------------------------------

  /** Pushing a then b and adding leaves a + b on the old stack. */
  lemma AddOfPushes(e: Engine, a: real, b: real)
    requires !e.error
    ensures Add(Push(Push(e, a), b)) == Push(e, a + b)
  {
    var s := Push(Push(e, a), b);
    assert s.stack[2..] == e.stack;
  }

  /** A zero divisor leaves both operands where they were and flags an error. */
  lemma DivideByZeroRestores(e: Engine, a: real)
    requires !e.error
    ensures Divide(Push(Push(e, a), 0.0)) == Push(Push(e, a), 0.0).(error := true)
  {
  }

  /** Likewise `0 ^ 0`. */
  lemma ZeroPowerZeroRestores(e: Engine, m: Libm)
    requires !e.error
    ensures Power(Push(Push(e, 0.0), 0.0), m) == Push(Push(e, 0.0), 0.0).(error := true)
  {
  }

  /** Rotating down and then up is the identity, and so is up then down. */
  lemma RotationsAreInverse(e: Engine)
    requires |e.stack| > 0
    ensures RotateUp(RotateDown(e)) == e
    ensures RotateDown(RotateUp(e)) == e
  {
    var d := RotateDown(e).stack;
    assert RotateUp(RotateDown(e)).stack == e.stack;
    var u := RotateUp(e).stack;
    assert RotateDown(RotateUp(e)).stack == e.stack;
  }

  /** With 1, 2, 3 on the stack (top first), rotating down gives 2, 3, 1 and rotating up restores it. */
  lemma RotateExample(e: Engine)
    requires e.stack == [1.0, 2.0, 3.0]
    ensures RotateDown(e).stack == [2.0, 3.0, 1.0]
    ensures RotateUp(RotateDown(e)) == e
  {
    RotationsAreInverse(e);
  }

  /** Negating twice restores the stack. */
  lemma NegateTwice(e: Engine)
    requires |e.stack| > 0 && !e.error
    ensures Negate(Negate(e)) == e
  {
    assert Negate(Negate(e)).stack == e.stack;
  }

  /** Store to register i, clear the entry, recall register i: the stack is back. */
  lemma RegisterRoundTrip(e: Engine, i: Reg)
    requires |e.stack| > 0
    ensures GetReg(ClearEntry(SetReg(e, i)), i).stack == e.stack
    ensures GetReg(ClearEntry(SetReg(e, i)), i).registers[i] == e.stack[0]
  {
    var s := SetReg(e, i);
    assert ClearEntry(s).stack == e.stack[1..];
  }
}
