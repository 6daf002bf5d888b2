// Shared vocabulary of the RPN calculator engine: the constants and the
// command enumeration of RPNCalc.h, and the engine state record held by
// every CRPNCalc object.

module CalcTypes {

  datatype Option<+T> = None | Some(value: T)

  /** Number of registers (NUMREGS). */
  const NUMREGS: nat := 10

  /** The three constants reachable through the `#e`, `#p` and `#c` escapes. */
  const CONST_E: real := 2.7182818
  const CONST_PI: real := 3.14159265
  const CONST_C: real := 299792458.0

  /** A register index; the dispatcher only ever produces indices in range. */
  type Reg = i: int | 0 <= i < NUMREGS

  /** The register file: always exactly NUMREGS slots. */
  type Registers = rs: seq<real> | |rs| == NUMREGS witness seq(NUMREGS, _ => 0.0)

  datatype TrigMode = Rad | Deg

  /** The operations of the `cmd` enumeration, except NOVAL (which is "no command"). */
  datatype Cmd =
    | Add | Sub | Mult | Div | Exp | Mod | ClearEntry | ClearAll | Down | Up
    | File | Help | Load | Negate | Record | Run | TrigToggle | Exit | Sqrt
    | Cos | Acos | Sin | Asin | Tan | Atan
    | GetReg(getIndex: Reg)
    | SetReg(setIndex: Reg)

  /** Ordinals of the C++ enumeration: NOVAL is 0, GR0..GR9 and SR0..SR9 are contiguous. */
  const NOVAL: nat := 0
  const GR0: nat := 26
  const GR9: nat := 35
  const SR0: nat := 36
  const SR9: nat := 45

  /** The enumerator value the source gives each command. */
  function Ordinal(c: Cmd): (n: nat)
    ensures NOVAL < n <= SR9
    ensures c.GetReg? <==> GR0 <= n <= GR9
    ensures c.SetReg? <==> SR0 <= n <= SR9
  {
    match c
    case Add => 1
    case Sub => 2
    case Mult => 3
    case Div => 4
    case Exp => 5
    case Mod => 6
    case ClearEntry => 7
    case ClearAll => 8
    case Down => 9
    case Up => 10
    case File => 11
    case Help => 12
    case Load => 13
    case Negate => 14
    case Record => 15
    case Run => 16
    case TrigToggle => 17
    case Exit => 18
    case Sqrt => 19
    case Cos => 20
    case Acos => 21
    case Sin => 22
    case Asin => 23
    case Tan => 24
    case Atan => 25
    case GetReg(i) => GR0 + i
    case SetReg(i) => SR0 + i
  }

  /**
   * Decoding an enumerator value the way the dispatcher's switch does:
   * a value in GR0..GR9 (SR0..SR9) selects register `n - GR0` (`n - SR0`).
   */
  function FromOrdinal(n: int): Option<Cmd> {
    if n == 1 then Some(Add)
    else if n == 2 then Some(Sub)
    else if n == 3 then Some(Mult)
    else if n == 4 then Some(Div)
    else if n == 5 then Some(Exp)
    else if n == 6 then Some(Mod)
    else if n == 7 then Some(ClearEntry)
    else if n == 8 then Some(ClearAll)
    else if n == 9 then Some(Down)
    else if n == 10 then Some(Up)
    else if n == 11 then Some(File)
    else if n == 12 then Some(Help)
    else if n == 13 then Some(Load)
    else if n == 14 then Some(Negate)
    else if n == 15 then Some(Record)
    else if n == 16 then Some(Run)
    else if n == 17 then Some(TrigToggle)
    else if n == 18 then Some(Exit)
    else if n == 19 then Some(Sqrt)
    else if n == 20 then Some(Cos)
    else if n == 21 then Some(Acos)
    else if n == 22 then Some(Sin)
    else if n == 23 then Some(Asin)
    else if n == 24 then Some(Tan)
    else if n == 25 then Some(Atan)
    else if GR0 <= n <= GR9 then Some(GetReg(n - GR0))
    else if SR0 <= n <= SR9 then Some(SetReg(n - SR0))
    else None
  }

  /** Every command survives a trip through its enumerator value. */
  lemma OrdinalRoundTrip(c: Cmd)
    ensures FromOrdinal(Ordinal(c)) == Some(c)
  {
  }

  /**
   * The enumerator values are exactly 1..SR9 and decode back to themselves;
   * the register subtraction of the switch always lands in [0, NUMREGS).
   */
  lemma FromOrdinalRoundTrip(n: int)
    ensures FromOrdinal(n).Some? <==> NOVAL < n <= SR9
    ensures FromOrdinal(n).Some? ==> Ordinal(FromOrdinal(n).value) == n
    ensures GR0 <= n <= GR9 ==> 0 <= n - GR0 < NUMREGS
    ensures SR0 <= n <= SR9 ==> 0 <= n - SR0 < NUMREGS
  {
  }

  /** The calculator's library numerics, which the model leaves uninterpreted. */
  datatype Libm = Libm(
    sqrt: real -> real,
    pow: (real, real) -> real,
    fmod: (real, real) -> real,
    sin: real -> real,
    cos: real -> real,
    tan: real -> real,
    asin: real -> real,
    acos: real -> real,
    atan: real -> real)

  /** The state of one CRPNCalc object; the front of `stack` is the top. */
  datatype Engine = Engine(
    stack: seq<real>,
    registers: Registers,
    program: seq<string>,
    error: bool,
    helpOn: bool,
    on: bool,
    programRunning: bool,
    trigmode: TrigMode)

  /** The state the constructor establishes (before it enters the console loop). */
  function Init(on: bool): (e: Engine)
    ensures e.stack == [] && e.program == []
    ensures forall i :: 0 <= i < NUMREGS ==> e.registers[i] == 0.0
    ensures !e.error && e.helpOn && e.on == on && !e.programRunning && e.trigmode == Deg
  {
    Engine([], seq(NUMREGS, _ => 0.0), [], false, true, on, false, Deg)
  }

  function Push(e: Engine, x: real): Engine {
    e.(stack := [x] + e.stack)
  }

  /** Degrees to radians with the calculator's own value of pi. */
  function Deg2Rad(deg: real): (rad: real)
    ensures Rad2Deg(rad) == deg
  {
    deg * CONST_PI / 180.0
  }

  function Rad2Deg(rad: real): real {
    rad * 180.0 / CONST_PI
  }
}
