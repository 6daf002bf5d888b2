// One line of input, end to end (CalcInputMethods.cpp and
// CalcProgramMacroMethods.cpp): parse() classifies the line, cmd_parse()
// normalises a command and dispatches it, and runProgram() feeds the
// program's lines back through parse().
//
// The console answers that recordProgram and loadProgram read while a
// command runs are passed in as a `Console` value; the library numerics
// as a `Libm` value.

module Interpreter {
  import opened CalcTypes
  import opened Lexer
  import opened CommandTable
  import opened ProgramStore
  import StackOps

  /**
   * What the console supplies to a command: the answer to the record
   * prompt and the lines typed while recording, and the content of the
   * file to load (None when it cannot be opened).
   */
  datatype Console = Console(choice: char, typed: seq<string>, file: Option<string>)

  /** The command a line names, when parse() hands it to cmd_parse(). */
  function CommandOf(line: string): (r: Option<Cmd>)
    ensures r.Some? ==> Classify(line) == Command && Spelling(r.value) == Normalize(line)
    ensures Classify(line) == Command && (exists c :: Spelling(c) == Normalize(line)) ==> r.Some?
  {
    if Classify(line) == Command then
      var text := Normalize(line);
      SpelledIsFound(text);
      if Lookup(text).Some? then SpellingOfLookup(text); Lookup(text) else None
    else None
  }

  /** A program line runProgram stops at: its first character is `p` or `P`. */
  function FirstStop(lines: seq<string>): (k: nat)
    ensures k <= |lines|
    ensures forall i :: 0 <= i < k ==> !StartsWithP(lines[i])
    ensures k < |lines| ==> StartsWithP(lines[k])
  {
    if |lines| == 0 || StartsWithP(lines[0]) then 0 else 1 + FirstStop(lines[1..])
  }

  /**
   * A line that can be replayed: running the program again from inside a
   * run never returns, and loading replaces the list being walked.
   */
  predicate Replayable(line: string) {
    CommandOf(line) != Some(Run) && CommandOf(line) != Some(Load)
  }

  /** Every line a run would execute is replayable. */
  predicate ReplaySafe(lines: seq<string>) {
    forall i :: 0 <= i < FirstStop(lines) ==> Replayable(lines[i])
  }

  /** The precondition of running the program of `e`. */
  predicate CanRun(e: Engine) {
    ReplaySafe(e.program) && !e.programRunning
  }

  /** Only the run command recurses; it ranks above every other command. */
  function Rank(c: Option<Cmd>): nat {
    if c == Some(Run) then 2 else 0
  }

  /** What replaying the lines leaves: the engine, and whether any line set the error flag. */
  datatype Replayed = Replayed(engine: Engine, failed: bool)

  /**
   * parse(): a blank line does nothing; a number is pushed; a malformed
   * number or an unknown constant sets the error flag; a constant is pushed,
   * or appended to the program while recording; anything else is a command.
   */
  function Parse(m: Libm, c: Console, e: Engine, line: string): (r: Engine)
    requires CommandOf(line) == Some(Run) ==> CanRun(e)
    ensures CommandOf(line) != Some(Record) ==> r.programRunning == e.programRunning
    ensures CommandOf(line) != Some(Record) && CommandOf(line) != Some(Load) && !Classify(line).Constant?
            ==> r.program == e.program
    decreases Rank(CommandOf(line)), 1
  {
    match Classify(line)
    case Blank => e
    case Number(v) => Push(e, v)
    case BadNumber => e.(error := true)
    case Constant(k) =>
      if !e.programRunning then Push(e, ConstValue(k))
      else e.(program := e.program + [EscapeText(k)])
    case BadConstant => e.(error := true)
    case Command => Dispatch(m, c, e, CommandOf(line))
  }

  /** cmd_parse(): the switch over the command found in the table. */
  function Dispatch(m: Libm, c: Console, e: Engine, cmd: Option<Cmd>): (r: Engine)
    requires cmd == Some(Run) ==> CanRun(e)
    ensures cmd != Some(Record) ==> r.programRunning == e.programRunning
    ensures cmd != Some(Record) && cmd != Some(Load) ==> r.program == e.program
    decreases Rank(cmd), 0
  {
    match cmd
    case None => e.(error := true)
    case Some(Help) => e.(helpOn := !e.helpOn)
    case Some(File) => e
    case Some(Load) => LoadProgram(e, c.file)
    case Some(TrigToggle) => e.(trigmode := if e.trigmode == Rad then Deg else Rad)
    case Some(Record) => RecordProgram(e, c.choice, c.typed)
    case Some(Run) => RunProgram(m, c, e)
    case Some(Exit) => e.(on := false)
    case Some(op) => Calculate(m, e, op)
  }

  /** Nothing but the stack, the registers and the error flag differs between `e` and `r`. */
  predicate OnlyCalcChanged(e: Engine, r: Engine) {
    r == e.(stack := r.stack, registers := r.registers, error := r.error)
  }

  /** The arms of cmd_parse's switch that call a stack operation. */
  function Calculate(m: Libm, e: Engine, op: Cmd): (r: Engine)
    ensures OnlyCalcChanged(e, r)
  {
    match op
    case Add => StackOps.Add(e)
    case Sub => StackOps.Subtract(e)
    case Mult => StackOps.Multiply(e)
    case Div => StackOps.Divide(e)
    case Exp => StackOps.Power(e, m)
    case Mod => StackOps.Modulo(e, m)
    case ClearEntry => StackOps.ClearEntry(e)
    case ClearAll => StackOps.ClearAll(e)
    case Down => StackOps.RotateDown(e)
    case Up => StackOps.RotateUp(e)
    case GetReg(i) => StackOps.GetReg(e, i)
    case SetReg(i) => StackOps.SetReg(e, i)
    case _ => CalculateUnary(m, e, op)
  }

  /** The arms that replace the top of the stack by a function of it. */
  function CalculateUnary(m: Libm, e: Engine, op: Cmd): (r: Engine)
    ensures OnlyCalcChanged(e, r)
  {
    match op
    case Negate => StackOps.Negate(e)
    case Sin => StackOps.Forward(e, m.sin)
    case Asin => StackOps.Inverse(e, m.asin)
    case Cos => StackOps.Forward(e, m.cos)
    case Acos => StackOps.Inverse(e, m.acos)
    case Tan => StackOps.Forward(e, m.tan)
    case Atan => StackOps.Inverse(e, m.atan)
    case Sqrt => StackOps.SquareRoot(e, m)
    case _ => e
  }

  /**
   * runProgram(): replay the program; if any line set the error flag, the
   * flag is set once the run is over.
   */
  function RunProgram(m: Libm, c: Console, e: Engine): (r: Engine)
    requires CanRun(e)
    ensures r.programRunning == e.programRunning && r.program == e.program
    decreases 1, |e.program| + 1
  {
    var done := Replay(m, c, e, e.program);
    if done.failed then done.engine.(error := true) else done.engine
  }

  /**
   * The loop of runProgram(): each line before the first `p`/`P` line is
   * parsed; after each one a set error flag is noted and cleared, so every
   * line runs.
   */
  function Replay(m: Libm, c: Console, e: Engine, lines: seq<string>): (r: Replayed)
    requires ReplaySafe(lines) && !e.programRunning
    ensures r.engine.programRunning == e.programRunning && r.engine.program == e.program
    ensures FirstStop(lines) == 0 ==> r == Replayed(e, false)
    ensures FirstStop(lines) > 0 ==> !r.engine.error
    decreases 1, |lines|
  {
    if |lines| == 0 || StartsWithP(lines[0]) then Replayed(e, false)
    else
      assert Replayable(lines[0]);
      RecordStartsWithP(lines[0]);
      var after := Parse(m, c, e, lines[0]);
      var rest := Replay(m, c, after.(error := false), lines[1..]);
      Replayed(rest.engine, after.error || rest.failed)
  }

  /** The record command is spelt `P`, so a line that names it starts with `p` or `P`. */
  lemma RecordStartsWithP(line: string)
    ensures CommandOf(line) == Some(Record) ==> StartsWithP(line)
  {
    if CommandOf(line) == Some(Record) {
      SpellingOfLookup(Normalize(line));
      assert Normalize(line) == "P";
    }
  }

  // ---------------------------------------------------------------------------
  // Runs, line by line
  // ---------------------------------------------------------------------------

  /** The engine just before line k of a run executes: earlier lines ran and each error was cleared. */
  function Before(m: Libm, c: Console, e: Engine, lines: seq<string>, k: nat): Engine
    requires ReplaySafe(lines) && !e.programRunning && k <= FirstStop(lines)
    decreases k
  {
    if k == 0 then e
    else
      assert Replayable(lines[0]);
      RecordStartsWithP(lines[0]);
      Before(m, c, Parse(m, c, e, lines[0]).(error := false), lines[1..], k - 1)
  }

  /** Line k of a run leaves the error flag set. */
  predicate LineFails(m: Libm, c: Console, e: Engine, lines: seq<string>, k: nat)
    requires ReplaySafe(lines) && !e.programRunning && k < FirstStop(lines)
  {
    assert Replayable(lines[k]);
    Parse(m, c, Before(m, c, e, lines, k), lines[k]).error
  }

  /** Replaying leaves the engine as the lines before the first `p`/`P` line made it. */
  lemma {:induction false} ReplayEndsBefore(m: Libm, c: Console, e: Engine, lines: seq<string>)
    requires ReplaySafe(lines) && !e.programRunning
    ensures Replay(m, c, e, lines).engine == Before(m, c, e, lines, FirstStop(lines))
    decreases |lines|
  {
    if |lines| > 0 && !StartsWithP(lines[0]) {
      assert Replayable(lines[0]);
      RecordStartsWithP(lines[0]);
      ReplayEndsBefore(m, c, Parse(m, c, e, lines[0]).(error := false), lines[1..]);
    }
  }

  /**
   * Replaying runs the lines before the first `p`/`P` line in order, and
   * reports failure exactly when one of them set the error flag.
   */
  lemma {:induction false} ReplayFailedIff(m: Libm, c: Console, e: Engine, lines: seq<string>)
    requires ReplaySafe(lines) && !e.programRunning
    ensures Replay(m, c, e, lines).failed
            <==> exists k :: 0 <= k < FirstStop(lines) && LineFails(m, c, e, lines, k)
    decreases |lines|
  {
    if |lines| > 0 && !StartsWithP(lines[0]) {
      assert Replayable(lines[0]);
      RecordStartsWithP(lines[0]);
      var after := Parse(m, c, e, lines[0]);
      var next := after.(error := false);
      var tail := lines[1..];
      ReplayFailedIff(m, c, next, tail);
      assert LineFails(m, c, e, lines, 0) == after.error;
      forall k | 0 <= k < FirstStop(tail)
        ensures LineFails(m, c, e, lines, k + 1) == LineFails(m, c, next, tail, k)
      {
        assert lines[k + 1] == tail[k];
      }
      if Replay(m, c, e, lines).failed {
        if !after.error {
          var k :| 0 <= k < FirstStop(tail) && LineFails(m, c, next, tail, k);
          assert LineFails(m, c, e, lines, k + 1);
        }
      }
      if exists k :: 0 <= k < FirstStop(lines) && LineFails(m, c, e, lines, k) {
        var k :| 0 <= k < FirstStop(lines) && LineFails(m, c, e, lines, k);
        if k > 0 {
          assert LineFails(m, c, next, tail, k - 1);
        }
      }
    }
  }

  /**
   * After a run the engine is what the executed lines made of it, and,
   * starting from a clear flag, the flag is set exactly when some executed
   * line set it.
   */
  lemma RunErrorIff(m: Libm, c: Console, e: Engine)
    requires CanRun(e)
    ensures RunProgram(m, c, e).(error := false) == Before(m, c, e, e.program, FirstStop(e.program)).(error := false)
    ensures !e.error ==>
              (RunProgram(m, c, e).error
               <==> exists k :: 0 <= k < FirstStop(e.program) && LineFails(m, c, e, e.program, k))
  {
    ReplayEndsBefore(m, c, e, e.program);
    ReplayFailedIff(m, c, e, e.program);
  }

  /** A run never looks at the stop line or anything after it. */
  lemma {:induction false} ReplayStopsAtP(m: Libm, c: Console, e: Engine, lines: seq<string>)
    requires ReplaySafe(lines) && !e.programRunning
    ensures ReplaySafe(lines[..FirstStop(lines)])
            && Replay(m, c, e, lines) == Replay(m, c, e, lines[..FirstStop(lines)])
    decreases |lines|
  {
    var head := lines[..FirstStop(lines)];
    assert FirstStop(head) == FirstStop(lines) by {
      FirstStopOfPrefix(lines);
    }
    if |lines| > 0 && !StartsWithP(lines[0]) {
      assert Replayable(lines[0]);
      RecordStartsWithP(lines[0]);
      var next := Parse(m, c, e, lines[0]).(error := false);
      ReplayStopsAtP(m, c, next, lines[1..]);
      assert head[1..] == lines[1..][..FirstStop(lines[1..])];
      assert head[0] == lines[0];
    }
  }

  /** Cutting the lines at the first stop line does not move it: none remains. */
  lemma {:induction false} FirstStopOfPrefix(lines: seq<string>)
    ensures FirstStop(lines[..FirstStop(lines)]) == FirstStop(lines)
    decreases |lines|
  {
    if |lines| > 0 && !StartsWithP(lines[0]) {
      FirstStopOfPrefix(lines[1..]);
      assert lines[..FirstStop(lines)][1..] == lines[1..][..FirstStop(lines[1..])];
    }
  }
}
