// Whole lines through parse(): what typing a line does to the engine, and
// worked examples.

module Properties {
  import opened CalcTypes
  import opened Lexer
  import opened CommandTable
  import opened ProgramStore
  import opened Interpreter
  import StackOps

  // ---------------------------------------------------------------------------
  // Commands typed by their spelling
  // ---------------------------------------------------------------------------

  /**
   * A spelling that parse() hands to cmd_parse() unchanged: it is not a
   * number, not a constant escape, holds no terminator, and normalisation
   * leaves every character alone.
   */
  predicate PlainSpelling(s: string) {
    && |s| > 0
    && !IsDigit(s[0]) && s[0] != '.' && s[0] != '#'
    && (s[0] == '-' || s[0] == '+' ==> |s| == 1)
    && forall i :: 0 <= i < |s| ==> s[i] != '\n' && NormChar(s[i]) == s[i]
  }

  /** Every spelling in the table is plain. */
  lemma SpellingIsPlain(cmd: Cmd)
    ensures PlainSpelling(Spelling(cmd))
  {
    if cmd.GetReg? || cmd.SetReg? {
      var s := Spelling(cmd);
      assert s[1] == RegDigit(if cmd.GetReg? then cmd.getIndex else cmd.setIndex);
    }
  }

  /** Normalising a plain spelling followed by the terminator gives the spelling back. */
  lemma NormalizePlain(s: string)
    requires PlainSpelling(s)
    ensures Normalize(s + "\n") == s
  {
    var line := s + "\n";
    var r := Normalize(line);
    assert line[|s|] == '\n';
    forall i | 0 <= i < |s|
      ensures line[i] == s[i]
    {
    }
    assert |r| == |s|;
  }

  /** A plain spelling followed by the terminator is a command line naming that spelling. */
  lemma PlainLineIsCommand(s: string)
    requires PlainSpelling(s)
    ensures Classify(s + "\n") == Command
    ensures CommandOf(s + "\n") == Lookup(s)
  {
    var line := s + "\n";
    assert line[0] == s[0];
    assert line[|s|] == '\n';
    assert !SignConsumed(line);
    assert BodyStart(line) == 0;
    NormalizePlain(s);
  }

  /** Typing a command's spelling performs that command. */
  lemma TypedCommand(m: Libm, c: Console, e: Engine, cmd: Cmd)
    requires cmd == Run ==> CanRun(e)
    ensures CommandOf(Spelling(cmd) + "\n") == Some(cmd)
    ensures Parse(m, c, e, Spelling(cmd) + "\n") == Dispatch(m, c, e, Some(cmd))
  {
    SpellingIsPlain(cmd);
    PlainLineIsCommand(Spelling(cmd));
    LookupSpelling(cmd);
  }

  /** The same, for a line written out literally. */
  lemma TypedLine(m: Libm, c: Console, e: Engine, cmd: Cmd, line: string)
    requires line == Spelling(cmd) + "\n"
    requires cmd == Run ==> CanRun(e)
    ensures CommandOf(line) == Some(cmd)
    ensures Parse(m, c, e, line) == Dispatch(m, c, e, Some(cmd))
  {
    TypedCommand(m, c, e, cmd);
  }

  /** parse() does not care about letter case: `sqrt`, `Sqrt` and `SQRT` do the same. */
  lemma ParseIgnoresCase(m: Libm, c: Console, e: Engine, a: string, b: string)
    requires SameUpToCase(a, b)
    requires CommandOf(a) == Some(Run) ==> CanRun(e)
    ensures CommandOf(a) == CommandOf(b)
    ensures Parse(m, c, e, a) == Parse(m, c, e, b)
  {
    ClassifyIgnoresCase(a, b);
    NormalizeIgnoresCase(a, b);
  }

  /** A command line whose normalised text is no spelling in the table only sets the error flag. */
  lemma UnknownCommandSetsError(m: Libm, c: Console, e: Engine, line: string)
    requires Classify(line) == Command
    requires forall cmd :: Spelling(cmd) != Normalize(line)
    ensures CommandOf(line) == None && Parse(m, c, e, line) == e.(error := true)
  {
    if Lookup(Normalize(line)).Some? {
      SpellingOfLookup(Normalize(line));
    }
  }

  /** `ZZZ` is no command: the stack is untouched and the error flag is set. */
  lemma UnknownWordExample(m: Libm, c: Console, e: Engine)
    ensures CommandOf("ZZZ\n") == None && Parse(m, c, e, "ZZZ\n") == e.(error := true)
  {
    var line := "ZZZ\n";
    assert Classify(line) == Command by {
      assert line[0] == 'Z' && line[1] == 'Z';
      assert BodyStart(line) == 0;
    }
    assert Normalize(line) == "ZZZ" by {
      assert Normalize(line[3..]) == "";
      assert line[1..][1..] == line[2..] && line[2..][1..] == line[3..];
    }
    assert Lookup("ZZZ") == None;
  }

  /** `h` and `H` toggle the help menu; nothing else changes. */
  lemma HelpToggles(m: Libm, c: Console, e: Engine)
    ensures CommandOf("h\n") == Some(Help) && CommandOf("H\n") == Some(Help)
    ensures Parse(m, c, e, "h\n") == e.(helpOn := !e.helpOn)
    ensures Parse(m, c, e, "H\n") == e.(helpOn := !e.helpOn)
  {
    TypedCommand(m, c, e, Help);
    assert Spelling(Help) + "\n" == "H\n";
    ParseIgnoresCase(m, c, e, "h\n", "H\n");
  }

  /** `x` turns the calculator off, which ends the console loop. */
  lemma ExitStops(m: Libm, c: Console, e: Engine)
    ensures CommandOf("x\n") == Some(Exit)
    ensures !Parse(m, c, e, "x\n").on
    ensures Parse(m, c, e, "x\n") == e.(on := false)
  {
    TypedCommand(m, c, e, Exit);
    assert Spelling(Exit) + "\n" == "X\n";
    ParseIgnoresCase(m, c, e, "x\n", "X\n");
  }

  /** `t` switches between degrees and radians; nothing else changes. */
  lemma TrigToggles(m: Libm, c: Console, e: Engine)
    ensures CommandOf("t\n") == Some(TrigToggle)
    ensures Parse(m, c, e, "t\n") == e.(trigmode := if e.trigmode == Deg then Rad else Deg)
  {
    TypedLine(m, c, e, TrigToggle, "T\n");
    ParseIgnoresCase(m, c, e, "t\n", "T\n");
  }

  /** A lone `-` subtracts and a lone `+` adds: without a number after it, a sign is a command. */
  lemma LoneSignsAreOperators(m: Libm, c: Console, e: Engine)
    ensures CommandOf("-\n") == Some(Sub) && CommandOf("+\n") == Some(Add)
    ensures Parse(m, c, e, "-\n") == StackOps.Subtract(e)
    ensures Parse(m, c, e, "+\n") == StackOps.Add(e)
  {
    TypedCommand(m, c, e, Sub);
    TypedCommand(m, c, e, Add);
    assert Spelling(Sub) + "\n" == "-\n";
    assert Spelling(Add) + "\n" == "+\n";
  }

  // ---------------------------------------------------------------------------
  // Numbers and constants
  // ---------------------------------------------------------------------------

  /** A blank line changes nothing. */
  lemma BlankLineIsNoOp(m: Libm, c: Console, e: Engine)
    ensures Classify("\n") == Blank && Parse(m, c, e, "\n") == e
  {
  }

  /** A well-formed numeric line pushes its value, whatever the mode. */
  lemma NumberLinePushes(m: Libm, c: Console, e: Engine, l: Literal)
    requires ValidLiteral(l)
    ensures Classify(Render(l) + "\n").Number?
    ensures Parse(m, c, e, Render(l) + "\n") == Push(e, LiteralValue(l))
  {
    ClassifyRendered(l);
  }

  /** A number followed by anything else before the terminator only sets the error flag. */
  lemma TrailingJunkSetsError(m: Libm, c: Console, e: Engine, l: Literal, junk: string)
    requires ValidLiteral(l) && |junk| > 0 && junk[0] != '\n' && !IsDigit(junk[0])
    requires l.frac.None? ==> junk[0] != '.'
    ensures Classify(Render(l) + junk + "\n") == BadNumber
    ensures Parse(m, c, e, Render(l) + junk + "\n") == e.(error := true)
  {
    ClassifyRenderedJunk(l, junk);
  }

  /**
   * A constant escape pushes the constant, or, while recording, is stored
   * in the program as its two-character text. The rest of the line is ignored.
   */
  lemma EscapeLine(m: Libm, c: Console, e: Engine, k: Const, rest: string)
    ensures Classify(EscapeText(k) + rest) == Constant(k)
    ensures !e.programRunning ==> Parse(m, c, e, EscapeText(k) + rest) == Push(e, ConstValue(k))
    ensures e.programRunning ==>
              Parse(m, c, e, EscapeText(k) + rest) == e.(program := e.program + [EscapeText(k)])
  {
    var letter := EscapeText(k)[1];
    assert EscapeText(k) + rest == "#" + [letter] + rest;
    ConstantIgnoresRest(letter, rest, rest);
  }

  /** `#` followed by any letter other than e, p or c is an error. */
  lemma UnknownEscapeSetsError(m: Libm, c: Console, e: Engine, letter: char, rest: string)
    requires Lower(letter) != 'e' && Lower(letter) != 'p' && Lower(letter) != 'c'
    ensures Classify("#" + [letter] + rest) == BadConstant
    ensures Parse(m, c, e, "#" + [letter] + rest) == e.(error := true)
  {
    ConstantIgnoresRest(letter, rest, rest);
  }

  // ---------------------------------------------------------------------------
  // Worked examples
  // ---------------------------------------------------------------------------

  /** A line holding one digit reads as that digit's value. */
  lemma DigitClassify(d: char)
    requires IsDigit(d)
    ensures Classify([d, '\n']) == Number(DigitValue(d) as real)
  {
    var l := Literal(Unsigned, false, [d], None);
    assert DigitsValue([d]) == DigitValue(d);
    assert Render(l) + "\n" == [d, '\n'];
    ClassifyRendered(l);
  }

  /** A line holding one digit pushes that digit's value. */
  lemma DigitLine(m: Libm, c: Console, e: Engine, d: char)
    requires IsDigit(d)
    ensures Classify([d, '\n']).Number?
    ensures Parse(m, c, e, [d, '\n']) == Push(e, DigitValue(d) as real)
  {
    DigitClassify(d);
  }

  /** The program of the record-and-run example. */
  const SumProgram: seq<string> := ["2\n", "3\n", "+\n"]

  /** Choosing a new program and typing `2`, `3`, `+`, then `P`, records exactly those three lines. */
  lemma RecordExample(m: Libm, e: Engine)
    requires !e.error && !e.programRunning
    ensures CommandOf("P\n") == Some(Record)
    ensures var recorded := Parse(m, Console('N', ["2", "3", "+", "P"], None), e, "P\n");
            recorded == e.(program := SumProgram)
  {
    var c := Console('N', ["2", "3", "+", "P"], None);
    TypedCommand(m, c, e, Record);
    assert Spelling(Record) + "\n" == "P\n";
    assert FirstEnd(c.typed) == 3 by {
      assert EndsRecording(c.typed[3]);
      assert !EndsRecording(c.typed[0]) && !EndsRecording(c.typed[1]) && !EndsRecording(c.typed[2]);
    }
    assert c.typed[..3] == ["2", "3", "+"];
    assert "2" + "\n" == "2\n" && "3" + "\n" == "3\n" && "+" + "\n" == "+\n";
    assert Terminated(c.typed[..3]) == SumProgram;
  }

  /** The recorded lines hold no stop line, and none of them is a run or a load. */
  lemma SumProgramIsSafe()
    ensures FirstStop(SumProgram) == 3 && ReplaySafe(SumProgram)
  {
    var p := SumProgram;
    assert FirstStop(p[1..][1..][1..]) == 0;
    assert FirstStop(p) == 3;
    forall i | 0 <= i < 3
      ensures Replayable(p[i])
    {
      if i == 0 {
        DigitClassify('2');
      } else if i == 1 {
        DigitClassify('3');
      } else {
        SpellingIsPlain(Add);
        PlainLineIsCommand("+");
      }
    }
  }

  /** Replaying the three recorded lines from a clear flag leaves the sum on top. */
  lemma ReplaySum(m: Libm, c: Console, e: Engine)
    requires !e.error && !e.programRunning
    ensures FirstStop(SumProgram) == 3 && ReplaySafe(SumProgram)
    ensures Replay(m, c, e, SumProgram) == Replayed(Push(e, 5.0), false)
  {
    var p := SumProgram;
    SumProgramIsSafe();
    DigitLine(m, c, e, '2');
    DigitLine(m, c, Push(e, 2.0), '3');
    TypedLine(m, c, Push(Push(e, 2.0), 3.0), Add, "+\n");
    StackOps.AddOfPushes(e, 2.0, 3.0);
    assert p[1..][1..][1..] == [];
  }

  /** Running the recorded sum on an empty stack leaves 5 and no error. */
  lemma RunExample(m: Libm, c: Console, e: Engine)
    requires e.program == SumProgram && e.stack == [] && !e.error && !e.programRunning
    ensures CommandOf("R\n") == Some(Run) && CanRun(e)
    ensures Parse(m, c, e, "R\n") == e.(stack := [5.0])
  {
    ReplaySum(m, c, e);
    TypedCommand(m, c, e, Run);
    assert Spelling(Run) + "\n" == "R\n";
  }

  /**
   * Record `2`, `3`, `+` as a new program, then run it on an empty stack
   * with the flag clear: 5 is left on top.
   */
  lemma RecordAndRunExample(m: Libm, e: Engine)
    requires e.stack == [] && !e.error && !e.programRunning
    ensures var c := Console('N', ["2", "3", "+", "P"], None);
            var recorded := Parse(m, c, e, "P\n");
            && recorded.program == SumProgram
            && CanRun(recorded)
            && Parse(m, c, recorded, "R\n").stack == [5.0]
            && !Parse(m, c, recorded, "R\n").error
  {
    var c := Console('N', ["2", "3", "+", "P"], None);
    RecordExample(m, e);
    RunExample(m, c, Parse(m, c, e, "P\n"));
  }
}
