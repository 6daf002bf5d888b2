// The program buffer (CalcProgramMacroMethods.cpp): recording typed lines,
// and the file format shared by saving and loading.
//
// A program is a sequence of text lines. Recording and loading both put a
// `'\n'` at the end of every line they store; saving writes the lines one
// after the other, so the file is their concatenation.

module ProgramStore {
  import opened CalcTypes
  import opened Lexer

  // ---------------------------------------------------------------------------
  // Recording
  // ---------------------------------------------------------------------------

  /** A typed line (without its terminator) that ends recording: it begins with `p` or `P`. */
  predicate EndsRecording(typed: string) {
    StartsWithP(typed + "\n")
  }

  /** Each typed line as the recorder stores it, with the terminator added. */
  function Terminated(typed: seq<string>): (r: seq<string>)
    ensures |r| == |typed|
    ensures forall i :: 0 <= i < |typed| ==> r[i] == typed[i] + "\n"
  {
    if |typed| == 0 then [] else [typed[0] + "\n"] + Terminated(typed[1..])
  }

  /** How many typed lines come before the first one that ends recording. */
  function FirstEnd(typed: seq<string>): (k: nat)
    ensures k <= |typed|
    ensures forall i :: 0 <= i < k ==> !EndsRecording(typed[i])
    ensures k < |typed| ==> EndsRecording(typed[k])
  {
    if |typed| == 0 || EndsRecording(typed[0]) then 0 else 1 + FirstEnd(typed[1..])
  }

  /** What the recording loop leaves behind: the program, and whether it is still recording. */
  datatype Recorded = Recorded(program: seq<string>, recording: bool)

  /**
   * The recording loop as a fold over the typed lines: every line before
   * the first `p`/`P` line is appended with its terminator; that line stops
   * the loop and is not stored. When the lines run out first, recording is
   * still on.
   */
  function RecordLines(program: seq<string>, typed: seq<string>): (r: Recorded)
    ensures r.program == program + Terminated(typed[..FirstEnd(typed)])
    ensures r.recording <==> FirstEnd(typed) == |typed|
    decreases |typed|
  {
    if |typed| == 0 then Recorded(program, true)
    else if EndsRecording(typed[0]) then Recorded(program, false)
    else
      var r := RecordLines(program + [typed[0] + "\n"], typed[1..]);
      assert typed[..FirstEnd(typed)] == [typed[0]] + typed[1..][..FirstEnd(typed[1..])];
      r
  }

  /**
   * recordProgram: the choice `N`/`n` starts a new program, `C`/`c`
   * continues the current one, and anything else sets the error flag.
   * Recording only starts when the flag is clear after the choice.
   */
  function RecordProgram(e: Engine, choice: char, typed: seq<string>): (r: Engine)
    ensures Upper(choice) != 'N' && Upper(choice) != 'C' ==> r == e.(error := true)
    ensures !e.error && (Upper(choice) == 'N' || Upper(choice) == 'C') ==>
              var kept := if Upper(choice) == 'N' then [] else e.program;
              && r == e.(program := r.program, programRunning := r.programRunning)
              && r.program == kept + Terminated(typed[..FirstEnd(typed)])
              && (r.programRunning <==> FirstEnd(typed) == |typed|)
    ensures e.error && Upper(choice) == 'N' ==> r == e.(program := [])
    ensures e.error && Upper(choice) == 'C' ==> r == e
  {
    var chosen :=
      if Upper(choice) == 'N' then e.(program := [])
      else if Upper(choice) == 'C' then e
      else e.(error := true);
    if chosen.error then chosen
    else
      var rec := RecordLines(chosen.program, typed);
      chosen.(program := rec.program, programRunning := rec.recording)
  }

  // ---------------------------------------------------------------------------
  // The file format
  // ---------------------------------------------------------------------------

  /** saveToFile writes every line in order and nothing else. */
  /** Every line is empty. */
  predicate AllEmpty(program: seq<string>) {
    forall i :: 0 <= i < |program| ==> program[i] == ""
  }

  function Save(program: seq<string>): (t: string)
    ensures t == "" <==> AllEmpty(program)
    ensures |program| > 0 ==> program[0] <= t
    ensures |program| == 1 ==> t == program[0]
  {
    if |program| == 0 then "" else program[0] + Save(program[1..])
  }

  /** Saving a program with one more line in front writes that line first. */
  lemma SaveCons(l: string, p: seq<string>)
    ensures Save([l] + p) == l + Save(p)
  {
    assert ([l] + p)[0] == l && ([l] + p)[1..] == p;
  }

  /** Saving two programs one after the other writes the same text as saving them joined. */
  lemma {:induction false} SaveConcat(p: seq<string>, q: seq<string>)
    ensures Save(p + q) == Save(p) + Save(q)
    decreases |p|
  {
    if |p| == 0 {
      assert p + q == q;
    } else {
      var a, r := p[0], p[1..];
      assert p == [a] + r;
      assert p + q == [a] + (r + q);
      SaveCons(a, r);
      SaveCons(a, r + q);
      SaveConcat(r, q);
      assert a + (Save(r) + Save(q)) == (a + Save(r)) + Save(q);
    }
  }

  /** No line terminator after the first character. */
  predicate NoBreakAfterFirst(s: string) {
    forall i :: 1 <= i < |s| ==> s[i] != '\n'
  }

  /**
   * A line loadProgram can produce: at least one character, then a single
   * terminator at the end and none in between (the first character may
   * itself be a `'\n'`).
   */
  predicate WellFormedLine(l: string) {
    |l| >= 2 && l[|l| - 1] == '\n' && NoBreakAfterFirst(l[..|l| - 1])
  }

  /** Where the chunk starting at the front of `t` ends: the first `'\n'` after the first character. */
  function NextBreak(t: string, i: nat): (k: nat)
    requires 1 <= i <= |t|
    ensures i <= k <= |t|
    ensures forall j :: i <= j < k ==> t[j] != '\n'
    ensures k < |t| ==> t[k] == '\n'
    decreases |t| - i
  {
    if i == |t| || t[i] == '\n' then i else NextBreak(t, i + 1)
  }

  /**
   * The loading loop: read one character, and whenever the next character
   * is a `'\n'`, read it too and close the line. Characters after the last
   * closed line are dropped at end of file.
   */
  function SplitLines(t: string): (lines: seq<string>)
    ensures forall i :: 0 <= i < |lines| ==> WellFormedLine(lines[i])
    ensures Save(lines) <= t
    ensures NoBreakAfterFirst(t[|Save(lines)|..])
    decreases |t|
  {
    if |t| == 0 then []
    else
      var k := NextBreak(t, 1);
      if k == |t| then []
      else
        var rest := SplitLines(t[k + 1..]);
        CloseLine(t, k, rest);
        [t[..k + 1]] + rest
  }

  /** Closing the first chunk at the break `k` gives a well-formed line, which is saved ahead of the rest. */
  lemma CloseLine(t: string, k: nat, rest: seq<string>)
    requires 1 <= k < |t| && t[k] == '\n'
    requires forall j :: 1 <= j < k ==> t[j] != '\n'
    requires Save(rest) <= t[k + 1..]
    ensures WellFormedLine(t[..k + 1])
    ensures Save([t[..k + 1]] + rest) <= t
    ensures t[|Save([t[..k + 1]] + rest)|..] == t[k + 1..][|Save(rest)|..]
  {
    ChunkWellFormed(t, k);
    var l := t[..k + 1];
    SaveCons(l, rest);
    PrefixAfter(t, k + 1, Save(rest));
  }

  /** The chunk up to and including the break `k` is a well-formed line. */
  lemma ChunkWellFormed(t: string, k: nat)
    requires 1 <= k < |t| && t[k] == '\n'
    requires forall j :: 1 <= j < k ==> t[j] != '\n'
    ensures WellFormedLine(t[..k + 1])
  {
    assert t[..k + 1][..k] == t[..k];
  }

  /** A prefix of what follows position `n` extends the first `n` characters to a prefix of the whole. */
  lemma PrefixAfter(t: string, n: nat, u: string)
    requires n <= |t| && u <= t[n..]
    ensures t[..n] + u <= t
    ensures t[|t[..n] + u|..] == t[n..][|u|..]
  {
    assert (t[..n] + u)[..n] == t[..n];
    forall i | n <= i < n + |u|
      ensures (t[..n] + u)[i] == t[i]
    {
      assert u[i - n] == t[n..][i - n];
    }
  }

  /**
   * loadProgram: when the file cannot be opened nothing changes; otherwise
   * the program is replaced by the lines of the file.
   */
  function LoadProgram(e: Engine, file: Option<string>): (r: Engine)
    ensures file.None? ==> r == e
    ensures file.Some? ==>
              && r == e.(program := r.program)
              && (forall i :: 0 <= i < |r.program| ==> WellFormedLine(r.program[i]))
              && |Save(r.program)| <= |file.value|
              && file.value == Save(r.program) + file.value[|Save(r.program)|..]
              && NoBreakAfterFirst(file.value[|Save(r.program)|..])
  {
    if file.None? then e
    else
      var lines := SplitLines(file.value);
      assert file.value == Save(lines) + file.value[|Save(lines)|..];
      e.(program := lines)
  }

  /** A text with no terminator after its first character holds no complete line. */
  lemma NoLineIn(rest: string)
    requires NoBreakAfterFirst(rest)
    ensures SplitLines(rest) == []
  {
    if |rest| > 0 {
      var k := NextBreak(rest, 1);
      assert k == |rest|;
    }
  }

  /** The chunk ends at the first terminator after position i, wherever that is. */
  lemma {:induction false} NextBreakAt(t: string, i: nat, k: nat)
    requires 1 <= i <= k < |t| && t[k] == '\n'
    requires forall j :: i <= j < k ==> t[j] != '\n'
    ensures NextBreak(t, i) == k
    decreases k - i
  {
    if i < k {
      NextBreakAt(t, i + 1, k);
    }
  }

  /** The first line of a saved program is the first chunk the loader closes. */
  lemma FirstChunk(l: string, more: string)
    requires WellFormedLine(l)
    ensures NextBreak(l + more, 1) == |l| - 1
  {
    var t := l + more;
    forall j | 1 <= j < |l| - 1
      ensures t[j] != '\n'
    {
      assert t[j] == l[..|l| - 1][j];
    }
    NextBreakAt(t, 1, |l| - 1);
  }

  /**
   * Loading undoes saving followed by any leftover the loader drops: the
   * lines come back exactly when each is well formed.
   */
  lemma {:induction false} LoadAfterSave(p: seq<string>, rest: string)
    requires forall i :: 0 <= i < |p| ==> WellFormedLine(p[i])
    requires NoBreakAfterFirst(rest)
    ensures SplitLines(Save(p) + rest) == p
    decreases |p|
  {
    if |p| == 0 {
      assert Save(p) + rest == rest;
      NoLineIn(rest);
    } else {
      var more := Save(p[1..]) + rest;
      assert Save(p) + rest == p[0] + more;
      SplitFirstLine(p[0], more);
      LoadAfterSave(p[1..], rest);
    }
  }

  /** A well-formed line at the front of the text is the first line loaded. */
  lemma SplitFirstLine(l: string, more: string)
    requires WellFormedLine(l)
    ensures SplitLines(l + more) == [l] + SplitLines(more)
  {
    var t := l + more;
    FirstChunk(l, more);
    assert t[..|l|] == l;
    assert t[|l|..] == more;
  }

  /** Save then load returns the program if and only if every line is well formed. */
  lemma SaveLoadRoundTrip(p: seq<string>)
    ensures SplitLines(Save(p)) == p <==> forall i :: 0 <= i < |p| ==> WellFormedLine(p[i])
  {
    if forall i :: 0 <= i < |p| ==> WellFormedLine(p[i]) {
      assert Save(p) + "" == Save(p);
      LoadAfterSave(p, "");
    }
  }

  /** A typed line is stored well formed when it is non-empty and holds no terminator. */
  lemma TypedLineWellFormed(typed: string)
    ensures WellFormedLine(typed + "\n") <==> |typed| > 0 && NoBreakAfterFirst(typed)
  {
    assert (typed + "\n")[..|typed|] == typed;
  }

  /**
   * A program recorded from non-empty typed lines (a typed line never holds
   * a terminator) survives saving and loading, provided what it continued did.
   */
  lemma RecordedProgramSurvivesSave(e: Engine, choice: char, typed: seq<string>)
    requires !e.error && (Upper(choice) == 'N' || Upper(choice) == 'C')
    requires Upper(choice) == 'C' ==> forall i :: 0 <= i < |e.program| ==> WellFormedLine(e.program[i])
    requires forall i :: 0 <= i < |typed| ==> |typed[i]| > 0 && NoBreakAfterFirst(typed[i])
    ensures var r := RecordProgram(e, choice, typed);
            SplitLines(Save(r.program)) == r.program
  {
    var r := RecordProgram(e, choice, typed);
    var kept := if Upper(choice) == 'N' then [] else e.program;
    var added := Terminated(typed[..FirstEnd(typed)]);
    forall i | 0 <= i < |added|
      ensures WellFormedLine(added[i])
    {
      TypedLineWellFormed(typed[i]);
    }
    assert r.program == kept + added;
    SaveLoadRoundTrip(r.program);
  }

  /**
   * A blank typed line is stored as a lone terminator, which the loader
   * cannot tell from the start of the next line: the two lines come back
   * as one.
   */
  lemma BlankLineMergesOnLoad()
    ensures SplitLines(Save(["\n", "5\n"])) == ["\n5\n"]
  {
    var t := Save(["\n", "5\n"]);
    assert t == "\n5\n";
    NextBreakAt(t, 1, 2);
    assert t[..3] == "\n5\n";
    assert t[3..] == "";
  }
}
