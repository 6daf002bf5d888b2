// The console loop run() of RPNCalc.cpp: while the calculator is on, redraw
// the screen with print() and read one line with input().
//
// The screen text itself is not modelled; a redraw is reduced to what it
// does to the engine (it clears the error flag) and whether it shows the
// `<<error>>` alert.

module Session {
  import opened CalcTypes
  import opened Interpreter

  /** One line as typed (getline drops its terminator), with the console answers its command reads. */
  datatype Entry = Entry(typed: string, console: Console)

  /** input() puts the terminator back before parsing. */
  function LineOf(entry: Entry): string {
    entry.typed + "\n"
  }

  /** The lines the model can parse in `e`: a run only when the program can be replayed. */
  predicate Accepts(e: Engine, entry: Entry) {
    CommandOf(LineOf(entry)) == Some(Run) ==> CanRun(e)
  }

  /** input(): parse the typed line. */
  function Step(m: Libm, e: Engine, entry: Entry): Engine
    requires Accepts(e, entry)
  {
    Parse(m, entry.console, e, LineOf(entry))
  }

  /** A redraw: the engine after print(), and whether it showed the alert. */
  datatype Screen = Screen(engine: Engine, alert: bool)

  /** print(): the alert appears when the flag is set, and the flag is then cleared. */
  function Print(e: Engine): (s: Screen)
    ensures !s.engine.error
    ensures s.alert <==> e.error
    ensures s.engine.(error := e.error) == e
  {
    Screen(e.(error := false), e.error)
  }

  /**
   * What a session leaves: the final engine, the alert of every redraw in
   * order, and how many lines were parsed.
   */
  datatype Transcript = Transcript(final: Engine, alerts: seq<bool>, consumed: nat)

  /**
   * run(): redraw, then parse the next line, for as long as the calculator
   * is on. The model stops after the redraw when the lines run out or the
   * next line is a run it does not cover.
   */
  function Loop(m: Libm, entries: seq<Entry>, e: Engine): (t: Transcript)
    ensures t.consumed <= |entries|
    ensures !e.on ==> t == Transcript(e, [], 0)
    ensures e.on ==> 0 < |t.alerts| && t.alerts[0] == e.error
    ensures e.on ==> |t.alerts| == t.consumed + (if t.final.on then 1 else 0)
    decreases |entries|
  {
    if !e.on then Transcript(e, [], 0)
    else
      var shown := Print(e);
      if |entries| == 0 || !Accepts(shown.engine, entries[0]) then
        Transcript(shown.engine, [shown.alert], 0)
      else
        var next := Step(m, shown.engine, entries[0]);
        var rest := Loop(m, entries[1..], next);
        Transcript(rest.final, [shown.alert] + rest.alerts, rest.consumed + 1)
  }

  /** The engine line k is parsed in: the state after the redraw that precedes it. */
  function SeenBy(m: Libm, entries: seq<Entry>, e: Engine, k: nat): Engine
    requires k < Loop(m, entries, e).consumed
    decreases k
  {
    var shown := Print(e).engine;
    if k == 0 then shown
    else SeenBy(m, entries[1..], Step(m, shown, entries[0]), k - 1)
  }

  /**
   * Every parsed line starts with the flag clear, and the redraw after it
   * shows the alert exactly when that line set the flag; a line that turns
   * the calculator off is followed by no redraw.
   */
  lemma {:induction false} AlertFollowsLine(m: Libm, entries: seq<Entry>, e: Engine, k: nat)
    requires k < Loop(m, entries, e).consumed
    ensures Accepts(SeenBy(m, entries, e, k), entries[k])
    ensures !SeenBy(m, entries, e, k).error
    ensures var after := Step(m, SeenBy(m, entries, e, k), entries[k]);
            var t := Loop(m, entries, e);
            && (k + 1 < |t.alerts| <==> after.on)
            && (after.on ==> t.alerts[k + 1] == after.error)
    decreases k
  {
    var shown := Print(e).engine;
    var next := Step(m, shown, entries[0]);
    if k > 0 {
      AlertFollowsLine(m, entries[1..], next, k - 1);
      assert entries[1..][k - 1] == entries[k];
    }
  }
}
