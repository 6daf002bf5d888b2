// The command table built by initMap: the upper-case spelling of every
// command the dispatcher understands.

module CommandTable {
  import opened CalcTypes

  predicate IsDigitChar(d: char) { '0' <= d <= '9' }

  /** A register index written as one decimal digit. */
  function DigitReg(d: char): Option<Reg> {
    if IsDigitChar(d) then Some(d as int - '0' as int) else None
  }

  /** The one-character entries of initMap. */
  function LookupChar(c: char): Option<Cmd> {
    match c
    case '+' => Some(Add)
    case '-' => Some(Sub)
    case '*' => Some(Mult)
    case '/' => Some(Div)
    case '^' => Some(Exp)
    case '%' => Some(Mod)
    case 'C' => Some(ClearAll)
    case 'D' => Some(Down)
    case 'F' => Some(File)
    case 'H' => Some(Help)
    case 'L' => Some(Load)
    case 'M' => Some(Negate)
    case 'P' => Some(Record)
    case 'R' => Some(Run)
    case 'U' => Some(Up)
    case 'X' => Some(Exit)
    case 'T' => Some(TrigToggle)
    case _ => None
  }

  /**
   * `m_map.find` on the map initMap fills: the command a normalised string
   * names, if any. Only exact spellings are found.
   */
  function Lookup(s: string): (r: Option<Cmd>)
    ensures r.Some? ==> 0 < |s| <= 4 && forall i :: 0 <= i < |s| ==> s[i] != '\n' && !('a' <= s[i] <= 'z')
  {
    if |s| == 1 then LookupChar(s[0])
    else if |s| == 2 then
      if s == "CE" then Some(ClearEntry)
      else if s[0] == 'G' && DigitReg(s[1]).Some? then Some(GetReg(DigitReg(s[1]).value))
      else if s[0] == 'S' && DigitReg(s[1]).Some? then Some(SetReg(DigitReg(s[1]).value))
      else None
    else if s == "COS" then Some(Cos)
    else if s == "SIN" then Some(Sin)
    else if s == "TAN" then Some(Tan)
    else if s == "SQRT" then Some(Sqrt)
    else if s == "ACOS" then Some(Acos)
    else if s == "ASIN" then Some(Asin)
    else if s == "ATAN" then Some(Atan)
    else None
  }

  /** The register digit as a character. */
  function RegDigit(i: Reg): (d: char)
    ensures '0' <= d <= '9' && d as int - '0' as int == i
  {
    ('0' as int + i) as char
  }

  /** The one spelling initMap gives each command. */
  function Spelling(c: Cmd): string {
    match c
    case Add => "+"
    case Sub => "-"
    case Mult => "*"
    case Div => "/"
    case Exp => "^"
    case Mod => "%"
    case ClearAll => "C"
    case ClearEntry => "CE"
    case Down => "D"
    case File => "F"
    case Help => "H"
    case Load => "L"
    case Negate => "M"
    case Record => "P"
    case Run => "R"
    case Up => "U"
    case Exit => "X"
    case TrigToggle => "T"
    case Sqrt => "SQRT"
    case Cos => "COS"
    case Sin => "SIN"
    case Tan => "TAN"
    case Acos => "ACOS"
    case Asin => "ASIN"
    case Atan => "ATAN"
    case GetReg(i) => ['G', RegDigit(i)]
    case SetReg(i) => ['S', RegDigit(i)]
  }

  /** Every command is found under its spelling. */
  lemma LookupSpelling(c: Cmd)
    ensures Lookup(Spelling(c)) == Some(c)
  {
  }

  /** Whatever the table finds, it finds under that command's one spelling. */
  lemma SpellingOfLookup(s: string)
    requires Lookup(s).Some?
    ensures Spelling(Lookup(s).value) == s
  {
    if |s| == 2 && s != "CE" {
      assert s == [s[0], s[1]];
    }
  }

  /** Every spelling is in the table. */
  lemma SpelledIsFound(s: string)
    ensures (exists c :: Spelling(c) == s) ==> Lookup(s).Some?
  {
    if c :| Spelling(c) == s {
      LookupSpelling(c);
    }
  }

  /**
   * The register commands: `G` or `S` and a digit name the enumerator whose
   * distance from GR0 (SR0) is that digit, which is the register index the
   * dispatcher computes by subtraction.
   */
  lemma RegisterIndex(s: string)
    ensures var r := Lookup(s);
            r.Some? && GR0 <= Ordinal(r.value) <= GR9
            <==> |s| == 2 && s[0] == 'G' && IsDigitChar(s[1])
    ensures var r := Lookup(s);
            r.Some? && SR0 <= Ordinal(r.value) <= SR9
            <==> |s| == 2 && s[0] == 'S' && IsDigitChar(s[1])
    ensures var r := Lookup(s);
            r.Some? && GR0 <= Ordinal(r.value) <= GR9
            ==> r == Some(GetReg(Ordinal(r.value) - GR0)) && Ordinal(r.value) - GR0 == s[1] as int - '0' as int
    ensures var r := Lookup(s);
            r.Some? && SR0 <= Ordinal(r.value) <= SR9
            ==> r == Some(SetReg(Ordinal(r.value) - SR0)) && Ordinal(r.value) - SR0 == s[1] as int - '0' as int
  {
  }

  /** Lookup and spelling are inverse: the table is a bijection onto its commands. */
  lemma LookupIffSpelling(s: string, c: Cmd)
    ensures Lookup(s) == Some(c) <==> Spelling(c) == s
  {
    LookupSpelling(c);
    if Lookup(s).Some? {
      SpellingOfLookup(s);
    }
  }
}
