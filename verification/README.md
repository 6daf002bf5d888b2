# RPN calculator engine in Dafny

This project models the engine of a programmable Reverse Polish Notation
calculator (the C++ class `CRPNCalc`). The engine is one immutable state
record, `CalcTypes.Engine`, holding:

- the stack, whose front is the top;
- ten registers;
- the program buffer of text lines;
- the flags `error`, `helpOn`, `on`, `programRunning` (recording) and `trigmode`.

Every operation is a pure function from one engine to the next. The modules
follow the source:

| module | file | models |
|---|---|---|
| `CalcTypes` | calc_types.dfy | constants, the `cmd` enumeration, the state record, the constructor (RPNCalc.h, RPNCalc.cpp) |
| `StackOps` | stack_ops.dfy | `binary_prep`, `unary_prep` and every stack operation (RPNCalc.cpp) |
| `Lexer` | lexer.dfy | how `parse` classifies a line, the decimal rule, and command normalisation (CalcInputMethods.cpp) |
| `CommandTable` | command_table.dfy | the table `initMap` fills (RPNCalc.cpp) |
| `ProgramStore` | program_store.dfy | recording, and the file format shared by save and load (CalcProgramMacroMethods.cpp) |
| `Interpreter` | interpreter.dfy | `parse`, `cmd_parse` and `runProgram`, which call one another |
| `Session` | session.dfy | the console loop `run`: redraw (which clears the error flag), then read one line |
| `Properties` | properties.dfy | whole lines through `parse`, and worked examples |

Numbers are `real`. A numeric token is a string of digits with an optional
fraction. The library functions `sqrt`, `pow`, `fmod` and the six
trigonometric functions are fields of a `Libm` value, so their results are
uninterpreted and only their effect on the shape of the stack is stated.
Console input that a command reads is passed in as a `Console` value:

- the record prompt's answer;
- the lines typed while recording;
- the content of the file to load, or `None` when it cannot be opened.

These quirks of the code are modelled as written:

- `divide` clears the error flag when `binary_prep` refuses.
- Binary operations do nothing but set the flag when it is already set.
- Unary operations pop the top even when the flag is set, then skip the push.
- A constant escape reads only the one letter after `#`.
- The numeric read starts after a leading `.`, so `.05` reads 5 and yields 0.5.
- A blank line recorded as `"\n"` merges with the next line when the program is saved and loaded again.

## Model

| member | source | states |
|---|---|---|
| CalcTypes.Ordinal | RPNCalc.h:139-145 | the enumerators are numbered from NOVAL = 0; a command is a get-register exactly when its number lies in GR0..GR9, and a set-register exactly when it lies in SR0..SR9 |
| CalcTypes.OrdinalRoundTrip | RPNCalc.h:139-145 | numbering a command and decoding the number gives the command back |
| CalcTypes.FromOrdinalRoundTrip | CalcInputMethods.cpp:284-292 | every number in GR0..SR9 decodes to a command with that number, so `thecmd - GR0` and `thecmd - SR0` are register indices 0..9 |
| CalcTypes.Init | RPNCalc.cpp:79-87 | a new engine has an empty stack and program, all ten registers 0.0, error clear, help on, not recording, degree mode |
| CalcTypes.Deg2Rad | RPNCalc.cpp:1242-1261 | converting degrees to radians and back gives the angle back |
| StackOps.BinaryPrep | RPNCalc.cpp:505-516 | pops two values exactly when the flag is clear and there are two; the old stack is the top on the second on the rest; otherwise only the flag is set |
| StackOps.UnaryPrep | RPNCalc.cpp:800-809 | pops the top whenever there is one, ignoring the flag; on an empty stack only the flag is set |
| StackOps.Binary | RPNCalc.cpp:475-482 | with the flag clear and two values, `[..., a, b]` becomes `[..., a op b]`; otherwise only the flag is set |
| StackOps.Unary | RPNCalc.cpp:776-785 | replaces the top by f(top); with the flag set the top is popped and not replaced; on an empty stack only the flag is set |
| StackOps.Add | RPNCalc.cpp:475-482 | depth drops by one, the new top is a + b, the rest of the stack is unchanged; an underflow or a set flag only sets the flag |
| StackOps.Subtract | RPNCalc.cpp:1061-1068 | as Add with a - b, the deeper operand first |
| StackOps.Multiply | RPNCalc.cpp:754-761 | as Add with a * b |
| StackOps.Modulo | RPNCalc.cpp:731-739 | as Add with fmod(a, b); a zero divisor is not checked |
| StackOps.Divide | RPNCalc.cpp:567-587 | a zero divisor leaves the stack as it was and sets the flag; otherwise the new top times the divisor is the dividend; when binary_prep refuses, the flag ends up clear |
| StackOps.Power | RPNCalc.cpp:605-621 | `0 ^ 0` leaves the stack as it was and sets the flag; otherwise the new top is pow(a, b) |
| StackOps.Negate | RPNCalc.cpp:776-785 | the new top plus the old top is zero and the depth is unchanged; on an empty stack only the flag is set |
| StackOps.SquareRoot | RPNCalc.cpp:1083-1091 | the top is replaced by sqrt(top) and the depth is unchanged |
| StackOps.Forward | RPNCalc.cpp:1107-1114 | cos, sin and tan replace the top by f(top), converting the argument from degrees first in degree mode |
| StackOps.Inverse | RPNCalc.cpp:1130-1137 | acos, asin and atan replace the top by f(top), converting the result to degrees in degree mode |
| StackOps.ClearEntry | RPNCalc.cpp:530-534 | drops the top; an empty stack is left alone without an error |
| StackOps.ClearAll | RPNCalc.cpp:547-551 | the stack is empty afterwards and nothing else changes |
| StackOps.RotateDown | RPNCalc.cpp:905-915 | the top moves to the bottom, the others move up one place, the contents are a permutation of the old; an empty stack only sets the flag |
| StackOps.RotateUp | RPNCalc.cpp:929-939 | the bottom moves to the top, the others move down one place, the contents are a permutation of the old; an empty stack only sets the flag |
| StackOps.GetReg | RPNCalc.cpp:633-636 | pushes a copy of register i; the registers are unchanged |
| StackOps.SetReg | RPNCalc.cpp:1040-1046 | copies the top into register i without popping it; no other register changes; an empty stack only sets the flag |
| StackOps.AddOfPushes | RPNCalc.cpp:475-482 | pushing a, then b, then adding is the same as pushing a + b |
| StackOps.DivideByZeroRestores | RPNCalc.cpp:574-580 | pushing a, then 0, then dividing leaves a and 0 in place and sets the flag |
| StackOps.ZeroPowerZeroRestores | RPNCalc.cpp:612-616 | pushing 0 and 0 and raising leaves both in place and sets the flag |
| StackOps.RotationsAreInverse | RPNCalc.cpp:905-939 | rotating down then up, or up then down, restores the engine |
| StackOps.RotateExample | RPNCalc.cpp:905-939 | stack 1, 2, 3 (top first) rotates down to 2, 3, 1 and back up to 1, 2, 3 |
| StackOps.NegateTwice | RPNCalc.cpp:776-785 | negating twice restores the engine |
| StackOps.RegisterRoundTrip | RPNCalc.cpp:1040-1046 | storing the top in register i, clearing the entry and recalling register i gives the stack back |
| Lexer.DecimalRule | CalcInputMethods.cpp:109-111 | dividing by ten until below one gives a value of magnitude below one, with the sign kept, equal to the input over a power of ten |
| Lexer.ShiftsUnique | CalcInputMethods.cpp:109-111 | the number of divisions is the one power of ten that brings the magnitude below one |
| Lexer.ScanNumeral | CalcInputMethods.cpp:99-101 | the numeric read consumes at least one character and stops inside the line |
| Lexer.ScanLexeme | CalcInputMethods.cpp:99-101 | when digits, an optional point and fraction digits are written at a position and nothing after them continues the token, the read returns exactly them |
| Lexer.ScanIsLexeme | CalcInputMethods.cpp:99-101 | whatever the read returns is written at that position and is not followed by a character that would continue it |
| Lexer.Normalize | CalcInputMethods.cpp:196-202 | the command text is the line up to its first terminator, with letters upper-cased and every other character kept |
| Lexer.Classify | CalcInputMethods.cpp:74-157 | a line is blank exactly when it is the terminator alone; it is a number or a malformed number exactly when a digit follows the optional sign and point, a constant or an unknown constant exactly when `#` follows them, and a command otherwise |
| Lexer.NumberToken | CalcInputMethods.cpp:99-118 | the read is a number exactly when the terminator directly follows the numeral; without a leading point its value is the numeral's value, negated exactly when a `-` was consumed; after a leading point it is below one in magnitude; it is negative only after a consumed `-` |
| Lexer.ConstantLetter | CalcInputMethods.cpp:121-150 | the letter after `#` names a constant exactly when it is `e`, `p` or `c` in either case, and the escape stored for that constant is `#` and the lower-case letter |
| Lexer.NormalizeIgnoresCase | CalcInputMethods.cpp:196-202 | lines that differ only in letter case normalise to the same command text |
| Lexer.ClassifyIgnoresCase | CalcInputMethods.cpp:78-157 | lines that differ only in letter case are classified alike |
| Lexer.ClassifyRendered | CalcInputMethods.cpp:99-113 | every literal (optional sign, optional leading point, digits, optional fraction) followed by the terminator is read as a number with that literal's value |
| Lexer.ClassifyRenderedJunk | CalcInputMethods.cpp:103-105 | a literal followed by anything but the terminator is a malformed number |
| Lexer.DecimalLiteralBelowOne | CalcInputMethods.cpp:94-112 | a literal typed with a leading point reads as a number of magnitude below one, with its sign kept |
| Lexer.LoneSignIsCommand | CalcInputMethods.cpp:78-93 | a `-` or `+` not followed by a digit or `.` is put back, so the line is a command |
| Lexer.ConstantIgnoresRest | CalcInputMethods.cpp:121-126 | after `#` only the next letter matters; the rest of the line is ignored |
| Lexer.DecimalRuleHalf | CalcInputMethods.cpp:94-112 | `.5` reads as 0.5 |
| Lexer.DecimalRuleLeadingZero | CalcInputMethods.cpp:94-112 | `.05` reads as 0.5, because the read starts after the point |
| Lexer.DecimalRuleQuarter | CalcInputMethods.cpp:94-112 | `.25` reads as 0.25 |
| Lexer.DecimalRuleNegative | CalcInputMethods.cpp:78-112 | `-.5` reads as -0.5 |
| CommandTable.LookupSpelling | RPNCalc.cpp:1274-1321 | every command is found under the spelling the table gives it |
| CommandTable.SpellingOfLookup | RPNCalc.cpp:1274-1321 | whatever the table finds, it finds under that command's one spelling |
| CommandTable.LookupIffSpelling | RPNCalc.cpp:1274-1321 | looking up s gives c exactly when s is the spelling of c |
| CommandTable.Lookup | RPNCalc.cpp:1274-1320 | only non-empty texts of at most four characters, with no lower-case letter and no terminator, are found |
| CommandTable.RegisterIndex | CalcInputMethods.cpp:284-292 | a found command is a get-register (set-register) exactly when its text is `G` (`S`) and a digit, and its distance from GR0 (SR0), the index the switch computes, is that digit |
| ProgramStore.FirstEnd | CalcProgramMacroMethods.cpp:62 | the lines before the returned index do not start with `p`/`P`; the line at it does |
| ProgramStore.RecordLines | CalcProgramMacroMethods.cpp:52-83 | recording appends every typed line before the first `p`/`P` line, with a terminator, and nothing else; recording stays on only when no such line came |
| ProgramStore.RecordProgram | CalcProgramMacroMethods.cpp:38-83 | `N` empties the program and `C` keeps it as a prefix of the result; any other choice only sets the flag; nothing is recorded when the flag is set |
| ProgramStore.Terminated | CalcProgramMacroMethods.cpp:55-56 | every typed line is kept, in order, with one terminator added |
| ProgramStore.Save | CalcProgramMacroMethods.cpp:185-187 | the saved text is empty exactly when every line is empty, begins with the first line, and is exactly the line for a one-line program |
| ProgramStore.SaveConcat | CalcProgramMacroMethods.cpp:185-187 | saving a joined program writes the two saved texts one after the other; with the one-line case of `Save`, the saved text is the lines concatenated in order and nothing else |
| ProgramStore.SplitLines | CalcProgramMacroMethods.cpp:252-262 | every loaded line is well formed, the lines concatenate to a prefix of the file, and what is left holds no complete line |
| ProgramStore.LoadProgram | CalcProgramMacroMethods.cpp:243-262 | a file that cannot be opened changes nothing; otherwise only the program changes, to the complete lines of the file, and the dropped rest holds no terminator after its first character |
| ProgramStore.LoadAfterSave | CalcProgramMacroMethods.cpp:185-187 | loading the saved text of well-formed lines, followed by any leftover the loader drops, gives the lines back |
| ProgramStore.SaveLoadRoundTrip | CalcProgramMacroMethods.cpp:185-187 | save then load returns the program exactly when every line is well formed |
| ProgramStore.TypedLineWellFormed | CalcProgramMacroMethods.cpp:55-56 | a typed line with its terminator added is well formed exactly when it is non-empty and holds no terminator after its first character |
| ProgramStore.RecordedProgramSurvivesSave | CalcProgramMacroMethods.cpp:52-83 | a program recorded from non-empty lines survives saving and loading |
| ProgramStore.BlankLineMergesOnLoad | CalcProgramMacroMethods.cpp:253-261 | a recorded blank line and the line after it load back as one line |
| Interpreter.Parse | CalcInputMethods.cpp:63-161 | a line changes the recording flag only when it is the record command, and the program only through record, load, or a constant while recording |
| Interpreter.CommandOf | CalcInputMethods.cpp:194-211 | a line names a command only when it is classified as a command and its normalised text is that command's spelling; every such spelling is found |
| Interpreter.Dispatch | CalcInputMethods.cpp:190-308 | only the record command changes the recording flag, and only record and load change the program |
| Interpreter.Calculate | CalcInputMethods.cpp:216-293 | the arithmetic, clearing, rotation and register commands change only the stack, the registers and the flag |
| Interpreter.RunProgram | CalcProgramMacroMethods.cpp:110-141 | a run leaves the program and the recording flag unchanged |
| Interpreter.Replay | CalcProgramMacroMethods.cpp:119-138 | replaying ends with the flag clear when some line ran, and changes nothing when the first line starts with `p`/`P` |
| Interpreter.RecordStartsWithP | RPNCalc.cpp:1289 | a line that names the record command starts with `p` or `P` |
| Interpreter.ReplayEndsBefore | CalcProgramMacroMethods.cpp:119-138 | replaying leaves the engine the lines before the first `p`/`P` line made, one after another, each starting with the flag cleared |
| Interpreter.ReplayFailedIff | CalcProgramMacroMethods.cpp:127-136 | a replay reports failure exactly when one of the lines it ran set the flag |
| Interpreter.RunErrorIff | CalcProgramMacroMethods.cpp:112-140 | every line runs whatever earlier lines did; from a clear flag, the flag after a run is set exactly when some executed line set it |
| Interpreter.ReplayStopsAtP | CalcProgramMacroMethods.cpp:123-124 | a run never looks at the `p`/`P` line or anything after it |
| Session.Loop | RPNCalc.cpp:102-109 | a session parses at most the lines given; the first redraw shows the alert exactly when the flag was set at the start; there is one more redraw than parsed lines unless the last line turned the calculator off |
| Session.Print | RPNCalc.cpp:154-158 | the redraw shows the alert exactly when the flag is set, leaves the flag clear, and changes nothing else |
| Session.AlertFollowsLine | RPNCalc.cpp:154-158 | every line is parsed with the flag clear, and the redraw after it shows the alert exactly when that line set the flag |
| Properties.TypedCommand | RPNCalc.cpp:1274-1321 | typing any command's spelling runs exactly that command |
| Properties.ParseIgnoresCase | CalcInputMethods.cpp:196-202 | `sqrt` and `SQRT`, or any two lines differing only in letter case, do the same thing |
| Properties.UnknownCommandSetsError | CalcInputMethods.cpp:304-306 | a command line whose text is no spelling in the table only sets the flag |
| Properties.UnknownWordExample | CalcInputMethods.cpp:304-306 | `ZZZ` only sets the flag |
| Properties.HelpToggles | CalcInputMethods.cpp:248-250 | `h` and `H` flip the help flag and change nothing else |
| Properties.ExitStops | CalcInputMethods.cpp:300-303 | `x` turns the calculator off and changes nothing else |
| Properties.TrigToggles | CalcInputMethods.cpp:260-262 | `t` switches between degrees and radians and changes nothing else |
| Properties.LoneSignsAreOperators | CalcInputMethods.cpp:78-93 | the lines `-` and `+` subtract and add |
| Properties.BlankLineIsNoOp | CalcInputMethods.cpp:74-75 | a blank line changes nothing |
| Properties.NumberLinePushes | CalcInputMethods.cpp:99-113 | a number line pushes exactly its value and changes nothing else |
| Properties.TrailingJunkSetsError | CalcInputMethods.cpp:103-105 | a number followed by anything else only sets the flag |
| Properties.EscapeLine | CalcInputMethods.cpp:121-146 | `#e`, `#p` and `#c` push their constant, or, while recording, append the two-character escape to the program |
| Properties.UnknownEscapeSetsError | CalcInputMethods.cpp:147-149 | `#` followed by any other letter only sets the flag |
| Properties.RecordExample | CalcProgramMacroMethods.cpp:38-83 | choosing a new program and typing `2`, `3`, `+`, `P` records the three lines `2`, `3`, `+` and stops recording |
| Properties.RunExample | CalcProgramMacroMethods.cpp:110-141 | running that program on an empty stack leaves 5 on top and the flag clear |
| Properties.RecordAndRunExample | CalcProgramMacroMethods.cpp:28-141 | recording `2`, `3`, `+` and then running it leaves 5 on an empty stack |

## Left out

- Screen and console I/O: the text that `print` draws, the help menu, `system("cls")`, the prompts, and `getline`. Lines and prompt answers are arguments; a redraw is reduced to its effect on the error flag.
- File names and file I/O: building the `.clc` name into a fixed buffer, opening, and closing. `saveToFile` writes no engine state, so the `F` command leaves the engine unchanged, and `ProgramStore.Save` is the text it writes.
- The values of `sqrt`, `pow`, `fmod` and the trigonometric functions; they are library numerics. Only their effect on the shape of the stack is stated.
- Double-precision arithmetic: the model computes exactly in `real`, so it drops IEEE rounding, overflow to infinity and NaN. This applies to `+`, `-`, `*` and `/` (for example, `1e308 1e308 +` overflows to infinity in the source), to the decimal rule, and to reading a number.
- The full `istream >> double` grammar: exponents and a second `.` are not accepted in number tokens.
- Lexer.NumberToken: drops the branch where `m_instrStream >> afloat` fails (CalcInputMethods.cpp:115-118), which happens for a numeral outside the range of a double, such as one with 400 digits; the source sets the error flag and pushes nothing, while the model pushes the exact value.
- A program that contains `R` or `L` before its first `p`/`P` line cannot be run in the model (`Interpreter.CanRun`). In the source, `R` inside a run recurses without bound and `L` replaces the list being walked.
- `Interpreter.Parse` requires that precondition of the lines it runs, and `Session.Loop` stops before such a line.
- A run stops at its first `p`/`P` line, so the record command is never dispatched during a run; `F` leaves the engine unchanged wherever it appears.
- When the console runs out of lines while recording, the source loops forever. The model stops with recording still on.
- `Session.Loop` stops when the lines run out; the source keeps reading an exhausted stream.
- `Lexer.Normalize` also stops at the end of a line that has no terminator. The source always adds one before parsing, so it never meets such a line.
- `Interpreter.Parse` keeps the branch where a constant escape is appended to the program while recording. The split sources never call `parse` during recording, so that branch is unreachable there.
- `initMap` fills a `std::map`; `CommandTable.Lookup` is the same table written as a function.
- CalcDriver.cpp: only a `main` and an interactive smoke test.
- The older duplicate definitions in RPNCalc.cpp:184-460 and RPNCalc.cpp:834-1034: the model follows the later versions in CalcInputMethods.cpp and CalcProgramMacroMethods.cpp, which add the run-error aggregation.
- No property of the values the trigonometric commands compute can be stated (for example, that `ASIN` undoes `SIN` in degree mode), because the functions of `Libm` are uninterpreted.
