# uvsim: the four-digit teaching machine of `vm.py`, in Dafny

This project models the `VM` and `ProgramLoader` classes of `vm.py`.

- **The machine.** It has 100 memory cells, each a text word such as `"+4300"`: a sign and four digits. It also has a program counter and an accumulator.
- **A step.** Each step fetches the word at the program counter. It decodes the opcode (characters 1-2) and the operand (`int` of characters 3-4, negated for a `-` sign). It advances the counter and dispatches over twelve opcodes. It ends by truncating an accumulator that overflowed.
- **`run` and `run_by_step`.** They loop until the word at the program counter has opcode `43`, then print `HALT.` and step past it.
- **`load`.** It checks a program file's lines and installs them only if every check passes.
- **`load_string`.** It installs an editor buffer's non-empty lines unchecked.

The project has five modules.

- `Words` (`words.dfy`) covers the Python built-ins the machine relies on, on ASCII text: `str`, `int`, `zfill`, slicing, `strip`, `split("\n")`. It also defines the word format and how `store_op` writes a number.
- `Machine` (`machine.dfy`) is the machine as values. `State` holds the memory as a `seq<string>`, the counter, the accumulator and the lines printed so far. There is one function per operation giving the new state or the exception raised. On top of these come `Step` (`process_next_step`), `Resume` (one turn of the run loop) and `Run` (the loop, bounded by fuel).
- `MachineProperties` (`machine_properties.dfy`) proves what the machine promises. This covers decoding, the accumulator bound, the store/load and read behaviour, branches, truncating division and how `run` ends.
- `Vm` (`vm.dfy`) is `class VM`. Its memory is an `array<string>` overwritten in place, with one method per method of the source. Each method is proved to leave exactly the state, and report exactly the exception, of the matching `Machine` function.
- `Loader` (`loader.dfy`) holds `load` and `load_string`. They are methods on a `VM` (the class `ProgramLoader` has no state), proved against the functions `LoadProgram` and `LoadStringProgram`. Lemmas state what those functions accept and install.

How the model treats the source's effects:

- **Input and output.** Console input is a parameter: the lines still to be typed. Every operation that reads returns the lines it left. `print` of `write_op` and the `HALT.` notice are appended to the `output` field.
- **Exceptions.** A Python exception is a `Fault` (or a `LoadError` for the loader). The state a step leaves when it raises is the state at the moment of the exception. The program counter has already advanced when the operation raises. A word that cannot be fetched or decoded raises before the advance.
- **Indexing.** Memory indexing follows Python, so a negative operand counts from the end: `"-2001"` loads cell 99.

`config.py:2-3` declares 250 cells and six-digit words, but `vm.py` never reads them. The model follows `vm.py`: 100 cells, five-character words and two-digit opcodes. The tests and the code part ways in two places:

- `test_vm.py:13-17` expects `read_op` to store `"-0001"`. Under `vm.py:20` that input is never accepted (`ReadNeverTakesNegative`).
- `test_vm.py:192` and `test_vm.py:211` call `load_program`, which `vm.py` does not define.

## Model

The reference functions that the methods are proved against model these source functions:

- `Machine.Step` models `process_next_step` (`vm.py:95-135`).
- `Machine.Read` models `read_op` (`vm.py:17-26`).
- `Machine.Resume` models one turn of the loop of `run` and `run_by_step` (`vm.py:137-148`).
- `Machine.Run` models `run` (`vm.py:137-141`).
- `Loader.LoadProgram` models `ProgramLoader.load` (`vm.py:151-175`).
- `Loader.LoadStringProgram` models `ProgramLoader.load_string` (`vm.py:177-184`).

The rows below name the members whose contracts state the properties.

| member | source | states |
|---|---|---|
| Words.StoreWordRoundTrip | vm.py:36-41 | for \|acc\| <= 9999 the text `store_op` writes is a sign and four digits, its sign is `-` exactly for a negative accumulator, and `int` of it gives the accumulator back |
| Words.WordValue | vm.py:34 | every well-formed word is a number `int` accepts, within [-9999, 9999] |
| Words.JoinSplitLines | vm.py:178 | joining the pieces of `split("\n")` with line feeds gives the text back |
| Words.StripUnpadded | vm.py:162 | `strip` leaves text with no whitespace at its ends unchanged, and removes the line feed `readlines` keeps |
| Machine.Initial | vm.py:2-5 | a new machine has 100 cells of `"+0000"`, counter 0, accumulator 0 and nothing printed |
| Machine.Cell | vm.py:34 | Python list indexing: index i names a cell exactly when -100 <= i < 100, and a negative one counts from the end |
| Machine.TruncatedLowDigits | vm.py:10-15 | for an overflowing accumulator, keeping the last four characters of `str(acc)` gives sign(acc)·(\|acc\| mod 10000), which no longer overflows |
| Machine.TruncationExamples | vm.py:10-15 | 10234 truncates to 234 and -13443 to -3443 |
| MachineProperties.DecodeWord | vm.py:96-101 | for a well-formed word the opcode is characters 1-2 and the operand is the two-digit number in characters 3-4, negated for `-`; it lies in [-99, 99] and always names a cell |
| MachineProperties.StepKeepsAccumulatorInRange | vm.py:134-135 | after every step that returns normally the accumulator is within [-9999, 9999], whatever the operation left |
| MachineProperties.StepFailsBeforeAdvance | vm.py:96-99 | a word that cannot be fetched (pc out of range) or decoded makes the step raise with the state and input untouched |
| MachineProperties.StepAdvancesPc | vm.py:103 | every step of a decodable non-branch word ends with pc = old pc + 1, whether it returned, raised, was HALT or an unknown opcode |
| MachineProperties.StepUnknownOpcode | vm.py:130-132 | an opcode outside the table raises `InvalidOpcode` with only the counter advanced |
| MachineProperties.StepBranch | vm.py:59-80 | a negative branch target raises with the counter advanced past the branch; otherwise pc becomes the target exactly when the condition holds (always, acc < 0, acc == 0) and is old pc + 1 otherwise, nothing else changing |
| MachineProperties.NegativeOperandWraps | vm.py:99-101 | the word `"-2001"` loads cell 99 into the accumulator |
| MachineProperties.StoreThenLoad | vm.py:32-41 | for \|acc\| <= 9999 STORE writes a well-formed word, with the accumulator's sign, into the addressed cell and no other; a later LOAD of that cell restores the accumulator exactly |
| MachineProperties.StoreWordExamples | test_vm.py:56-68 | 67 is stored as `"+0067"` and -89 as `"-0089"` |
| MachineProperties.AcceptedIsNonNegative | vm.py:20-26 | a line `read_op` accepts is a digit run whose value is in [0, 9999], so the negative branch is dead; a line containing `-` is never accepted |
| MachineProperties.ReadNeverTakesNegative | vm.py:19-21 | if every line offered contains `-`, READ consumes all of them and raises `EOFError` |
| MachineProperties.ReadNumber | vm.py:17-26 | reading the number n in [0, 9999] writes `"+"` and n zero-padded to four digits into the addressed cell only, consumes that line, and the cell reads back as n |
| MachineProperties.ReadKeepsLeadingZeros | vm.py:26 | `zfill` pads the typed text, not its value: `"00042"` is stored as the malformed six-character `"+00042"` |
| MachineProperties.AddThenSubtract | vm.py:43-49 | SUBTRACT of a cell undoes ADD of the same cell |
| MachineProperties.MultiplyThenDivide | vm.py:51-57 | DIVIDE by a non-zero cell undoes MULTIPLY by it |
| MachineProperties.DivTruncRemainder | vm.py:53 | `int(x / y)` rounds toward zero: the remainder is smaller than the divisor in magnitude and is zero or has the dividend's sign |
| MachineProperties.DivideByCell | vm.py:51-53 | DIVIDE by zero raises `ZeroDivisionError` and changes nothing; otherwise only the accumulator changes, to the quotient rounded toward zero (30/3 = 10, 10/5 = 2, -7/2 = -3) |
| MachineProperties.RunAtHalt | vm.py:138-141 | `run` at a HALT word stops without executing it, prints `HALT.` and leaves pc one past it |
| MachineProperties.RunEndsPastHaltWord | vm.py:137-141 | whenever `run` stops normally, the word just before the final counter is a HALT word and `HALT.` was the last line printed |
| MachineProperties.RunFuelMonotone | vm.py:138-139 | once `run` has ended within a number of turns, allowing more turns changes nothing |
| MachineProperties.HaltAtZero | test_vm.py:171-178 | a HALT at address 0 ends `run` with pc == 1, the word at address 1 never executed |
| MachineProperties.BranchToHalt | test_vm.py:180-186 | for any prior accumulator, `"+4050"` at 0 and a HALT at 50 end `run` halted with pc == 51 and `HALT.` printed; the accumulator only goes through the branch step's overflow check |
| MachineProperties.HaltAtLastCell | vm.py:90-93 | a HALT in the last cell ends `run` with pc == 100, where a further fetch raises `IndexError` |
| MachineProperties.RunUnknownOpcode | vm.py:130-132 | a word with an opcode outside the table (such as `"+9900"`) makes `run` raise at once, with only the counter advanced |
| Vm.VM.constructor | vm.py:2-5 | a new `VM` is in the initial state with a fresh memory array |
| Vm.VM.AccumulatorOverflow | vm.py:7-8 | true exactly when the accumulator is outside [-9999, 9999] |
| Vm.VM.TruncateAccumulator | vm.py:10-15 | the accumulator becomes its truncation, back in range when it overflowed; memory, counter and output unchanged |
| Vm.VM.ReadCell | vm.py:34 | `int(self.memory[a])`, or the `IndexError`/`ValueError` it raises |
| Vm.VM.ReadOp | vm.py:17-26 | the loop consumes lines until one passes the guard and writes it to the cell; the fault, the new memory and the lines left are those of `Machine.Read` |
| Vm.VM.WriteOp | vm.py:28-30 | appends the cell's text to the output, or raises `IndexError` with nothing changed |
| Vm.VM.LoadOp | vm.py:32-34 | the accumulator becomes the cell's value; faults as `Machine.Load` |
| Vm.VM.StoreOp | vm.py:36-41 | overwrites the addressed array cell with the stored word; faults as `Machine.Store` |
| Vm.VM.AddOp | vm.py:43-45 | acc := acc + int(cell); faults as `Machine.Add` |
| Vm.VM.SubtractOp | vm.py:47-49 | acc := acc - int(cell); faults as `Machine.Subtract` |
| Vm.VM.DivideOp | vm.py:51-53 | acc := the quotient rounded toward zero, or `ZeroDivisionError` with nothing changed |
| Vm.VM.MultiplyOp | vm.py:55-57 | acc := acc * int(cell); faults as `Machine.Multiply` |
| Vm.VM.BranchOp | vm.py:59-64 | pc := addr for addr >= 0; a negative address raises with pc unchanged |
| Vm.VM.BranchNegOp | vm.py:66-72 | pc := addr exactly when acc < 0, else unchanged; a negative address raises |
| Vm.VM.BranchZeroOp | vm.py:74-80 | pc := addr exactly when acc == 0, else unchanged; a negative address raises |
| Vm.VM.GetOpcode | vm.py:90-93 | characters 1-2 of the word at pc, or `IndexError` when pc names no cell |
| Vm.VM.FetchAndDecode | vm.py:96-101 | the opcode and signed operand of the word at pc, or the fault the decoding raises |
| Vm.VM.Dispatch | vm.py:105-132 | runs the operation the opcode names and leaves the state and fault `Machine.Execute` gives; an unknown opcode raises |
| Vm.VM.DispatchAndTruncate | vm.py:105-135 | the dispatch followed by the overflow check, as `Machine.Complete` |
| Vm.VM.ProcessNextStep | vm.py:95-135 | leaves exactly the state, status and remaining input of `Machine.Step` |
| Vm.VM.RunByStep | vm.py:143-148 | one resumption of the generator: a step that yields, or the `HALT.` notice and the final advance, as `Machine.Resume` |
| Vm.VM.Run | vm.py:137-141 | the loop leaves exactly the state and outcome of `Machine.Run` for the same number of turns |
| Loader.Image | vm.py:182-184 | a memory of length 100 holding the given words from address 0 and `"+0000"` after them |
| Loader.LoadSucceedsIff | vm.py:151-175 | `load` installs a program exactly when it has at most 100 lines, every stripped line is a sign and four digits, and some line has opcode `43` |
| Loader.LoadRefusesInvalid | vm.py:157-165 | `MemoryError` exactly for more than 100 lines; an invalid-instruction error names the first stripped line that is not a word |
| Loader.LoadRefusesNoHalt | vm.py:171-175 | `RuntimeError` exactly when the program fits and every line is a word but none has opcode `43` |
| Loader.LoadedMemory | vm.py:153-172 | the installed memory is the stripped lines from address 0, then `"+0000"`, and every one of its 100 cells is a well-formed word |
| Loader.LoadedProgramDecodes | vm.py:163 | after a successful `load`, the word at every address 0-99 decodes, with an operand in [-99, 99] |
| Loader.AnyHaltWordCounts | vm.py:167-168 | any line whose characters 1-2 are `43`, of either sign and at any position, satisfies the HALT check |
| Loader.StripWord | vm.py:162 | a well-formed word survives `strip`, with or without its line feed |
| Loader.ScanMeaning | vm.py:161-170 | the loop of `load` passes exactly when every code is a word; it then has seen a HALT exactly when some code has opcode `43`; if it stops, it stops at the first malformed code |
| Loader.BuildProgram | vm.py:153-170 | fills a fresh 100-cell buffer with the stripped lines and sets `has_halt`, or reports the first malformed line |
| Loader.Load | vm.py:151-175 | installs `LoadProgram`'s memory as a fresh array, or raises its error with the memory untouched; pc, accumulator and output are never reset |
| Loader.ProgramWordsOfJoin | vm.py:178 | the words of lines joined by line feeds are those lines in order, empty ones dropped |
| Loader.LoadStringOutcome | vm.py:177-184 | `load_string` refuses only more than 100 non-empty lines; otherwise it installs the non-empty lines from address 0, padded with `"+0000"`, unchecked |
| Loader.BlankLinesDropped | vm.py:178 | blank lines between words take no cell |
| Loader.UncheckedWordFailsAtStep | vm.py:177-184 | `"+10ab"` is installed by `load_string`, and the step that reaches it raises `ValueError` on `int("ab")` before the counter moves |
| Loader.LoadString | vm.py:177-184 | puts a fresh memory holding `LoadStringProgram`'s words in place, or raises with the memory untouched; pc, accumulator and output are unchanged |

## Left out

- File access in `load` (`open`, `readlines`, `vm.py:155-156`): the lines are a parameter. `strip` is modelled, on ASCII whitespace.
- Console prompts and the error messages printed before each `raise` (`vm.py:62`, `vm.py:131`, `vm.py:158`, `vm.py:164`, `vm.py:174`): they have no effect on the state. Only the lines `write_op` prints and the `HALT.` notice are recorded in `output`.
- `VM.__str__` (`vm.py:82-88`): display formatting only.
- Floating point in `divide_op`: `int(acc / m)` is modelled as the integer quotient rounded toward zero. With four-digit operands the two agree.
- Unicode in `isdigit`, `isnumeric`, `strip` and `int`: only ASCII digits and whitespace are modelled.
- Words.ParseInt: rejects underscores and surrounding whitespace, both of which Python's `int` accepts. An unchecked `load_string` cell such as `"+0005 "`, or an operand field `" 5"`, is read as 5 by Python but raises `NotANumber` in the model. Such a line can reach `load_string`, because the editor strips only the ends of the whole buffer (`program_edit_window.py:70`). The interpreter's limit of 4300 digits on converting between text and `int` is not modelled either; past it Python raises `ValueError`. Two consequences: a typed line of 4301 digits makes `read_op` raise from its guard (`vm.py:20`), while the model's `Accepted` is false and READ skips the line and reads the next one. A `load_string` cell of a sign and 4301 digits makes `int(self.memory[a])` raise in LOAD, ADD, SUBTRACT, DIVIDE and MULTIPLY (`vm.py:34-57`), while `CellValue` returns the number.
- Words.Str: `str` of an integer of more than 4300 digits raises `ValueError` in Python, and the model does not model that limit. A cell of `"+"` and 4300 nines multiplied into an accumulator of 9999 makes `truncate_accumulator` raise at `str(self.accumulator)` (`vm.py:11`). The model's `Truncated` returns the low four digits instead.
- Machine.Run: `run` loops for as long as the program does. The model allows at most `fuel` turns and ends with `OutOfFuel` after that, so programs that never halt are not described beyond any bound.
- Vm.VM.RunByStep: models a single resumption of the generator. Resuming it again after it printed `HALT.` (`StopIteration`) is not modelled.
- End of console input is modelled as an `EOFError` fault (`EndOfInput`). The source would wait at the console.
- The graphical front end (`gui.py`, `program_edit_window.py`, `file_tab.py`, `text_redirector.py`), the prototype `main.py`, `arithmetic_tests.py` and `config.py` are not part of this model. `vm.py` does not use `config.py`'s sizes.
