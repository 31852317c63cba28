/**
 The teaching machine of `vm.py` as values: a state of 100 text cells, a program
 counter and an accumulator, and one function per operation giving the state it
 leaves behind or the exception it raises. The class in module `Vm` is proved to
 behave exactly as these functions say; the properties of the machine are proved
 here, about the functions.
 */
module Machine {
  import opened Words

  /** `VM.__init__` allocates 100 cells (`vm.py:3`). */
  const MemorySize: nat := 100

  /** Largest accumulator magnitude that is not an overflow (`vm.py:8`). */
  const MaxWord: int := 9999

  /** The line `run` prints when it reaches a HALT word (`vm.py:140`). */
  const HaltNotice: string := "HALT."

  /**
   The exceptions an instruction can raise. Python's own exception classes are
   `IndexError` (IndexOutOfRange, EmptyWord), `ValueError` (NotANumber,
   InvalidMemoryAddress, InvalidOpcode), `ZeroDivisionError` and `EOFError`.
   */
  datatype Fault =
    | IndexOutOfRange(index: int)
    | EmptyWord
    | NotANumber(text: string)
    | DivideByZero
    | InvalidMemoryAddress(addr: int)
    | InvalidOpcode(opcode: string)
    | EndOfInput

  datatype Result<+T> = Ok(value: T) | Err(fault: Fault)

  /** What an instance of `VM` holds, plus the lines it has printed so far. */
  datatype State = State(memory: seq<string>, pc: int, acc: int, output: seq<string>)

  /** A freshly constructed `VM()`. */
  function Initial(): (m: State)
    ensures |m.memory| == MemorySize && m.pc == 0 && m.acc == 0 && m.output == []
    ensures forall i :: 0 <= i < |m.memory| ==> m.memory[i] == BlankWord
  {
    State(seq(MemorySize, _ => BlankWord), 0, 0, [])
  }

  /** The state an operation leaves: the new one, or the old one when it raised. */
  function After(m: State, r: Result<State>): State
  {
    if r.Ok? then r.value else m
  }

  function FaultOf<T>(r: Result<T>): Option<Fault>
  {
    if r.Ok? then None else Some(r.fault)
  }

  // ------------------------------------------------------------ memory access

  /**
   Python's list indexing: `memory[i]` for `0 <= i < n` is cell `i`, for
   `-n <= i < 0` it is cell `n + i`; anything else raises `IndexError`.
   */
  function Cell(n: nat, i: int): (r: Option<nat>)
    ensures r.Some? <==> -(n as int) <= i < n
    ensures r.Some? ==> r.value < n && (r.value == i || r.value == n + i)
  {
    if 0 <= i < n then Some(i) else if -(n as int) <= i < 0 then Some(n + i) else None
  }

  /** `int(self.memory[a])`. */
  function CellValue(m: State, a: int): Result<int>
  {
    match Cell(|m.memory|, a)
    case None => Err(IndexOutOfRange(a))
    case Some(i) =>
      match ParseInt(m.memory[i])
      case None => Err(NotANumber(m.memory[i]))
      case Some(v) => Ok(v)
  }

  // ------------------------------------------------------ accumulator overflow

  /** `accumulator_overflow` (`vm.py:7-8`). */
  predicate Overflows(acc: int)
  {
    acc > MaxWord || acc < -MaxWord
  }

  /**
   `truncate_accumulator` (`vm.py:10-15`): the last four characters of `str(acc)`
   read back with `int`, negated unless the accumulator is positive.
   */
  function Truncated(acc: int): int
  {
    var tail := Last(Str(acc), 4);
    LastOfStrIsNumber(acc);
    var v := ParseInt(tail).value;
    if acc > 0 then v else -v
  }

  /** The check a step ends with (`vm.py:134-135`). */
  function CheckOverflow(acc: int): int
  {
    if Overflows(acc) then Truncated(acc) else acc
  }

  lemma LastOfStrIsNumber(acc: int)
    ensures ParseInt(Last(Str(acc), 4)).Some?
  {
    var s := Str(acc);
    var n: nat := if acc < 0 then -acc else acc;
    var d := Digits(n);
    if |s| > 4 {
      var t := Last(s, 4);
      assert t == d[|d| - 4..] by {
        if acc < 0 { assert s == "-" + d; }
      }
      SuffixDigits(d, 4);
    } else if acc < 0 {
      assert Last(s, 4) == "-" + d;
      assert ("-" + d)[1..] == d;
    }
  }

  /**
   Truncation keeps the low four digits and the sign: for an overflowing
   accumulator the result is `sign(acc) * (|acc| mod 10^4)`, so it no longer
   overflows.
   */
  lemma TruncatedLowDigits(acc: int)
    requires Overflows(acc)
    ensures Truncated(acc) == if acc > 0 then acc % 10000 else -((-acc) % 10000)
    ensures -MaxWord <= Truncated(acc) <= MaxWord
  {
    LastFourDigits(acc);
  }

  /** For an accumulator of five digits or more, `int(str(acc)[-4:])` is `|acc| mod 10^4`. */
  lemma LastFourDigits(acc: int)
    requires Overflows(acc)
    ensures ParseInt(Last(Str(acc), 4)) == Some((if acc < 0 then -acc else acc) % 10000)
  {
    var n: nat := if acc < 0 then -acc else acc;
    var d := Digits(n);
    assert Pow10(4) == 10000;
    DigitsLength(n, 4);
    DigitsSuffixValue(n, 4);
    var t := d[|d| - 4..];
    assert Last(Str(acc), 4) == t by {
      if acc < 0 { assert Str(acc) == "-" + d; }
    }
    ParseDigitRun(t);
  }

  /** Two examples of `truncate_accumulator` (`vm.py:10-15`): 10234 becomes 234 and -13443 becomes -3443. */
  lemma TruncationExamples()
    ensures Truncated(10234) == 234
    ensures Truncated(-13443) == -3443
  {
    TruncatedLowDigits(10234);
    ModUnique(10234, 10000, 1, 234);
    TruncatedLowDigits(-13443);
    ModUnique(13443, 10000, 1, 3443);
  }

  // ---------------------------------------------------------- the eleven ops

  /** `load_op` (`vm.py:32-34`): the accumulator takes `int` of the cell. */
  function Load(m: State, a: int): Result<State>
  {
    match CellValue(m, a)
    case Err(f) => Err(f)
    case Ok(v) => Ok(m.(acc := v))
  }

  /** `store_op` (`vm.py:36-41`): the cell takes the accumulator as text. */
  function Store(m: State, a: int): Result<State>
  {
    match Cell(|m.memory|, a)
    case None => Err(IndexOutOfRange(a))
    case Some(i) => Ok(m.(memory := m.memory[i := StoreWord(m.acc)]))
  }

  /** `add_op` (`vm.py:43-45`). */
  function Add(m: State, a: int): Result<State>
  {
    match CellValue(m, a)
    case Err(f) => Err(f)
    case Ok(v) => Ok(m.(acc := m.acc + v))
  }

  /** `subtract_op` (`vm.py:47-49`). */
  function Subtract(m: State, a: int): Result<State>
  {
    match CellValue(m, a)
    case Err(f) => Err(f)
    case Ok(v) => Ok(m.(acc := m.acc - v))
  }

  /** `multiply_op` (`vm.py:55-57`). */
  function Multiply(m: State, a: int): Result<State>
  {
    match CellValue(m, a)
    case Err(f) => Err(f)
    case Ok(v) => Ok(m.(acc := m.acc * v))
  }

  function Abs(x: int): nat { if x < 0 then -x else x }

  /**
   `int(x / y)`: the quotient rounded toward zero. (Dafny's own `/` on `int` is
   Euclidean, so the sign cases are written out.)
   */
  function DivTrunc(x: int, y: int): int
    requires y != 0
  {
    var q := Abs(x) / Abs(y);
    if (x < 0) == (y < 0) then q else -q
  }

  /** `divide_op` (`vm.py:51-53`); a zero divisor raises. */
  function Divide(m: State, a: int): Result<State>
  {
    match CellValue(m, a)
    case Err(f) => Err(f)
    case Ok(v) => if v == 0 then Err(DivideByZero) else Ok(m.(acc := DivTrunc(m.acc, v)))
  }

  /** `write_op` (`vm.py:28-30`): the cell's text is printed. */
  function Write(m: State, a: int): Result<State>
  {
    match Cell(|m.memory|, a)
    case None => Err(IndexOutOfRange(a))
    case Some(i) => Ok(m.(output := m.output + [m.memory[i]]))
  }

  /** `branch_op` (`vm.py:59-64`). */
  function Branch(m: State, a: int): Result<State>
  {
    if a < 0 then Err(InvalidMemoryAddress(a)) else Ok(m.(pc := a))
  }

  /** `branchneg_op` (`vm.py:66-72`). */
  function BranchNeg(m: State, a: int): Result<State>
  {
    if a < 0 then Err(InvalidMemoryAddress(a))
    else if m.acc < 0 then Ok(m.(pc := a))
    else Ok(m)
  }

  /** `branchzero_op` (`vm.py:74-80`). */
  function BranchZero(m: State, a: int): Result<State>
  {
    if a < 0 then Err(InvalidMemoryAddress(a))
    else if m.acc == 0 then Ok(m.(pc := a))
    else Ok(m)
  }

  // ------------------------------------------------------------------ read_op

  /** `word.isnumeric()` on ASCII text. */
  predicate IsNumeric(word: string)
  {
    |word| > 0 && AllDigits(word)
  }

  /**
   A line `read_op` accepts: the negation of its loop guard
   `not word.isnumeric() or int(word) > 9999 or int(word) < -9999` (`vm.py:20`).
   */
  predicate Accepted(word: string)
  {
    IsNumeric(word) && !(DigitsValue(word) > MaxWord || DigitsValue(word) < -MaxWord)
  }

  /** The first accepted line and what is left after it; rejected lines are consumed. */
  function NextAccepted(input: seq<string>): (r: Option<(string, seq<string>)>)
    ensures r.Some? ==> Accepted(r.value.0) && |r.value.1| < |input|
  {
    if input == [] then None
    else if Accepted(input[0]) then Some((input[0], input[1..]))
    else NextAccepted(input[1..])
  }

  /** The text `read_op` writes for an accepted line (`vm.py:23-26`). */
  function ReadWord(word: string): string
    requires Accepted(word)
  {
    var v: int := DigitsValue(word);
    if v < 0 then ZFill(word, WordLength) else "+" + ZFill(word, DigitCount)
  }

  /**
   `read_op` (`vm.py:17-26`) with console input abstracted as the lines still to
   be read; running out of lines is `EOFError`. The line is consumed before the
   cell is indexed.
   */
  function Read(m: State, a: int, input: seq<string>): (Result<State>, seq<string>)
  {
    match NextAccepted(input)
    case None => (Err(EndOfInput), [])
    case Some((word, rest)) =>
      match Cell(|m.memory|, a)
      case None => (Err(IndexOutOfRange(a)), rest)
      case Some(i) => (Ok(m.(memory := m.memory[i := ReadWord(word)])), rest)
  }

  // -------------------------------------------------------- fetch and decode

  /** `self.memory[self.program_counter]`. */
  function Fetch(m: State): Result<string>
  {
    match Cell(|m.memory|, m.pc)
    case None => Err(IndexOutOfRange(m.pc))
    case Some(i) => Ok(m.memory[i])
  }

  /** `get_opcode` (`vm.py:90-93`). */
  function OpcodeAt(m: State): Result<string>
  {
    match Fetch(m)
    case Err(f) => Err(f)
    case Ok(code) => Ok(Opcode(code))
  }

  /**
   The decoding at the top of `process_next_step` (`vm.py:96-101`): the sign is
   `code[0]`, the opcode `code[1:3]`, the operand `int(code[3:5])`, negated when
   the sign is `-`.
   */
  function Decode(code: string): Result<(string, int)>
  {
    if |code| == 0 then Err(EmptyWord)
    else
      match ParseInt(Slice(code, 3, 5))
      case None => Err(NotANumber(Slice(code, 3, 5)))
      case Some(v) => Ok((Opcode(code), if code[0] == '-' then -v else v))
  }

  /** The instruction at the program counter, fetched and decoded (`vm.py:96-101`). */
  function Instruction(m: State): Result<(string, int)>
  {
    match Fetch(m)
    case Err(f) => Err(f)
    case Ok(code) => Decode(code)
  }

  /** The opcodes the dispatch knows, HALT included (`vm.py:105-129`). */
  const Opcodes: set<string> := {"10", "11", "20", "21", "30", "31", "32", "33", "40", "41", "42", "43"}

  /** The dispatch of `process_next_step` for every opcode but HALT (`vm.py:105-132`). */
  function Execute(m: State, op: string, a: int, input: seq<string>): (Result<State>, seq<string>)
  {
    if op == "10" then Read(m, a, input)
    else if op == "11" then (Write(m, a), input)
    else if op == "20" then (Load(m, a), input)
    else if op == "21" then (Store(m, a), input)
    else if op == "30" then (Add(m, a), input)
    else if op == "31" then (Subtract(m, a), input)
    else if op == "32" then (Divide(m, a), input)
    else if op == "33" then (Multiply(m, a), input)
    else if op == "40" then (Branch(m, a), input)
    else if op == "41" then (BranchNeg(m, a), input)
    else if op == "42" then (BranchZero(m, a), input)
    else (Err(InvalidOpcode(op)), input)
  }

  datatype Status = Stepped | HaltDecoded | Failed(fault: Fault)

  datatype StepResult = StepResult(status: Status, state: State, input: seq<string>)

  /**
   `process_next_step` (`vm.py:95-135`): fetch, decode, advance the program
   counter, dispatch, then truncate an overflowing accumulator. HALT returns
   straight after the advance. The state of a failed step is the state at the
   moment of the exception.
   */
  function Step(m: State, input: seq<string>): StepResult
  {
    match Instruction(m)
    case Err(f) => StepResult(Failed(f), m, input)
    case Ok((op, a)) =>
      var advanced := m.(pc := m.pc + 1);
      if op == HaltOpcode then StepResult(HaltDecoded, advanced, input)
      else Complete(advanced, Execute(advanced, op, a, input))
  }

  /** How a step goes on once the word at the program counter has decoded. */
  lemma StepDecoded(m: State, input: seq<string>)
    requires Instruction(m).Ok?
    ensures Instruction(m).value.0 == HaltOpcode ==>
      Step(m, input) == StepResult(HaltDecoded, m.(pc := m.pc + 1), input)
    ensures Instruction(m).value.0 != HaltOpcode ==>
      Step(m, input) == Complete(m.(pc := m.pc + 1),
        Execute(m.(pc := m.pc + 1), Instruction(m).value.0, Instruction(m).value.1, input))
  {
  }

  /**
   The end of a step that dispatched (`vm.py:134-135`): a raised operation keeps
   the advanced state, a returning one has its accumulator truncated.
   */
  function Complete(advanced: State, e: (Result<State>, seq<string>)): StepResult
  {
    match e.0
    case Err(f) => StepResult(Failed(f), advanced, e.1)
    case Ok(next) => StepResult(Stepped, next.(acc := CheckOverflow(next.acc)), e.1)
  }

  // ------------------------------------------------------------------- run

  datatype Resumption = Yielded | Finished | Raised(fault: Fault)

  datatype Progress = Progress(status: Resumption, state: State, input: seq<string>)

  /**
   One turn of the loop in `run` and `run_by_step` (`vm.py:137-148`): check the
   opcode at the program counter; on HALT print the notice and step past it,
   otherwise execute one instruction (after which `run_by_step` yields).
   */
  function Resume(m: State, input: seq<string>): Progress
  {
    match OpcodeAt(m)
    case Err(f) => Progress(Raised(f), m, input)
    case Ok(op) =>
      if op == HaltOpcode then
        Progress(Finished, m.(pc := m.pc + 1, output := m.output + [HaltNotice]), input)
      else
        var s := Step(m, input);
        Progress(if s.status.Failed? then Raised(s.status.fault) else Yielded, s.state, s.input)
  }

  datatype RunStatus = Halted | Faulted(fault: Fault) | OutOfFuel

  datatype RunResult = RunResult(status: RunStatus, state: State, input: seq<string>)

  /**
   At most `fuel` turns of a loop whose every turn is `next`: the loop goes on
   while a turn yields and stops at the first turn that finishes or raises.
   */
  function Drive(next: (State, seq<string>) -> Progress, m: State, input: seq<string>, fuel: nat): RunResult
    decreases fuel
  {
    if fuel == 0 then RunResult(OutOfFuel, m, input)
    else
      var p := next(m, input);
      match p.status
      case Yielded => Drive(next, p.state, p.input, fuel - 1)
      case Finished => RunResult(Halted, p.state, p.input)
      case Raised(f) => RunResult(Faulted(f), p.state, p.input)
  }

  /**
   `run` (`vm.py:137-141`) allowed at most `fuel` turns of its loop; the source
   loops for as long as the program does.
   */
  function Run(m: State, input: seq<string>, fuel: nat): RunResult
  {
    Drive(Resume, m, input, fuel)
  }
}
