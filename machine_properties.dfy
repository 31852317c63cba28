/**
 What the machine of `vm.py` guarantees, proved about the functions of module
 `Machine`: decoding, the bound on the accumulator, the store/load and read
 round trips, the branch conditions, truncating division, and how `run` ends.
 */
module MachineProperties {
  import opened Words
  import opened Machine

  // ----------------------------------------------------------------- decode

  lemma TwoDigitsValue(s: string)
    requires |s| == 2 && AllDigits(s)
    ensures DigitsValue(s) == 10 * DigitValue(s[0]) + DigitValue(s[1])
  {
    assert s[..1][..0] == [];
    assert s[..1] == [s[0]];
    assert DigitsValue(s[..1]) == DigitValue(s[0]);
    assert s[..|s| - 1] == s[..1];
  }

  /**
   Decoding a well-formed word: the opcode is characters 1-2, the operand is the
   number in characters 3-4, negated for a `-` sign, so it lies in [-99, 99] and
   always names a cell of the 100, a negative one counting from the end.
   */
  lemma DecodeWord(code: string)
    requires IsWord(code)
    ensures Decode(code).Ok?
    ensures Decode(code).value.0 == code[1..3]
    ensures var n := 10 * DigitValue(code[3]) + DigitValue(code[4]);
      Decode(code).value.1 == if code[0] == '-' then -n else n
    ensures -99 <= Decode(code).value.1 <= 99
    ensures var a := Decode(code).value.1;
      Cell(MemorySize, a) == Some(if a < 0 then MemorySize + a else a)
  {
    var f := code[3..5];
    assert Slice(code, 3, 5) == f;
    assert AllDigits(f) by {
      forall k | 0 <= k < 2 ensures IsDigit(f[k]) { assert f[k] == code[1..][k + 2]; }
    }
    TwoDigitsValue(f);
    assert ParseInt(f) == Some(DigitsValue(f));
  }

  // ------------------------------------------------------------------- step

  /**
   After every step that returns normally the accumulator is within
   [-9999, 9999], whatever it held before.
   */
  lemma StepKeepsAccumulatorInRange(m: State, input: seq<string>)
    requires Step(m, input).status == Stepped
    ensures -MaxWord <= Step(m, input).state.acc <= MaxWord
  {
    var (op, a) := Instruction(m).value;
    var advanced := m.(pc := m.pc + 1);
    var e := Execute(advanced, op, a, input);
    assert Step(m, input) == Complete(advanced, e);
    CheckOverflowInRange(e.0.value.acc);
  }

  /** The overflow check at the end of a step always leaves the accumulator in range. */
  lemma CheckOverflowInRange(acc: int)
    ensures -MaxWord <= CheckOverflow(acc) <= MaxWord
    ensures !Overflows(acc) ==> CheckOverflow(acc) == acc
  {
    if Overflows(acc) {
      TruncatedLowDigits(acc);
    }
  }

  /** A word that cannot be fetched or decoded raises before the program counter moves. */
  lemma StepFailsBeforeAdvance(m: State, input: seq<string>)
    requires Instruction(m).Err?
    ensures Step(m, input).status.Failed?
    ensures Step(m, input).state == m && Step(m, input).input == input
  {
  }

  /** The opcodes whose operation leaves the program counter alone. */
  predicate NonBranch(op: string)
  {
    op != "40" && op != "41" && op != "42"
  }

  /**
   The program counter is advanced before dispatch: every step of a decodable
   word that is not a branch ends with `pc == old pc + 1`, also when the
   operation raised or the opcode was HALT or unknown.
   */
  lemma StepAdvancesPc(m: State, input: seq<string>)
    requires Instruction(m).Ok? && NonBranch(Instruction(m).value.0)
    ensures Step(m, input).state.pc == m.pc + 1
  {
    var (op, a) := Instruction(m).value;
    var advanced := m.(pc := m.pc + 1);
    if op != HaltOpcode {
      assert Step(m, input) == Complete(advanced, Execute(advanced, op, a, input));
      ExecuteKeepsPc(advanced, op, a, input);
    }
  }

  /** Every operation but the branches leaves the program counter where it is. */
  lemma ExecuteKeepsPc(m: State, op: string, a: int, input: seq<string>)
    requires NonBranch(op)
    ensures Execute(m, op, a, input).0.Ok? ==> Execute(m, op, a, input).0.value.pc == m.pc
  {
  }

  /** An opcode outside the table raises with the program counter already advanced. */
  lemma StepUnknownOpcode(m: State, input: seq<string>)
    requires Instruction(m).Ok? && Instruction(m).value.0 !in Opcodes
    ensures var op := Instruction(m).value.0;
      Step(m, input) == StepResult(Failed(InvalidOpcode(op)), m.(pc := m.pc + 1), input)
  {
  }

  /** Whether a branch opcode jumps for a given accumulator. */
  predicate Taken(op: string, acc: int)
  {
    op == "40" || (op == "41" && acc < 0) || (op == "42" && acc == 0)
  }

  /**
   The three branches: a negative target raises with `pc` advanced past the
   branch; otherwise `pc` becomes the target exactly when the condition holds
   (always, accumulator negative, accumulator zero) and is `old pc + 1` when it
   does not. Nothing else changes but the end-of-step overflow check.
   */
  lemma StepBranch(m: State, input: seq<string>)
    requires Instruction(m).Ok? && !NonBranch(Instruction(m).value.0)
    ensures var (op, a) := Instruction(m).value;
      if a < 0 then
        Step(m, input) == StepResult(Failed(InvalidMemoryAddress(a)), m.(pc := m.pc + 1), input)
      else
        Step(m, input) == StepResult(Stepped,
          m.(pc := if Taken(op, m.acc) then a else m.pc + 1, acc := CheckOverflow(m.acc)), input)
  {
    var (op, a) := Instruction(m).value;
    var advanced := m.(pc := m.pc + 1);
    assert Step(m, input) == Complete(advanced, Execute(advanced, op, a, input));
  }

  /**
   A negative-signed word takes its operand negative and Python indexing wraps
   it: `"-2001"` loads cell 99.
   */
  lemma NegativeOperandWraps(m: State, input: seq<string>)
    requires |m.memory| == MemorySize && Fetch(m) == Ok("-2001") && IsWord(m.memory[99])
    ensures Step(m, input) == StepResult(Stepped,
      m.(pc := m.pc + 1, acc := ParseInt(m.memory[99]).value), input)
  {
    DecodeWord("-2001");
    assert "-2001"[1..3] == "20";
    assert Decode("-2001") == Ok(("20", -1));
    assert Cell(|m.memory|, -1) == Some(99);
    WordValue(m.memory[99]);
  }

  // ---------------------------------------------------------- store and load

  /**
   For an accumulator within [-9999, 9999], STORE writes a well-formed
   five-character word into the addressed cell and no other, and a later LOAD
   of that cell gives the accumulator back exactly, whatever it held meanwhile.
   */
  lemma StoreThenLoad(m: State, a: int, later: int)
    requires -MaxWord <= m.acc <= MaxWord && Cell(|m.memory|, a).Some?
    ensures Store(m, a).Ok?
    ensures var s, i := Store(m, a).value, Cell(|m.memory|, a).value;
      && IsWord(s.memory[i])
      && s.memory[i][0] == (if m.acc < 0 then '-' else '+')
      && |s.memory| == |m.memory|
      && (forall j :: 0 <= j < |m.memory| && j != i ==> s.memory[j] == m.memory[j])
      && s.pc == m.pc && s.acc == m.acc && s.output == m.output
      && Load(s.(acc := later), a) == Ok(s)
  {
    StoreWordRoundTrip(m.acc);
  }

  /** The two formats of the store tests: `+0067` and `-0089`. */
  lemma StoreWordExamples()
    ensures StoreWord(67) == "+0067"
    ensures StoreWord(-89) == "-0089"
  {
    assert Digits(67) == "67" by { assert Digits(6) == "6"; }
    assert Digits(89) == "89" by { assert Digits(8) == "8"; }
    assert Zeros(2) == "00";
    assert Str(-89) == "-89";
  }

  // ------------------------------------------------------------------ read

  /**
   An accepted line is a plain digit run whose value is in [0, 9999]: `int` of it
   is never negative, so the `-` branch of `read_op` (`vm.py:23-24`) is dead, and
   a line with a minus sign in it is never accepted.
   */
  lemma AcceptedIsNonNegative(word: string)
    ensures Accepted(word) ==> ParseInt(word) == Some(DigitsValue(word)) && DigitsValue(word) <= MaxWord
    ensures '-' in word ==> !Accepted(word)
  {
    if '-' in word {
      var k :| 0 <= k < |word| && word[k] == '-';
      assert !IsDigit(word[k]);
    }
  }

  lemma {:induction false} NothingAccepted(input: seq<string>)
    requires forall k :: 0 <= k < |input| ==> '-' in input[k]
    ensures NextAccepted(input) == None
  {
    if input != [] {
      AcceptedIsNonNegative(input[0]);
      NothingAccepted(input[1..]);
    }
  }

  /**
   Negative input is never accepted: if every line offered contains a `-`,
   READ consumes them all and never completes (here: the input runs out).
   */
  lemma ReadNeverTakesNegative(m: State, a: int, input: seq<string>)
    requires forall k :: 0 <= k < |input| ==> '-' in input[k]
    ensures Read(m, a, input) == (Err(EndOfInput), [])
  {
    NothingAccepted(input);
  }

  /**
   Reading the number `n` in [0, 9999] writes what STORE of `n` would write,
   `"+"` and `n` zero-padded to four digits, into the addressed cell only, and
   the cell reads back as `n`.
   */
  lemma ReadNumber(m: State, a: int, n: int, rest: seq<string>)
    requires 0 <= n <= MaxWord && Cell(|m.memory|, a).Some?
    ensures var i := Cell(|m.memory|, a).value;
      Read(m, a, [Str(n)] + rest) == (Ok(m.(memory := m.memory[i := StoreWord(n)])), rest)
    ensures StoreWord(n) == "+" + ZFill(Digits(n), DigitCount)
    ensures IsWord(StoreWord(n)) && ParseInt(StoreWord(n)) == Some(n)
  {
    DigitsValueOfDigits(n);
    assert Accepted(Str(n));
    assert ([Str(n)] + rest)[1..] == rest;
    StoreWordRoundTrip(n);
  }

  /**
   `zfill` pads the line as typed, not its value: `"00042"` is accepted and
   stored as the six-character `"+00042"`, which is not a well-formed word.
   */
  lemma ReadKeepsLeadingZeros(m: State, a: int, rest: seq<string>)
    requires Cell(|m.memory|, a).Some?
    ensures var i := Cell(|m.memory|, a).value;
      Read(m, a, ["00042"] + rest) == (Ok(m.(memory := m.memory[i := "+00042"])), rest)
    ensures !IsWord("+00042")
  {
    var w := "00042";
    assert w == Zeros(3) + "42";
    DigitsValueLeadingZeros(3, "42");
    TwoDigitsValue("42");
    assert DigitsValue(w) == 42;
    assert Accepted(w);
    assert ReadWord(w) == "+00042";
    assert (["00042"] + rest)[1..] == rest;
    assert NextAccepted(["00042"] + rest) == Some((w, rest));
  }

  // ------------------------------------------------------------ arithmetic

  /** SUBTRACT of the same cell undoes ADD. */
  lemma AddThenSubtract(m: State, a: int)
    requires Add(m, a).Ok?
    ensures Subtract(Add(m, a).value, a) == Ok(m)
  {
  }

  lemma MulAbs(x: int, y: int)
    ensures Abs(x * y) == Abs(x) * Abs(y)
  {
    if x < 0 && y < 0 { assert x * y == (-x) * (-y); }
    else if x < 0 { assert -(x * y) == (-x) * y; }
    else if y < 0 { assert -(x * y) == x * (-y); }
  }

  lemma MulSign(x: int, y: int)
    requires y != 0
    ensures x * y < 0 <==> x != 0 && (x < 0) != (y < 0)
  {
    MulAbs(x, y);
    if x != 0 { MulAtLeast(Abs(y), Abs(x)); }
  }

  /** Division rounds toward zero: a product divided by a factor is the other factor. */
  lemma DivTruncExact(x: int, y: int)
    requires y != 0
    ensures DivTrunc(x * y, y) == x
  {
    MulAbs(x, y);
    ModUnique(Abs(x * y), Abs(y), Abs(x), 0);
    MulSign(x, y);
  }

  /** DIVIDE of the same non-zero cell undoes MULTIPLY. */
  lemma MultiplyThenDivide(m: State, a: int)
    requires Multiply(m, a).Ok? && CellValue(m, a).value != 0
    ensures Divide(Multiply(m, a).value, a) == Ok(m)
  {
    DivTruncExact(m.acc, CellValue(m, a).value);
  }

  /**
   `int(x / y)` is the quotient rounded toward zero: the remainder
   `x - q * y` is smaller than the divisor in magnitude and is zero or has the
   sign of the dividend (for a negative dividend this differs from Dafny's `/`).
   */
  lemma DivTruncRemainder(x: int, y: int)
    requires y != 0
    ensures var q := DivTrunc(x, y); var r := x - q * y;
      Abs(r) < Abs(y) && (r == 0 || (r < 0) == (x < 0))
  {
    var ax: int, ay: int := Abs(x), Abs(y);
    var q0, r0 := ax / ay, ax % ay;
    assert ax == q0 * ay + r0 && 0 <= r0 < ay;
    var q := DivTrunc(x, y);
    SignedProducts(q0, ay);
    if x < 0 {
      assert x == -(q0 * ay) - r0;
      assert x - q * y == -r0;
    } else {
      assert x == q0 * ay + r0;
      assert x - q * y == r0;
    }
  }

  lemma SignedProducts(a: int, b: int)
    ensures (-a) * (-b) == a * b && (-a) * b == -(a * b) && a * (-b) == -(a * b)
  {
  }

  /**
   DIVIDE: a zero divisor raises `ZeroDivisionError` and changes nothing;
   otherwise the accumulator becomes the truncated quotient, as in the
   division tests (30 / 3, 10 / 5) and toward zero for -7 / 2.
   */
  lemma DivideByCell(m: State, a: int)
    requires CellValue(m, a).Ok?
    ensures CellValue(m, a).value == 0 ==> Divide(m, a) == Err(DivideByZero)
    ensures CellValue(m, a).value != 0 ==>
      var v := CellValue(m, a).value;
      var q := Divide(m, a).value.acc;
      Divide(m, a) == Ok(m.(acc := q)) && Abs(m.acc - q * v) < Abs(v)
      && (m.acc - q * v == 0 || (m.acc - q * v < 0) == (m.acc < 0))
    ensures DivTrunc(30, 3) == 10 && DivTrunc(10, 5) == 2 && DivTrunc(-7, 2) == -3
  {
    if CellValue(m, a).value != 0 {
      DivTruncRemainder(m.acc, CellValue(m, a).value);
    }
  }

  // ------------------------------------------------------------------- run

  /** More fuel changes nothing once a driven loop has ended with fuel to spare. */
  lemma {:induction false} DriveFuelMonotone(next: (State, seq<string>) -> Progress, m: State, input: seq<string>, fuel: nat, more: nat)
    requires Drive(next, m, input, fuel).status != OutOfFuel && fuel <= more
    ensures Drive(next, m, input, more) == Drive(next, m, input, fuel)
    decreases fuel
  {
    assert fuel != 0;
    var p := next(m, input);
    if p.status.Yielded? {
      DriveFuelMonotone(next, p.state, p.input, fuel - 1, more - 1);
    }
  }

  /** A driven loop that halts does so on a turn that finished, and returns what that turn left. */
  lemma {:induction false} DriveHaltsOnFinishedTurn(next: (State, seq<string>) -> Progress, m: State, input: seq<string>, fuel: nat)
    returns (last: State, lastInput: seq<string>)
    requires Drive(next, m, input, fuel).status == Halted
    ensures next(last, lastInput).status == Finished
    ensures next(last, lastInput).state == Drive(next, m, input, fuel).state
    ensures next(last, lastInput).input == Drive(next, m, input, fuel).input
    decreases fuel
  {
    assert fuel != 0;
    var p := next(m, input);
    if p.status.Yielded? {
      last, lastInput := DriveHaltsOnFinishedTurn(next, p.state, p.input, fuel - 1);
    } else {
      last, lastInput := m, input;
    }
  }

  /** The turn of the loop that finds a HALT word. */
  lemma ResumeFinished(m: State, input: seq<string>)
    requires Resume(m, input).status == Finished
    ensures OpcodeAt(m) == Ok(HaltOpcode)
    ensures Resume(m, input) == Progress(Finished, m.(pc := m.pc + 1, output := m.output + [HaltNotice]), input)
  {
  }

  /** `run` stops at a HALT word without executing it and leaves `pc` one past it. */
  lemma RunAtHalt(m: State, input: seq<string>, fuel: nat)
    requires fuel >= 1 && OpcodeAt(m) == Ok(HaltOpcode)
    ensures Run(m, input, fuel) ==
      RunResult(Halted, m.(pc := m.pc + 1, output := m.output + [HaltNotice]), input)
  {
  }

  /**
   Whenever `run` halts, the word just before the final program counter is a
   HALT word, and the halt notice was the last line printed.
   */
  lemma RunEndsPastHaltWord(m: State, input: seq<string>, fuel: nat)
    requires Run(m, input, fuel).status == Halted
    ensures var r := Run(m, input, fuel).state;
      OpcodeAt(r.(pc := r.pc - 1)) == Ok(HaltOpcode)
      && |r.output| > 0 && r.output[|r.output| - 1] == HaltNotice
  {
    var last, lastInput := DriveHaltsOnFinishedTurn(Resume, m, input, fuel);
    ResumeFinished(last, lastInput);
    var r := Run(m, input, fuel).state;
    assert r.(pc := r.pc - 1) == last.(output := last.output + [HaltNotice]);
  }

  /** More fuel changes nothing once `run` has ended with fuel to spare. */
  lemma RunFuelMonotone(m: State, input: seq<string>, fuel: nat, more: nat)
    requires Run(m, input, fuel).status != OutOfFuel && fuel <= more
    ensures Run(m, input, more) == Run(m, input, fuel)
  {
    DriveFuelMonotone(Resume, m, input, fuel, more);
  }

  /** A HALT at address 0 ends `run` with `pc == 1`, never reaching address 1. */
  lemma HaltAtZero(m: State, input: seq<string>, fuel: nat)
    requires |m.memory| == MemorySize && m.pc == 0 && m.memory[0] == "+4300" && fuel >= 1
    ensures Run(m, input, fuel) == RunResult(Halted, m.(pc := 1, output := m.output + [HaltNotice]), input)
  {
    assert Opcode("+4300") == HaltOpcode;
  }

  /**
   `"+4050"` at address 0 and a HALT at 50 end `run` with `pc == 51`, whatever
   the accumulator held; the branch step's overflow check is all that touches it.
   */
  lemma BranchToHalt(m: State, input: seq<string>, fuel: nat)
    requires |m.memory| == MemorySize && m.pc == 0
    requires m.memory[0] == "+4050" && m.memory[50] == "+4300" && fuel >= 2
    ensures Run(m, input, fuel) ==
      RunResult(Halted, m.(pc := 51, acc := CheckOverflow(m.acc), output := m.output + [HaltNotice]), input)
  {
    DecodeWord("+4050");
    assert "+4050"[1..3] == "40";
    var m1 := m.(pc := 50, acc := CheckOverflow(m.acc));
    assert Step(m, input) == StepResult(Stepped, m1, input);
    assert Run(m, input, fuel) == Run(m1, input, fuel - 1);
    assert OpcodeAt(m1) == Ok(HaltOpcode);
  }

  /**
   A HALT in the last cell ends `run` with `pc == 100`; a further fetch at that
   counter raises `IndexError`.
   */
  lemma HaltAtLastCell(m: State, input: seq<string>, fuel: nat)
    requires |m.memory| == MemorySize && m.pc == 99 && Opcode(m.memory[99]) == HaltOpcode && fuel >= 1
    ensures Run(m, input, fuel).status == Halted && Run(m, input, fuel).state.pc == 100
    ensures OpcodeAt(Run(m, input, fuel).state) == Err(IndexOutOfRange(100))
  {
  }

  /**
   An opcode outside the table makes `run` raise `ValueError` at once, with the
   program counter past the word (for instance `"+9900"`).
   */
  lemma RunUnknownOpcode(m: State, input: seq<string>, fuel: nat)
    requires fuel >= 1 && Instruction(m).Ok? && Instruction(m).value.0 !in Opcodes
    ensures var op := Instruction(m).value.0;
      Run(m, input, fuel) == RunResult(Faulted(InvalidOpcode(op)), m.(pc := m.pc + 1), input)
  {
    StepUnknownOpcode(m, input);
    assert OpcodeAt(m) == Ok(Instruction(m).value.0);
  }
}
