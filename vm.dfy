/**
 The class `VM` of `vm.py:1-148`, in place: the memory is an array whose cells
 the operations overwrite, and the program counter, the accumulator and the
 printed lines are fields. Every method is proved to leave exactly the state the
 matching function of module `Machine` describes, and to report the exception
 that function reports.
 */
module Vm {
  import opened Words
  import opened Machine

  class VM {
    var memory: array<string>
    var pc: int
    var acc: int
    /** The lines printed so far (`write_op` and the `"HALT."` of `run`). */
    var output: seq<string>

    /** The machine state this object stands for. */
    function State(): State
      reads this, memory
    {
      Machine.State(memory[..], pc, acc, output)
    }

    /** `__init__` (`vm.py:2-5`). */
    constructor ()
      ensures State() == Initial()
      ensures fresh(memory)
    {
      memory := new string[MemorySize](_ => BlankWord);
      pc := 0;
      acc := 0;
      output := [];
    }

    /** `accumulator_overflow` (`vm.py:7-8`). */
    method AccumulatorOverflow() returns (b: bool)
      ensures b <==> !(-MaxWord <= acc <= MaxWord)
    {
      b := acc > MaxWord || acc < -MaxWord;
    }

    /** `truncate_accumulator` (`vm.py:10-15`). */
    method TruncateAccumulator()
      modifies this
      ensures acc == Truncated(old(acc))
      ensures Overflows(old(acc)) ==> -MaxWord <= acc <= MaxWord
      ensures memory == old(memory) && pc == old(pc) && output == old(output)
    {
      var adjusted := Last(Str(acc), 4);
      LastOfStrIsNumber(acc);
      if acc > 0 {
        acc := ParseInt(adjusted).value;
      } else {
        acc := -ParseInt(adjusted).value;
      }
      if Overflows(old(acc)) {
        TruncatedLowDigits(old(acc));
      }
    }

    /** `self.memory[a]` with Python's indexing; the index of the cell, or the exception. */
    method Index(a: int) returns (r: Result<nat>)
      ensures r.Ok? <==> Cell(memory.Length, a).Some?
      ensures r.Ok? ==> Cell(memory.Length, a) == Some(r.value) && r.value < memory.Length
      ensures r.Err? ==> r.fault == IndexOutOfRange(a)
    {
      if 0 <= a < memory.Length {
        r := Ok(a);
      } else if -memory.Length <= a < 0 {
        r := Ok(memory.Length + a);
      } else {
        r := Err(IndexOutOfRange(a));
      }
    }

    /** `int(self.memory[a])`. */
    method ReadCell(a: int) returns (r: Result<int>)
      ensures r == CellValue(State(), a)
    {
      var i := Index(a);
      if i.Err? {
        return Err(i.fault);
      }
      var code := memory[i.value];
      var v := ParseInt(code);
      if v.None? {
        return Err(NotANumber(code));
      }
      r := Ok(v.value);
    }

    /**
     `read_op` (`vm.py:17-26`): lines are taken from `input` until one passes the
     guard of `vm.py:20`; the rest of the input is returned. With no line left
     the operation fails with `EndOfInput` and the input is used up.
     */
    method ReadOp(operand: int, input: seq<string>) returns (fault: Option<Fault>, rest: seq<string>)
      modifies memory
      ensures fault == FaultOf(Read(old(State()), operand, input).0)
      ensures State() == After(old(State()), Read(old(State()), operand, input).0)
      ensures rest == Read(old(State()), operand, input).1
    {
      if input == [] {
        return Some(EndOfInput), [];
      }
      var word := input[0];
      rest := input[1..];
      while !Accepted(word)
        invariant NextAccepted(input) == if Accepted(word) then Some((word, rest)) else NextAccepted(rest)
        decreases |rest|
      {
        if rest == [] {
          return Some(EndOfInput), [];
        }
        word := rest[0];
        rest := rest[1..];
      }
      var i := Index(operand);
      if i.Err? {
        return Some(i.fault), rest;
      }
      memory[i.value] := ReadWord(word);
      fault := None;
    }

    /** `write_op` (`vm.py:28-30`). */
    method WriteOp(operand: int) returns (fault: Option<Fault>)
      modifies this
      ensures memory == old(memory)
      ensures fault == FaultOf(Write(old(State()), operand))
      ensures State() == After(old(State()), Write(old(State()), operand))
    {
      var i := Index(operand);
      if i.Err? {
        return Some(i.fault);
      }
      output := output + [memory[i.value]];
      fault := None;
    }

    /** `load_op` (`vm.py:32-34`). */
    method LoadOp(operand: int) returns (fault: Option<Fault>)
      modifies this
      ensures memory == old(memory)
      ensures fault == FaultOf(Load(old(State()), operand))
      ensures State() == After(old(State()), Load(old(State()), operand))
    {
      var v := ReadCell(operand);
      if v.Err? {
        return Some(v.fault);
      }
      acc := v.value;
      fault := None;
    }

    /** `store_op` (`vm.py:36-41`). */
    method StoreOp(operand: int) returns (fault: Option<Fault>)
      modifies memory
      ensures fault == FaultOf(Store(old(State()), operand))
      ensures State() == After(old(State()), Store(old(State()), operand))
    {
      var i := Index(operand);
      if i.Err? {
        return Some(i.fault);
      }
      if acc < 0 {
        memory[i.value] := ZFill(Str(acc), WordLength);
      } else {
        memory[i.value] := "+" + ZFill(Str(acc), DigitCount);
      }
      fault := None;
    }

    /** `add_op` (`vm.py:43-45`). */
    method AddOp(operand: int) returns (fault: Option<Fault>)
      modifies this
      ensures memory == old(memory)
      ensures fault == FaultOf(Add(old(State()), operand))
      ensures State() == After(old(State()), Add(old(State()), operand))
    {
      var v := ReadCell(operand);
      if v.Err? {
        return Some(v.fault);
      }
      acc := acc + v.value;
      fault := None;
    }

    /** `subtract_op` (`vm.py:47-49`). */
    method SubtractOp(operand: int) returns (fault: Option<Fault>)
      modifies this
      ensures memory == old(memory)
      ensures fault == FaultOf(Subtract(old(State()), operand))
      ensures State() == After(old(State()), Subtract(old(State()), operand))
    {
      var v := ReadCell(operand);
      if v.Err? {
        return Some(v.fault);
      }
      acc := acc - v.value;
      fault := None;
    }

    /** `divide_op` (`vm.py:51-53`). */
    method DivideOp(operand: int) returns (fault: Option<Fault>)
      modifies this
      ensures memory == old(memory)
      ensures fault == FaultOf(Divide(old(State()), operand))
      ensures State() == After(old(State()), Divide(old(State()), operand))
    {
      var v := ReadCell(operand);
      if v.Err? {
        return Some(v.fault);
      }
      if v.value == 0 {
        return Some(DivideByZero);
      }
      acc := DivTrunc(acc, v.value);
      fault := None;
    }

    /** `multiply_op` (`vm.py:55-57`). */
    method MultiplyOp(operand: int) returns (fault: Option<Fault>)
      modifies this
      ensures memory == old(memory)
      ensures fault == FaultOf(Multiply(old(State()), operand))
      ensures State() == After(old(State()), Multiply(old(State()), operand))
    {
      var v := ReadCell(operand);
      if v.Err? {
        return Some(v.fault);
      }
      acc := acc * v.value;
      fault := None;
    }

    /** `branch_op` (`vm.py:59-64`). */
    method BranchOp(addr: int) returns (fault: Option<Fault>)
      modifies this
      ensures memory == old(memory)
      ensures fault == FaultOf(Branch(old(State()), addr))
      ensures State() == After(old(State()), Branch(old(State()), addr))
    {
      if addr < 0 {
        return Some(InvalidMemoryAddress(addr));
      }
      pc := addr;
      fault := None;
    }

    /** `branchneg_op` (`vm.py:66-72`). */
    method BranchNegOp(addr: int) returns (fault: Option<Fault>)
      modifies this
      ensures memory == old(memory)
      ensures fault == FaultOf(BranchNeg(old(State()), addr))
      ensures State() == After(old(State()), BranchNeg(old(State()), addr))
    {
      if addr < 0 {
        return Some(InvalidMemoryAddress(addr));
      }
      if acc < 0 {
        pc := addr;
      }
      fault := None;
    }

    /** `branchzero_op` (`vm.py:74-80`). */
    method BranchZeroOp(addr: int) returns (fault: Option<Fault>)
      modifies this
      ensures memory == old(memory)
      ensures fault == FaultOf(BranchZero(old(State()), addr))
      ensures State() == After(old(State()), BranchZero(old(State()), addr))
    {
      if addr < 0 {
        return Some(InvalidMemoryAddress(addr));
      }
      if acc == 0 {
        pc := addr;
      }
      fault := None;
    }

    /** `get_opcode` (`vm.py:90-93`). */
    method GetOpcode() returns (r: Result<string>)
      ensures r == OpcodeAt(State())
    {
      var i := Index(pc);
      if i.Err? {
        return Err(i.fault);
      }
      r := Ok(Slice(memory[i.value], 1, 3));
    }

    /** The `match` of `process_next_step` for every opcode but HALT (`vm.py:105-132`). */
    method Dispatch(op: string, operand: int, input: seq<string>) returns (fault: Option<Fault>, rest: seq<string>)
      requires op != HaltOpcode
      modifies this, memory
      ensures memory == old(memory)
      ensures fault == FaultOf(Execute(old(State()), op, operand, input).0)
      ensures State() == After(old(State()), Execute(old(State()), op, operand, input).0)
      ensures rest == Execute(old(State()), op, operand, input).1
    {
      rest := input;
      if op == "10" {
        fault, rest := ReadOp(operand, input);
      } else if op == "11" {
        fault := WriteOp(operand);
      } else if op == "20" {
        fault := LoadOp(operand);
      } else if op == "21" {
        fault := StoreOp(operand);
      } else if op == "30" {
        fault := AddOp(operand);
      } else if op == "31" {
        fault := SubtractOp(operand);
      } else if op == "32" {
        fault := DivideOp(operand);
      } else if op == "33" {
        fault := MultiplyOp(operand);
      } else if op == "40" {
        fault := BranchOp(operand);
      } else if op == "41" {
        fault := BranchNegOp(operand);
      } else if op == "42" {
        fault := BranchZeroOp(operand);
      } else {
        fault := Some(InvalidOpcode(op));
      }
    }

    /**
     The decoding at the top of `process_next_step` (`vm.py:96-101`): the
     opcode and the signed operand of the word at the program counter.
     */
    method FetchAndDecode() returns (r: Result<(string, int)>)
      ensures r == Instruction(State())
    {
      var i := Index(pc);
      if i.Err? {
        return Err(i.fault);
      }
      var code := memory[i.value];
      if |code| == 0 {
        return Err(EmptyWord);
      }
      var sign := code[0];
      var opcode := GetOpcode();
      var parsed := ParseInt(Slice(code, 3, 5));
      if parsed.None? {
        return Err(NotANumber(Slice(code, 3, 5)));
      }
      var operand := parsed.value;
      if sign == '-' {
        operand := -operand;
      }
      r := Ok((opcode.value, operand));
    }

    /** The dispatch and the overflow check that ends a step (`vm.py:105-135`). */
    method DispatchAndTruncate(op: string, operand: int, input: seq<string>) returns (status: Status, rest: seq<string>)
      requires op != HaltOpcode
      modifies this, memory
      ensures memory == old(memory)
      ensures StepResult(status, State(), rest) == Complete(old(State()), Execute(old(State()), op, operand, input))
    {
      var fault;
      fault, rest := Dispatch(op, operand, input);
      if fault.Some? {
        return Failed(fault.value), rest;
      }
      var overflow := AccumulatorOverflow();
      if overflow {
        TruncateAccumulator();
      }
      status := Stepped;
    }

    /**
     `process_next_step` (`vm.py:95-135`). The status says whether the step ran
     an instruction, decoded a HALT, or raised; `rest` is the input left.
     */
    method ProcessNextStep(input: seq<string>) returns (status: Status, rest: seq<string>)
      modifies this, memory
      ensures memory == old(memory)
      ensures StepResult(status, State(), rest) == Step(old(State()), input)
    {
      rest := input;
      ghost var m0 := State();
      var instruction := FetchAndDecode();
      if instruction.Err? {
        return Failed(instruction.fault), rest;
      }
      StepDecoded(m0, input);
      var (opcode, operand) := instruction.value;
      pc := pc + 1;
      assert State() == m0.(pc := m0.pc + 1);
      if opcode == HaltOpcode {
        return HaltDecoded, rest;
      }
      status, rest := DispatchAndTruncate(opcode, operand, input);
    }

    /**
     One turn of the loop of `run_by_step` (`vm.py:143-148`), that is, one call
     of `next` on the generator: a step that yields, or the HALT notice and the
     final advance of the program counter.
     */
    method RunByStep(input: seq<string>) returns (status: Resumption, rest: seq<string>)
      modifies this, memory
      ensures memory == old(memory)
      ensures Progress(status, State(), rest) == Resume(old(State()), input)
    {
      rest := input;
      var opcode := GetOpcode();
      if opcode.Err? {
        return Raised(opcode.fault), rest;
      }
      if opcode.value == HaltOpcode {
        output := output + [HaltNotice];
        pc := pc + 1;
        return Finished, rest;
      }
      var s;
      s, rest := ProcessNextStep(input);
      status := if s.Failed? then Raised(s.fault) else Yielded;
    }

    /** `run` (`vm.py:137-141`), allowed at most `fuel` turns of its loop. */
    method Run(input: seq<string>, fuel: nat) returns (status: RunStatus, rest: seq<string>)
      modifies this, memory
      ensures memory == old(memory)
      ensures RunResult(status, State(), rest) == Machine.Run(old(State()), input, fuel)
    {
      rest := input;
      var f := fuel;
      while f > 0
        invariant memory == old(memory)
        invariant Machine.Run(State(), rest, f) == Machine.Run(old(State()), input, fuel)
        decreases f
      {
        var opcode := GetOpcode();
        if opcode.Err? {
          return Faulted(opcode.fault), rest;
        }
        if opcode.value == HaltOpcode {
          output := output + [HaltNotice];
          pc := pc + 1;
          return Halted, rest;
        }
        var s;
        s, rest := ProcessNextStep(rest);
        if s.Failed? {
          return Faulted(s.fault), rest;
        }
        f := f - 1;
      }
      status := OutOfFuel;
    }
  }
}
