/**
 `ProgramLoader` (`vm.py:150-184`): `load` checks the lines of a program file and
 installs them as the memory of a `VM` only when every check passes;
 `load_string` splits the text of an editor buffer into lines and installs them
 unchecked. The class has no state of its own, so its two methods are methods
 of this module taking the `VM`. Each is proved against a function giving the
 memory it installs or the exception it raises.
 */
module Loader {
  import opened Words
  import opened Machine
  import opened Vm
  import opened MachineProperties

  /**
   The exceptions of the loader: `MemoryError` (ProgramTooLarge), `ValueError`
   (InvalidInstruction) and `RuntimeError` (NoHaltInstruction).
   */
  datatype LoadError = ProgramTooLarge | InvalidInstruction(code: string) | NoHaltInstruction

  /** The memory a loader installs, or the exception it raises instead. */
  datatype Outcome = Installed(memory: seq<string>) | Refused(error: LoadError)

  function ErrorOf(o: Outcome): Option<LoadError>
  {
    if o.Installed? then None else Some(o.error)
  }

  /** The test that sets `has_halt` (`vm.py:167-168`): characters 1 and 2 are `43`, whatever the sign. */
  predicate IsHalt(code: string)
  {
    Opcode(code) == HaltOpcode
  }

  /** Every line with surrounding whitespace removed (`vm.py:162`). */
  function Stripped(lines: seq<string>): (codes: seq<string>)
    ensures |codes| == |lines|
    ensures forall i :: 0 <= i < |lines| ==> codes[i] == Strip(lines[i])
  {
    seq(|lines|, i requires 0 <= i < |lines| => Strip(lines[i]))
  }

  /**
   A 100-cell memory holding `codes` from address 0 on and `"+0000"` after
   them (`vm.py:153`, `vm.py:170`, `vm.py:182-184`).
   */
  function Image(codes: seq<string>): (r: seq<string>)
    requires |codes| <= MemorySize
    ensures |r| == MemorySize
    ensures forall i :: 0 <= i < |codes| ==> r[i] == codes[i]
    ensures forall i :: |codes| <= i < MemorySize ==> r[i] == BlankWord
  {
    codes + seq(MemorySize - |codes|, _ => BlankWord)
  }

  /** Where the loop of `load` (`vm.py:161-170`) stands after a prefix of the lines. */
  datatype Scan = Scanned(hasHalt: bool) | Stopped(code: string)

  /** The loop of `load` over `codes`: it stops at the first malformed word. */
  function ScanCodes(codes: seq<string>): Scan
  {
    if codes == [] then Scanned(false)
    else
      match ScanCodes(codes[..|codes| - 1])
      case Stopped(c) => Stopped(c)
      case Scanned(h) =>
        var code := codes[|codes| - 1];
        if !IsWord(code) then Stopped(code) else Scanned(h || IsHalt(code))
  }

  /** `ProgramLoader.load` (`vm.py:151-175`) on the lines of the file. */
  function LoadProgram(lines: seq<string>): Outcome
  {
    if |lines| > MemorySize then Refused(ProgramTooLarge)
    else
      match ScanCodes(Stripped(lines))
      case Stopped(c) => Refused(InvalidInstruction(c))
      case Scanned(h) => if h then Installed(Image(Stripped(lines))) else Refused(NoHaltInstruction)
  }

  /** The lines of `program` that are not empty (`vm.py:178`). */
  function NonEmpty(parts: seq<string>): (r: seq<string>)
    ensures |r| <= |parts|
    ensures forall k :: 0 <= k < |r| ==> r[k] != "" && r[k] in parts
  {
    if parts == [] then []
    else if parts[0] == "" then NonEmpty(parts[1..])
    else [parts[0]] + NonEmpty(parts[1..])
  }

  /** `[line for line in program.split("\n") if line]` (`vm.py:178`). */
  function ProgramWords(program: string): (words: seq<string>)
    ensures forall k :: 0 <= k < |words| ==> words[k] != "" && '\n' !in words[k]
  {
    NonEmpty(SplitLines(program))
  }

  /** `ProgramLoader.load_string` (`vm.py:177-184`). */
  function LoadStringProgram(program: string): Outcome
  {
    var words := ProgramWords(program);
    if |words| > MemorySize then Refused(ProgramTooLarge) else Installed(Image(words))
  }

  // ------------------------------------------------------------ the scan

  /**
   The scan passes exactly when every code is a word, and then it has seen a
   HALT exactly when some code has opcode `43`; when it stops, it stops at the
   first code that is not a word.
   */
  lemma {:induction false} ScanMeaning(codes: seq<string>)
    ensures ScanCodes(codes).Scanned? <==> forall i :: 0 <= i < |codes| ==> IsWord(codes[i])
    ensures ScanCodes(codes).Scanned? ==>
      (ScanCodes(codes).hasHalt <==> exists i :: 0 <= i < |codes| && IsHalt(codes[i]))
    ensures ScanCodes(codes).Stopped? ==>
      exists k :: 0 <= k < |codes| && codes[k] == ScanCodes(codes).code && !IsWord(codes[k])
        && forall j :: 0 <= j < k ==> IsWord(codes[j])
    decreases |codes|
  {
    if codes != [] {
      var init := codes[..|codes| - 1];
      var last := |codes| - 1;
      ScanMeaning(init);
      assert forall i :: 0 <= i < last ==> init[i] == codes[i];
      if ScanCodes(init).Scanned? {
        if !IsWord(codes[last]) {
          assert codes[last] == ScanCodes(codes).code;
        } else if ScanCodes(init).hasHalt {
          var i :| 0 <= i < |init| && IsHalt(init[i]);
          assert IsHalt(codes[i]);
        }
      } else {
        var k :| 0 <= k < |init| && init[k] == ScanCodes(init).code && !IsWord(init[k])
          && forall j :: 0 <= j < k ==> IsWord(init[j]);
        assert codes[k] == ScanCodes(codes).code && !IsWord(codes[k]);
        assert forall j :: 0 <= j < k ==> IsWord(codes[j]);
      }
    }
  }

  /** Once the scan has stopped on a prefix, the whole scan stops there too. */
  lemma {:induction false} ScanStopsForGood(codes: seq<string>, n: nat)
    requires n <= |codes| && ScanCodes(codes[..n]).Stopped?
    ensures ScanCodes(codes) == ScanCodes(codes[..n])
    decreases |codes| - n
  {
    if n < |codes| {
      assert codes[..n + 1][..n] == codes[..n];
      ScanStopsForGood(codes, n + 1);
    } else {
      assert codes[..n] == codes;
    }
  }

  /** One more code for the scan. */
  lemma ScanStep(codes: seq<string>, i: nat)
    requires i < |codes|
    ensures ScanCodes(codes[..i + 1]) ==
      match ScanCodes(codes[..i])
      case Stopped(c) => Stopped(c)
      case Scanned(h) => if !IsWord(codes[i]) then Stopped(codes[i]) else Scanned(h || IsHalt(codes[i]))
  {
    assert codes[..i + 1][..i] == codes[..i];
  }

  /** Writing the next code into the memory image. */
  lemma ImageStep(codes: seq<string>, i: nat)
    requires i < |codes| <= MemorySize
    ensures Image(codes[..i])[i := codes[i]] == Image(codes[..i + 1])
  {
  }

  /** `load` when the scan stops at a malformed code. */
  lemma LoadStopped(lines: seq<string>, code: string)
    requires |lines| <= MemorySize && ScanCodes(Stripped(lines)) == Stopped(code)
    ensures LoadProgram(lines) == Refused(InvalidInstruction(code))
  {
  }

  /** `load` when the scan passes over every line. */
  lemma LoadScanned(lines: seq<string>, hasHalt: bool)
    requires |lines| <= MemorySize && ScanCodes(Stripped(lines)) == Scanned(hasHalt)
    ensures LoadProgram(lines) == if hasHalt then Installed(Image(Stripped(lines))) else Refused(NoHaltInstruction)
  {
  }

  // ---------------------------------------------------------- what load does

  /**
   `load` installs a program exactly when it has at most 100 lines, every
   stripped line is a sign and four digits, and some line has opcode `43`.
   */
  lemma LoadSucceedsIff(lines: seq<string>)
    ensures LoadProgram(lines).Installed? <==>
      |lines| <= MemorySize
      && (forall i :: 0 <= i < |lines| ==> IsWord(Strip(lines[i])))
      && (exists i :: 0 <= i < |lines| && IsHalt(Strip(lines[i])))
  {
    var codes := Stripped(lines);
    ScanMeaning(codes);
    if (exists i :: 0 <= i < |lines| && IsHalt(Strip(lines[i]))) {
      var i :| 0 <= i < |lines| && IsHalt(Strip(lines[i]));
      assert IsHalt(codes[i]);
    }
  }

  /**
   `load` raises `MemoryError` exactly for more than 100 lines and otherwise
   names the first stripped line that is not a word, when there is one.
   */
  lemma LoadRefusesInvalid(lines: seq<string>)
    ensures LoadProgram(lines) == Refused(ProgramTooLarge) <==> |lines| > MemorySize
    ensures LoadProgram(lines).Refused? && LoadProgram(lines).error.InvalidInstruction? ==>
      exists k :: 0 <= k < |lines| && Strip(lines[k]) == LoadProgram(lines).error.code
        && !IsWord(Strip(lines[k])) && forall j :: 0 <= j < k ==> IsWord(Strip(lines[j]))
  {
    ScanMeaning(Stripped(lines));
  }

  /**
   `load` raises `RuntimeError` exactly when the program fits and every line is
   a word but no line has opcode `43`.
   */
  lemma LoadRefusesNoHalt(lines: seq<string>)
    ensures LoadProgram(lines) == Refused(NoHaltInstruction) <==>
      |lines| <= MemorySize
      && (forall i :: 0 <= i < |lines| ==> IsWord(Strip(lines[i])))
      && !(exists i :: 0 <= i < |lines| && IsHalt(Strip(lines[i])))
  {
    var codes := Stripped(lines);
    ScanMeaning(codes);
    if (exists i :: 0 <= i < |lines| && IsHalt(Strip(lines[i]))) {
      var i :| 0 <= i < |lines| && IsHalt(Strip(lines[i]));
      assert IsHalt(codes[i]);
    }
  }

  /**
   An installed program fills the cells from 0 with the stripped lines and the
   rest with `"+0000"`, so every one of the 100 cells is a well-formed word.
   */
  lemma LoadedMemory(lines: seq<string>)
    requires LoadProgram(lines).Installed?
    ensures var mem := LoadProgram(lines).memory;
      mem == Image(Stripped(lines))
      && |mem| == MemorySize
      && (forall i :: 0 <= i < |lines| ==> mem[i] == Strip(lines[i]))
      && (forall i :: |lines| <= i < MemorySize ==> mem[i] == BlankWord)
      && (forall i :: 0 <= i < MemorySize ==> IsWord(mem[i]))
  {
    var codes := Stripped(lines);
    ScanMeaning(codes);
    LoadScanned(lines, true);
    ImageOfWords(codes);
  }

  /** A memory image of well-formed words is well-formed throughout, the padding included. */
  lemma ImageOfWords(codes: seq<string>)
    requires |codes| <= MemorySize && forall i :: 0 <= i < |codes| ==> IsWord(codes[i])
    ensures forall i :: 0 <= i < MemorySize ==> IsWord(Image(codes)[i])
  {
    assert BlankWord[1..] == "0000";
    assert IsWord(BlankWord);
  }

  /**
   After a successful `load`, every address from 0 to 99 holds an instruction
   that decodes: stepping can fail only through the operation itself.
   */
  lemma LoadedProgramDecodes(lines: seq<string>, m: State)
    requires LoadProgram(lines).Installed? && m.memory == LoadProgram(lines).memory
    requires 0 <= m.pc < MemorySize
    ensures Instruction(m).Ok?
    ensures -99 <= Instruction(m).value.1 <= 99
  {
    LoadedMemory(lines);
    DecodeWord(m.memory[m.pc]);
    assert Fetch(m) == Ok(m.memory[m.pc]);
  }

  /** A well-formed word has no whitespace to strip, with or without the line feed `readlines` keeps. */
  lemma StripWord(code: string)
    requires IsWord(code)
    ensures Strip(code) == code && Strip(code + "\n") == code
  {
    assert code[1..][3] == code[4];
    StripUnpadded(code);
  }

  /**
   Any line whose characters 1 and 2 are `43` satisfies the HALT check, whatever
   its sign and wherever it stands: a negative word such as `"-4399"` or a data
   word counts as well as `"+4300"`.
   */
  lemma AnyHaltWordCounts(lines: seq<string>, k: nat)
    requires |lines| <= MemorySize && k < |lines|
    requires forall i :: 0 <= i < |lines| ==> IsWord(Strip(lines[i]))
    requires Opcode(Strip(lines[k])) == HaltOpcode
    ensures LoadProgram(lines).Installed?
  {
    assert IsHalt(Strip(lines[k]));
    LoadSucceedsIff(lines);
  }

  // ---------------------------------------------------- what load_string does

  /** A line without a line feed splits into itself. */
  lemma SplitSingleLine(s: string)
    requires '\n' !in s
    ensures SplitLines(s) == [s]
  {
  }

  /** Splitting lines that hold no line feed after joining them gives the lines back. */
  lemma {:induction false} SplitJoinLines(parts: seq<string>)
    requires |parts| >= 1
    requires forall k :: 0 <= k < |parts| ==> '\n' !in parts[k]
    ensures SplitLines(JoinLines(parts)) == parts
    decreases |parts|
  {
    if |parts| == 1 {
      SplitSingleLine(parts[0]);
    } else {
      var s := JoinLines(parts);
      var head := parts[0];
      var tail := JoinLines(parts[1..]);
      assert s == head + "\n" + tail;
      assert s[|head|] == '\n';
      var i := FirstLineFeed(s);
      assert i == |head|;
      assert s[..i] == head;
      assert s[i + 1..] == tail;
      SplitJoinLines(parts[1..]);
    }
  }

  lemma {:induction false} NonEmptyKeepsNonEmpty(parts: seq<string>)
    requires forall k :: 0 <= k < |parts| ==> parts[k] != ""
    ensures NonEmpty(parts) == parts
    decreases |parts|
  {
    if parts != [] {
      NonEmptyKeepsNonEmpty(parts[1..]);
    }
  }

  /**
   `load_string` of lines joined with line feeds installs those lines in order,
   the empty ones left out: the editor text round-trips through the split.
   */
  lemma ProgramWordsOfJoin(lines: seq<string>)
    requires |lines| >= 1
    requires forall k :: 0 <= k < |lines| ==> '\n' !in lines[k]
    ensures ProgramWords(JoinLines(lines)) == NonEmpty(lines)
    ensures (forall k :: 0 <= k < |lines| ==> lines[k] != "") ==> ProgramWords(JoinLines(lines)) == lines
  {
    SplitJoinLines(lines);
    if forall k :: 0 <= k < |lines| ==> lines[k] != "" {
      NonEmptyKeepsNonEmpty(lines);
    }
  }

  /**
   `load_string` refuses only programs of more than 100 non-empty lines; it
   otherwise installs the non-empty lines from address 0, padded with
   `"+0000"`, without looking at them.
   */
  lemma LoadStringOutcome(program: string)
    ensures LoadStringProgram(program).Refused? <==> |ProgramWords(program)| > MemorySize
    ensures LoadStringProgram(program).Refused? ==> LoadStringProgram(program).error == ProgramTooLarge
    ensures LoadStringProgram(program).Installed? ==>
      var mem := LoadStringProgram(program).memory;
      var words := ProgramWords(program);
      |mem| == MemorySize
      && (forall i :: 0 <= i < |words| ==> mem[i] == words[i])
      && (forall i :: |words| <= i < MemorySize ==> mem[i] == BlankWord)
  {
  }

  /** Empty lines are dropped, so a blank line between words does not take a cell. */
  lemma BlankLinesDropped()
    ensures ProgramWords(JoinLines(["+2007", "", "+4300", ""])) == ["+2007", "+4300"]
  {
    var lines := ["+2007", "", "+4300", ""];
    ProgramWordsOfJoin(lines);
    assert lines[1..] == ["", "+4300", ""];
    assert lines[1..][1..] == ["+4300", ""];
    assert lines[1..][1..][1..] == [""];
  }

  /**
   `load_string` performs no word check: `"+10ab"` is installed at address 0, and
   the step that reaches it raises `ValueError` on `int("ab")` before the program
   counter moves.
   */
  lemma UncheckedWordFailsAtStep(input: seq<string>, output: seq<string>, acc: int)
    ensures LoadStringProgram("+10ab") == Installed(Image(["+10ab"]))
    ensures var m := State(Image(["+10ab"]), 0, acc, output);
      Step(m, input) == StepResult(Failed(NotANumber("ab")), m, input)
  {
    assert ProgramWords("+10ab") == ["+10ab"] by {
      SplitSingleLine("+10ab");
      NonEmptyKeepsNonEmpty(["+10ab"]);
    }
    var m := State(Image(["+10ab"]), 0, acc, output);
    assert Fetch(m) == Ok("+10ab");
    assert Slice("+10ab", 3, 5) == "ab";
    assert ParseInt("ab").None? by {
      assert !IsDigit('a');
    }
  }

  // -------------------------------------------------------------- the methods

  /**
   The loop of `load` (`vm.py:161-170`) over at most 100 lines: it fills a fresh
   100-cell `user_program` with the stripped lines and sets `has_halt`, or
   stops at the first stripped line that is not a word.
   */
  method BuildProgram(lines: seq<string>) returns (userProgram: array<string>, hasHalt: bool, invalid: Option<string>)
    requires |lines| <= MemorySize
    ensures fresh(userProgram)
    ensures invalid.Some? <==> ScanCodes(Stripped(lines)).Stopped?
    ensures invalid.Some? ==> ScanCodes(Stripped(lines)) == Stopped(invalid.value)
    ensures invalid.None? ==> ScanCodes(Stripped(lines)) == Scanned(hasHalt)
    ensures invalid.None? ==> userProgram[..] == Image(Stripped(lines))
  {
    userProgram := new string[MemorySize](_ => BlankWord);
    hasHalt := false;
    ghost var codes := Stripped(lines);
    for i := 0 to |lines|
      invariant ScanCodes(codes[..i]) == Scanned(hasHalt)
      invariant userProgram[..] == Image(codes[..i])
    {
      var code := Strip(lines[i]);
      ScanStep(codes, i);
      if !IsWord(code) {
        ScanStopsForGood(codes, i + 1);
        return userProgram, hasHalt, Some(code);
      }
      if Slice(code, 1, 3) == HaltOpcode {
        hasHalt := true;
      }
      ImageStep(codes, i);
      userProgram[i] := code;
    }
    assert codes[..|lines|] == codes;
    invalid := None;
  }

  /**
   `ProgramLoader.load` (`vm.py:151-175`) on the lines `readlines` returned.
   The new memory is built aside and installed only when every check passes;
   the program counter and the accumulator are not reset.
   */
  method Load(vm: VM, lines: seq<string>) returns (error: Option<LoadError>)
    modifies vm
    ensures error == ErrorOf(LoadProgram(lines))
    ensures vm.pc == old(vm.pc) && vm.acc == old(vm.acc) && vm.output == old(vm.output)
    ensures error.None? ==> fresh(vm.memory) && vm.memory[..] == LoadProgram(lines).memory
    ensures error.Some? ==> vm.memory == old(vm.memory)
  {
    if |lines| > MemorySize {
      return Some(ProgramTooLarge);
    }
    var userProgram, hasHalt, invalid := BuildProgram(lines);
    if invalid.Some? {
      LoadStopped(lines, invalid.value);
      return Some(InvalidInstruction(invalid.value));
    }
    LoadScanned(lines, hasHalt);
    if hasHalt {
      vm.memory := userProgram;
      error := None;
    } else {
      error := Some(NoHaltInstruction);
    }
  }

  /**
   `ProgramLoader.load_string` (`vm.py:177-184`): a fresh blank memory is put in
   place and the non-empty lines are written into it one by one.
   */
  method LoadString(vm: VM, program: string) returns (error: Option<LoadError>)
    modifies vm
    ensures error == ErrorOf(LoadStringProgram(program))
    ensures vm.pc == old(vm.pc) && vm.acc == old(vm.acc) && vm.output == old(vm.output)
    ensures error.None? ==> fresh(vm.memory) && vm.memory[..] == LoadStringProgram(program).memory
    ensures error.Some? ==> vm.memory == old(vm.memory)
  {
    var words := ProgramWords(program);
    if |words| > MemorySize {
      return Some(ProgramTooLarge);
    }
    vm.memory := new string[MemorySize](_ => BlankWord);
    for i := 0 to |words|
      modifies vm.memory
      invariant vm.memory[..] == Image(words[..i])
    {
      ImageStep(words, i);
      vm.memory[i] := words[i];
    }
    assert words[..|words|] == words;
    error := None;
  }
}
