/**
  * The fetch-execute loop of src/cpu.h: load the image, start at BEGIN's
  * line with fresh stacks, and run instructions while the line is inside
  * the program. A caught error is reported and leaves the line where it
  * was, so the failing instruction runs again; nothing forces the loop to
  * end, so the model runs it on a fuel budget of steps.
  */
module Cpu {
  import opened Errors
  import opened Data
  import opened Stacks
  import opened Decimal
  import opened Commands
  import opened CommandLaws
  import opened Prep

  /** The loop condition: `-1 < line && line < program.size()`. */
  predicate InRange(line: int, n: int)
  {
    -1 < line < n
  }

  /**
    * Where a run stops: the state, the line it stopped at, the lines it
    * executed in order, and the errors it reported, each at the line that
    * raised it.
    */
  datatype Halt = Halt(state: Machine, line: int, trace: seq<int>, errors: seq<Error>)

  /** At most `fuel` iterations of the loop, from `line`. */
  function Execute(program: seq<Instr>, m: Machine, line: int, fuel: nat): (r: Halt)
    decreases fuel, 2
    ensures |r.trace| <= fuel
    ensures |r.trace| < fuel ==> !InRange(r.line, |program|)
    ensures forall i {:trigger InRange(r.trace[i], |program|)} :: 0 <= i < |r.trace| ==> InRange(r.trace[i], |program|)
    ensures |r.errors| <= |r.trace|
    ensures fuel > 0 && InRange(line, |program|) ==> r.trace != [] && r.trace[0] == line
  {
    if fuel == 0 || !InRange(line, |program|) then Halt(m, line, [], [])
    else Iterate(program, m, line, fuel)
  }

  /** Fetching the instruction at `line`, an in-range line, and going on with it. */
  function Iterate(program: seq<Instr>, m: Machine, line: int, fuel: nat): (r: Halt)
    requires fuel > 0 && InRange(line, |program|)
    decreases fuel, 1
    ensures |r.trace| <= fuel
    ensures |r.trace| < fuel ==> !InRange(r.line, |program|)
    ensures forall i {:trigger InRange(r.trace[i], |program|)} :: 0 <= i < |r.trace| ==> InRange(r.trace[i], |program|)
    ensures |r.errors| <= |r.trace|
    ensures r.trace != [] && r.trace[0] == line
  {
    Dispatch(program, m, line, program[line], fuel)
  }

  /**
    * Running the fetched instruction and the rest of the loop: an error is
    * recorded against `line` and the loop goes on from `line` again;
    * otherwise it goes on from the line the instruction returned.
    */
  function Dispatch(program: seq<Instr>, m: Machine, line: int, ins: Instr, fuel: nat): (r: Halt)
    requires fuel > 0 && InRange(line, |program|)
    decreases fuel, 0
    ensures |r.trace| <= fuel
    ensures |r.trace| < fuel ==> !InRange(r.line, |program|)
    ensures forall i {:trigger InRange(r.trace[i], |program|)} :: 0 <= i < |r.trace| ==> InRange(r.trace[i], |program|)
    ensures |r.errors| <= |r.trace|
    ensures r.trace != [] && r.trace[0] == line
  {
    var s := Commands.Run(m, ins, line);
    var next := if s.next.Ok? then s.next.value else line;
    var errors := if s.next.Fail? then [Error(s.next.error.kind, line)] else [];
    var rest := Execute(program, s.state, next, fuel - 1);
    Halt(rest.state, rest.line, [line] + rest.trace, errors + rest.errors)
  }

  /**
    * `Execute` unfolded by one iteration; a proof helper for `AccountStep`,
    * `AdvancingStep`, `ErrorRetriesSameLine`, `RetWithoutCallLoops`, `EndStops`
    * and `EndAsWrittenFallsThrough`, with no counterpart of its own in the C++
    * code.
    */
  lemma ExecuteStep(program: seq<Instr>, m: Machine, line: int, fuel: nat)
    requires fuel > 0 && InRange(line, |program|)
    ensures var s := Commands.Run(m, program[line], line);
      var next := if s.next.Ok? then s.next.value else line;
      var reported := if s.next.Fail? then [Error(s.next.error.kind, line)] else [];
      var rest := Execute(program, s.state, next, fuel - 1);
      Execute(program, m, line, fuel) == Halt(rest.state, rest.line, [line] + rest.trace, reported + rest.errors)
  {
    assert Execute(program, m, line, fuel) == Dispatch(program, m, line, program[line], fuel);
  }

  /** The loop invariant of `Cycle` survives one iteration. */
  lemma AccountStep(program: seq<Instr>, total: Halt, m: Machine, line: int, left: nat, trace: seq<int>, errors: seq<Error>)
    requires left > 0 && InRange(line, |program|)
    requires var rest := Execute(program, m, line, left);
      total == Halt(rest.state, rest.line, trace + rest.trace, errors + rest.errors)
    ensures var s := Commands.Run(m, program[line], line);
      var next := if s.next.Ok? then s.next.value else line;
      var reported := if s.next.Fail? then [Error(s.next.error.kind, line)] else [];
      var rest := Execute(program, s.state, next, left - 1);
      total == Halt(rest.state, rest.line, (trace + [line]) + rest.trace, (errors + reported) + rest.errors)
  {
    ExecuteStep(program, m, line, left);
    var s := Commands.Run(m, program[line], line);
    var next := if s.next.Ok? then s.next.value else line;
    var reported := if s.next.Fail? then [Error(s.next.error.kind, line)] else [];
    var rest := Execute(program, s.state, next, left - 1);
    assert trace + ([line] + rest.trace) == (trace + [line]) + rest.trace;
    assert errors + (reported + rest.errors) == (errors + reported) + rest.errors;
  }

  /** The state a run starts from: the loaded state with a fresh operand stack and call stack. */
  function Started(m: Machine): (s: Machine)
    ensures s.stacks.data == [] && s.stacks.call == []
    ensures s.(stacks := m.stacks) == m
  {
    m.(stacks := FreshStacks)
  }

  class Emulator {
    const proc: Preprocessor
    const fileName: string

    constructor (proc: Preprocessor, fileName: string)
      ensures this.proc == proc && this.fileName == fileName
    {
      this.proc := proc;
      this.fileName := fileName;
    }

    /**
      * `run`: load the image, then fetch and execute from BEGIN's line for
      * at most `fuel` steps. A load error escapes before anything runs.
      */
    method Run(fuel: nat) returns (r: Result<Halt>)
      modifies proc
      ensures var loaded := LoadImage(old(proc.state), old(proc.program), old(proc.files), fileName);
        if loaded.status.Fail? then
          r == Fail(loaded.status.error) && proc.state == loaded.state && proc.program == loaded.program
        else
          var h := Execute(loaded.program, Started(loaded.state), loaded.state.beginLine, fuel);
          r == Ok(h) && proc.state == h.state && proc.program == loaded.program
      ensures proc.files == old(proc.files)
    {
      var loadResult := proc.Load(fileName);
      if loadResult.Fail? {
        return Fail(loadResult.error);
      }
      proc.state := proc.state.(stacks := FreshStacks);
      var h := Cycle(proc.program, proc.state.beginLine, fuel);
      r := Ok(h);
    }

    /** The `while` loop itself: fetch `program[line]`, run it, and take the line it returns. */
    method Cycle(program: seq<Instr>, begin: int, fuel: nat) returns (h: Halt)
      modifies proc
      ensures h == Execute(program, old(proc.state), begin, fuel) && proc.state == h.state
      ensures proc.program == old(proc.program) && proc.files == old(proc.files)
    {
      var line := begin;
      var steps: nat := 0;
      var trace: seq<int> := [];
      var errors: seq<Error> := [];
      while steps < fuel && -1 < line < |program|
        invariant steps <= fuel
        invariant proc.program == old(proc.program) && proc.files == old(proc.files)
        invariant var rest := Execute(program, proc.state, line, fuel - steps);
          Execute(program, old(proc.state), begin, fuel) == Halt(rest.state, rest.line, trace + rest.trace, errors + rest.errors)
        decreases fuel - steps
      {
        var s := Commands.Run(proc.state, program[line], line);
        AccountStep(program, Execute(program, old(proc.state), begin, fuel), proc.state, line, fuel - steps, trace, errors);
        var next := if s.next.Ok? then s.next.value else line;
        var reported := if s.next.Fail? then [Error(s.next.error.kind, line)] else [];
        proc.state := s.state;
        trace := trace + [line];
        errors := errors + reported;
        line := next;
        steps := steps + 1;
      }
      assert Execute(program, proc.state, line, fuel - steps) == Halt(proc.state, line, [], []);
      assert trace + [] == trace && errors + [] == errors;
      h := Halt(proc.state, line, trace, errors);
    }
  }

  // ---------------------------------------------------------------------
  // Properties of the loop
  // ---------------------------------------------------------------------

  /**
    * A program built without BEGIN leaves BEGIN's line at -1, and a run
    * from there executes nothing.
    */
  lemma {:induction false} NoBeginRunsNothing(m: Machine, program: seq<Instr>, fuel: nat)
    requires IsClear(m)
    requires forall i :: 0 <= i < |program| ==> program[i].op != Begin
    ensures var built := ConfigureFrom(m, program, 0);
      built.status.Ok? ==>
        built.state.beginLine == -1 &&
        Execute(program, Started(built.state), built.state.beginLine, fuel) == Halt(Started(built.state), -1, [], [])
  {
    PassRecordsBeginAndEnd(m, program, 0);
  }

  /** With a BEGIN, the run starts at its line. */
  lemma {:induction false} RunStartsAtBegin(m: Machine, program: seq<Instr>, fuel: nat)
    requires IsClear(m) && fuel > 0
    requires exists i :: 0 <= i < |program| && program[i].op == Begin
    ensures var built := ConfigureFrom(m, program, 0);
      built.status.Ok? ==>
        0 <= built.state.beginLine < |program| && program[built.state.beginLine].op == Begin &&
        Execute(program, Started(built.state), built.state.beginLine, fuel).trace[0] == built.state.beginLine
  {
    PassRecordsBeginAndEnd(m, program, 0);
  }

  /** Executing END stops the run at once, without changing the state. */
  lemma EndStops(program: seq<Instr>, m: Machine, line: int, fuel: nat)
    requires InRange(line, |program|) && program[line] == Instr(End, "") && fuel > 0
    ensures Execute(program, m, line, fuel) == Halt(m, EndOfProgram, [line], [])
  {
    ExecuteStep(program, m, line, fuel);
  }

  /**
    * A failing instruction is not skipped: its error is reported and the
    * next step runs the same line again, from the state the failure left.
    */
  lemma ErrorRetriesSameLine(program: seq<Instr>, m: Machine, line: int, fuel: nat)
    requires InRange(line, |program|) && fuel > 0
    requires Commands.Run(m, program[line], line).next.Fail?
    ensures var s := Commands.Run(m, program[line], line);
      var rest := Execute(program, s.state, line, fuel - 1);
      Execute(program, m, line, fuel) ==
        Halt(rest.state, rest.line, [line] + rest.trace, [Error(s.next.error.kind, line)] + rest.errors)
  {
    ExecuteStep(program, m, line, fuel);
  }

  /**
    * RET on an empty call stack fails every time it is retried: the loop
    * spends all its fuel on that line and never gets past it.
    */
  lemma {:induction false} RetWithoutCallLoops(program: seq<Instr>, m: Machine, line: int, fuel: nat)
    requires InRange(line, |program|) && program[line].op == Ret && m.stacks.call == []
    ensures Execute(program, m, line, fuel) ==
      Halt(m, line, seq(fuel, _ => line), seq(fuel, _ => Error(Runtime, line)))
  {
    if fuel > 0 {
      RetOnEmptyCallStack(m, program[line].operand, line);
      ExecuteStep(program, m, line, fuel);
      RetWithoutCallLoops(program, m, line, fuel - 1);
      assert [line] + seq(fuel - 1, _ => line) == seq(fuel, _ => line);
      assert [Error(Runtime, line)] + seq(fuel - 1, _ => Error(Runtime, line)) == seq(fuel, _ => Error(Runtime, line));
    }
  }

  /** The line `ins`, standing at `line`, hands back when run from `st`. */
  ghost function NextFrom(st: Machine, ins: Instr, line: int): Result<int>
  {
    Commands.Run(st, ins, line).next
  }

  /** `ins`, standing at `line`, returns `line + 1` from every state. */
  ghost predicate AlwaysNext(ins: Instr, line: int)
  {
    forall st: Machine :: NextFrom(st, ins, line) == Ok(line + 1)
  }

  /** The instructions that always advance, by their form. */
  predicate Advances(ins: Instr)
  {
    ins.op in {Begin, Pop, In, Blank} ||
    (ins.op == Push && ParseInt(ins.operand).Ok?) ||
    (ins.op == PushR && ValidRegisterName(ins.operand)) ||
    (ins.op == Label && ValidLabelName(ins.operand))
  }

  /** Each of those instructions does return `line + 1`, from every state. */
  lemma AdvancingRun(ins: Instr, line: int)
    requires Advances(ins)
    ensures AlwaysNext(ins, line)
  {
    forall st: Machine
      ensures NextFrom(st, ins, line) == Ok(line + 1)
    {
      if ins.op == Label {
        assert Commands.Run(st, ins, line) == RunLabelled(st, ins, line);
      } else if ins.op == PushR {
        assert Commands.Run(st, ins, line) == RunRegister(st, ins, line);
      } else {
        assert Commands.Run(st, ins, line) == RunPlain(st, ins, line);
      }
    }
  }

  lemma LinesCons(from: int, to: int)
    requires from < to
    ensures Lines(from, to) == [from] + Lines(from + 1, to)
  {
    assert Lines(from, to)[1..] == Lines(from + 1, to);
  }

  /** One iteration over such an instruction: the line advances and nothing is reported. */
  lemma AdvancingStep(program: seq<Instr>, m: Machine, line: int, fuel: nat) returns (next: Machine)
    requires fuel > 0 && InRange(line, |program|) && AlwaysNext(program[line], line)
    ensures var rest := Execute(program, next, line + 1, fuel - 1);
      Execute(program, m, line, fuel) == Halt(rest.state, rest.line, [line] + rest.trace, rest.errors)
  {
    assert NextFrom(m, program[line], line) == Ok(line + 1);
    ExecuteStep(program, m, line, fuel);
    next := Commands.Run(m, program[line], line).state;
  }

  /** A run that visited `line` and then `line + 1`, ... without an error visited `line`, ... */
  lemma TraceCons(line: int, to: int, h: Halt, rest: Halt)
    requires line < to && h == Halt(rest.state, rest.line, [line] + rest.trace, rest.errors)
    requires rest.line == to && rest.trace == Lines(line + 1, to) && rest.errors == []
    ensures h.line == to && h.trace == Lines(line, to) && h.errors == []
  {
    LinesCons(line, to);
  }

  /** The lines `from`, `from + 1`, ..., `to - 1`. */
  function Lines(from: int, to: int): (ls: seq<int>)
    requires from <= to
    ensures |ls| == to - from
    ensures forall i :: 0 <= i < |ls| ==> ls[i] == from + i
  {
    seq(to - from, i => from + i)
  }

  /**
    * When every instruction from `line` on returns `line + 1`, a run with
    * enough fuel visits `line`, `line + 1`, ... in order, reports no error
    * and stops at the program's length.
    */
  lemma {:induction false} StraightLineRun(program: seq<Instr>, m: Machine, line: int, fuel: nat)
    requires 0 <= line <= |program| && fuel >= |program| - line
    requires forall i {:trigger AlwaysNext(program[i], i)} :: line <= i < |program| ==> AlwaysNext(program[i], i)
    decreases |program| - line
    ensures var r := Execute(program, m, line, fuel);
      r.line == |program| && r.trace == Lines(line, |program|) && r.errors == []
  {
    if line < |program| {
      var next := AdvancingStep(program, m, line, fuel);
      StraightLineRun(program, next, line + 1, fuel - 1);
      TraceCons(line, |program|, Execute(program, m, line, fuel), Execute(program, next, line + 1, fuel - 1));
    } else {
      assert Execute(program, m, line, fuel) == Halt(m, line, [], []);
      assert Lines(line, line) == [];
    }
  }

  /** The program BEGIN, PUSH 3, PUSH 4, ADD, OUT, END. */
  const AddProgram: seq<Instr> :=
    [Instr(Begin, ""), Instr(Push, "3"), Instr(Push, "4"), Instr(Add, ""), Instr(Out, ""), Instr(End, "")]

  /** Building it from a fresh process succeeds and records BEGIN at 0 and END at 5. */
  lemma AddProgramBuilds(input: seq<int>)
    ensures ConfigureFrom(Initial(input), AddProgram, 0) == Pass(Initial(input).(beginLine := 0, endLine := 5), Ok(()))
  {
    var m1 := Initial(input).(beginLine := 0);
    assert ConfigureFrom(Initial(input), AddProgram, 0) == ConfigureFrom(m1, AddProgram, 1);
    AddProgramBodyConfigures(m1);
    assert ConfigureFrom(m1, AddProgram, 5) == ConfigureFrom(m1.(endLine := 5), AddProgram, 6);
  }

  /** Lines 1 to 4 configure without touching anything. */
  lemma AddProgramBodyConfigures(m: Machine)
    ensures ConfigureFrom(m, AddProgram, 1) == ConfigureFrom(m, AddProgram, 5)
  {
    assert ParseInt("3") == Ok(3) by { ParseShow(3); assert Show(3) == "3"; }
    assert ParseInt("4") == Ok(4) by { ParseShow(4); assert Show(4) == "4"; }
    PushConfigure(m, "3", 1);
    PushConfigure(m, "4", 2);
    assert Configure(m, AddProgram[3], 3) == Ok(m);
    assert Configure(m, AddProgram[4], 4) == Ok(m);
    ConfigureStep(m, AddProgram, 1);
    ConfigureStep(m, AddProgram, 2);
    ConfigureStep(m, AddProgram, 3);
    ConfigureStep(m, AddProgram, 4);
  }

  /** One instruction of a pass that configures without changing the state. */
  lemma ConfigureStep(m: Machine, program: seq<Instr>, line: nat)
    requires line < |program| && Configure(m, program[line], line) == Ok(m)
    ensures ConfigureFrom(m, program, line) == ConfigureFrom(m, program, line + 1)
  {
  }

  /** Running it from the built state writes 7, executes each line once, and stops at -1. */
  lemma AddProgramRuns()
    ensures var h := Execute(AddProgram, Started(Initial([]).(beginLine := 0, endLine := 5)), 0, 10);
      h.state.output == [7] && h.line == EndOfProgram && h.trace == [0, 1, 2, 3, 4, 5] && h.errors == []
  {
    var m := Initial([]).(beginLine := 0, endLine := 5);
    assert Started(m) == m;
    var m2 := WithData(m, [3]);
    AddProgramStarts(m);
    AddProgramPushes(m);
    ExecuteStep(AddProgram, m, 0, 10);
    ExecuteStep(AddProgram, m, 1, 9);
    ExecuteStep(AddProgram, m2, 2, 8);
    AddProgramFinishes(m);
  }

  /** From line 3 on, with 3 and 4 stacked: ADD, OUT and END write 7 and stop. */
  lemma AddProgramFinishes(m: Machine)
    requires m.stacks == FreshStacks && m.output == []
    ensures Execute(AddProgram, WithData(m, [3, 4]), 3, 7) ==
      Halt(m.(output := [7]), EndOfProgram, [3, 4, 5], [])
  {
    var m3 := WithData(m, [3, 4]);
    var m4 := WithData(m, [7]);
    var m5 := m.(output := [7]);
    AddProgramAdds(m);
    AddProgramOutputs(m);
    ExecuteStep(AddProgram, m3, 3, 7);
    ExecuteStep(AddProgram, m4, 4, 6);
    ExecuteStep(AddProgram, m5, 5, 5);
    assert Execute(AddProgram, m5, EndOfProgram, 4) == Halt(m5, EndOfProgram, [], []);
  }

  /** Lines 0 and 1: BEGIN goes on, and PUSH 3 stacks 3. */
  lemma AddProgramStarts(m: Machine)
    requires m.stacks == FreshStacks
    ensures Commands.Run(m, AddProgram[0], 0) == Step(m, Ok(1))
    ensures Commands.Run(m, AddProgram[1], 1) == Step(WithData(m, [3]), Ok(2))
  {
    assert ParseInt("3") == Ok(3) by { ParseShow(3); assert Show(3) == "3"; }
  }

  /** Line 2: PUSH 4 stacks 4 on top of 3. */
  lemma AddProgramPushes(m: Machine)
    requires m.stacks == FreshStacks
    ensures Commands.Run(WithData(m, [3]), AddProgram[2], 2) == Step(WithData(m, [3, 4]), Ok(3))
  {
    assert ParseInt("4") == Ok(4) by { ParseShow(4); assert Show(4) == "4"; }
  }

  /** Line 3: ADD replaces 3 and 4 by 7. */
  lemma AddProgramAdds(m: Machine)
    requires m.stacks == FreshStacks
    ensures Commands.Run(WithData(m, [3, 4]), AddProgram[3], 3) == Step(WithData(m, [7]), Ok(4))
  {
    ArithmeticRun(WithData(m, [3, 4]), Add, 3);
    assert [3, 4][..0] + [4 + 3] == [7];
  }

  /** Lines 4 and 5: OUT writes 7 and empties the stack, and END stops. */
  lemma AddProgramOutputs(m: Machine)
    requires m.stacks == FreshStacks && m.output == []
    ensures Commands.Run(WithData(m, [7]), AddProgram[4], 4) == Step(m.(output := [7]), Ok(5))
    ensures Commands.Run(m.(output := [7]), AddProgram[5], 5) == Step(m.(output := [7]), Ok(EndOfProgram))
  {
    assert Drop([7]) == [];
  }

  // ---------------------------------------------------------------------
  // END as written
  // ---------------------------------------------------------------------

  /** END's `run` as src/commands.cpp writes it: it returns the next line, like BEGIN. */
  function RunEndAsWritten(m: Machine, line: int): (r: Step)
    ensures r.state == m
    ensures r.next == Ok(line + 1)
    ensures r == Commands.Run(m, Instr(Begin, ""), line)
  {
    Step(m, Ok(line + 1))
  }

  /**
    * With END returning `line + 1`, an END that is not the last line lets the
    * loop go on into whatever follows it, while the corrected END returns
    * -1 and the loop stops.
    */
  lemma EndAsWrittenFallsThrough(program: seq<Instr>, m: Machine, line: int, fuel: nat)
    requires 0 <= line && line + 1 < |program| && program[line] == Instr(End, "") && fuel > 1
    ensures RunEndAsWritten(m, line).next == Ok(line + 1) && InRange(line + 1, |program|)
    ensures Commands.Run(m, program[line], line).next == Ok(EndOfProgram) && !InRange(EndOfProgram, |program|)
    ensures Execute(program, m, line, fuel).trace == [line]
  {
    ExecuteStep(program, m, line, fuel);
  }
}
