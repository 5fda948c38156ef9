/**
  * The instruction catalogue of src/commands.h and src/commands.cpp.
  *
  * Each mnemonic is one shared command object in the C++ code (a `Singleton`
  * per class) with two operations: `configure(operand, line)`, run once per
  * program line at build and load time, and `run(operand, line)`, run each
  * time the CPU executes the line, which returns the next line. Here the
  * command objects become the constructors of `Opcode`, and everything they
  * share -- BEGIN's and END's recorded lines, the symbol tables, the
  * `CommandStack` and the console -- is one `Machine` value that `Configure`
  * and `Run` take and give back.
  */
module Commands {
  import opened Errors
  import opened Data
  import opened Stacks
  import opened Decimal

  datatype Opcode =
    | Begin | End | Push | Pop | PushR | PopR
    | Add | Sub | Mul | Div | In | Out
    | Label | Jmp | Call | Ret | Blank
    | Jeq | Jne | Ja | Jae | Jb | Jbe
  {
    /** The commands whose `configure` refuses any operand. */
    predicate TakesNoOperand()
    {
      this in {Begin, End, Pop, Add, Sub, Mul, Div, In, Out, Ret}
    }

    /** The conditional jumps. */
    predicate IsConditional()
    {
      this in {Jeq, Jne, Ja, Jae, Jb, Jbe}
    }

    /** The commands whose operand names a label. */
    predicate TakesLabel()
    {
      this in {Label, Jmp, Call} || IsConditional()
    }
  }

  /** One program line: its command and its raw operand text. */
  datatype Instr = Instr(op: Opcode, operand: string)

  /** All state the commands share. */
  datatype Machine = Machine(
    beginLine: int,       // BeginCommand::line_, -1 until BEGIN is configured
    endLine: int,         // EndCommand::line_, -1 until END is configured
    regs: seq<Entry>,     // the register table
    labels: seq<Entry>,   // the label table
    stacks: CommandStack, // operand stack and call stack
    input: seq<int>,      // numbers IN has yet to read
    output: seq<int>)     // numbers OUT has written, in order

  /** The state of a process before anything is configured. */
  function Initial(input: seq<int>): (m: Machine)
    ensures m.beginLine == -1 && m.endLine == -1 && m.regs == [] && m.labels == []
    ensures m.stacks.data == [] && m.stacks.call == [] && m.input == input && m.output == []
  {
    Machine(-1, -1, [], [], FreshStacks, input, [])
  }

  /** The line END hands back: outside every program, so the CPU stops. */
  const EndOfProgram: int := -1

  /** The register table holds each name once, and only names `RegisterType::get` accepts. */
  ghost predicate RegistersValid(regs: seq<Entry>)
  {
    Distinct(regs) && forall i :: 0 <= i < |regs| ==> ValidRegisterName(regs[i].name)
  }

  /** The label table holds each name once, and only names `LabelType::get` accepts. */
  ghost predicate LabelsValid(labels: seq<Entry>)
  {
    Distinct(labels) && forall i :: 0 <= i < |labels| ==> ValidLabelName(labels[i].name)
  }

  ghost predicate TablesValid(m: Machine)
  {
    RegistersValid(m.regs) && LabelsValid(m.labels)
  }

  function WithData(m: Machine, data: seq<int>): Machine
  {
    m.(stacks := m.stacks.(data := data))
  }

  function WithCall(m: Machine, call: seq<int>): Machine
  {
    m.(stacks := m.stacks.(call := call))
  }

  // ---------------------------------------------------------------------
  // configure
  // ---------------------------------------------------------------------

  /**
    * `configure(operand, line)`: checks the operand against the command's
    * shape and performs the command's one-time setup. BEGIN and END record
    * their line once; PUSH parses its number; PUSHR and POPR intern their
    * register; every label command interns its label and LABEL sets the
    * label's line (a later LABEL of the same name overwrites it). BLANK
    * accepts anything. Errors carry no line yet.
    */
  function Configure(m: Machine, ins: Instr, line: int): (r: Result<Machine>)
    ensures r.Fail? ==> r.error.line == NoLine
    ensures r.Ok? ==> r.value.stacks == m.stacks && r.value.input == m.input && r.value.output == m.output
    ensures r.Ok? && ins.op !in {PushR, PopR} ==> r.value.regs == m.regs
    ensures r.Ok? && !ins.op.TakesLabel() ==> r.value.labels == m.labels
  {
    match ins.op
    case Begin =>
      if ins.operand != "" then Fail(Raise(InvalidArgument))
      else if m.beginLine != -1 then Fail(Raise(Unique))
      else Ok(m.(beginLine := line))
    case End =>
      if ins.operand != "" then Fail(Raise(InvalidArgument))
      else if m.endLine != -1 then Fail(Raise(Unique))
      else Ok(m.(endLine := line))
    case Push =>
      var _ :- ParseInt(ins.operand);
      Ok(m)
    case PushR => ConfigureRegister(m, ins.operand)
    case PopR => ConfigureRegister(m, ins.operand)
    case Blank =>
      Ok(m)
    case _ =>
      if ins.op.TakesLabel() then ConfigureLabelled(m, ins, line)
      else if ins.operand != "" then Fail(Raise(InvalidArgument))
      else Ok(m)
  }

  /** PUSHR's and POPR's setup: intern the register. */
  function ConfigureRegister(m: Machine, name: string): (r: Result<Machine>)
    ensures r.Fail? <==> !ValidRegisterName(name)
    ensures r.Ok? ==> r.value == m.(regs := Intern(m.regs, name, RegisterInitial).table)
    ensures r.Fail? ==> r.error == Raise(InvalidArgument)
  {
    var reg :- ResolveRegister(m.regs, name);
    Ok(m.(regs := reg.table))
  }

  /** The setup of the label commands: intern the label; LABEL also sets its line. */
  function ConfigureLabelled(m: Machine, ins: Instr, line: int): (r: Result<Machine>)
    requires ins.op.TakesLabel()
    ensures r.Fail? <==> !ValidLabelName(ins.operand)
    ensures r.Ok? ==> r.value == m.(labels := r.value.labels)
    ensures r.Ok? && ins.op != Label ==> r.value.labels == Intern(m.labels, ins.operand, Unresolved).table
    ensures r.Fail? ==> r.error == Raise(InvalidArgument)
  {
    var lab :- ResolveLabel(m.labels, ins.operand);
    if ins.op == Label then Ok(m.(labels := SetCell(lab.table, lab.index, line)))
    else Ok(m.(labels := lab.table))
  }

  // ---------------------------------------------------------------------
  // run
  // ---------------------------------------------------------------------

  /**
    * What one `run` leaves: the new state and either the next line or the
    * error it raised. A C++ command that throws halfway keeps the effects it
    * had before the throw (a value already popped stays popped), so the state
    * is given in both cases.
    */
  datatype Step = Step(state: Machine, next: Result<int>)

  /** ADD, SUB, MUL and DIV on the top value `a` and the value `b` below it. */
  function Combine(op: Opcode, a: int, b: int): (r: Result<int>)
    requires op in {Add, Sub, Mul, Div}
    ensures r.Fail? <==> op == Div && a == 0
    ensures r.Fail? ==> r.error == Raise(Runtime)
    ensures op == Add ==> r.value == b + a
    ensures op == Sub ==> r.value == b - a
    ensures op == Mul ==> r.value == b * a
    ensures op == Div && a != 0 ==> r.value == TruncDiv(b, a) && Abs(b - r.value * a) < Abs(a)
  {
    match op
    case Add => Ok(b + a)
    case Sub => Ok(b - a)
    case Mul => Ok(b * a)
    case Div => if a == 0 then Fail(Raise(Runtime)) else Ok(TruncDiv(b, a))
  }

  /** The comparison a conditional jump makes between the top `a` and the second `b`. */
  predicate Holds(op: Opcode, a: int, b: int)
    requires op.IsConditional()
    ensures a == b ==> (Holds(op, a, b) <==> op in {Jeq, Jae, Jbe})
  {
    match op
    case Jeq => a == b
    case Jne => a != b
    case Ja => a > b
    case Jae => a >= b
    case Jb => a < b
    case Jbe => a <= b
  }

  /** A binary arithmetic command: pop `a`, pop `b`, push the combination. */
  function RunArithmetic(m: Machine, op: Opcode, line: int): (r: Step)
    requires op in {Add, Sub, Mul, Div}
    ensures r.state == WithData(m, r.state.stacks.data)
    ensures r.next.Fail? ==> r.next.error == Raise(Runtime)
  {
    var s := m.stacks.data;
    match Peek(s)
    case Fail(e) => Step(m, Fail(e))
    case Ok(a) =>
      match Peek(Drop(s))
      case Fail(e) => Step(WithData(m, Drop(s)), Fail(e))
      case Ok(b) =>
        var rest := Drop(Drop(s));
        match Combine(op, a, b)
        case Fail(e) => Step(WithData(m, rest), Fail(e))
        case Ok(v) => Step(WithData(m, rest + [v]), Ok(line + 1))
  }

  /**
    * The label lookup of a jump, CALL or conditional jump: the interned
    * table and the label's line, or an invalid-argument error when the name
    * is malformed or the label is still unresolved.
    */
  function Target(m: Machine, name: string): (r: (Machine, Result<int>))
    ensures r.0 == m.(labels := r.0.labels)
    ensures r.1.Fail? ==> r.1.error == Raise(InvalidArgument)
  {
    match ResolveLabel(m.labels, name)
    case Fail(e) => (m, Fail(e))
    case Ok(lab) =>
      var m1 := m.(labels := lab.table);
      var target := lab.table[lab.index].value;
      if target == Unresolved then (m1, Fail(Raise(InvalidArgument))) else (m1, Ok(target))
  }

  /** A conditional jump: pop `a`, pop `b`, push `a` back, and branch when the comparison holds. */
  function RunConditional(m: Machine, ins: Instr, line: int): (r: Step)
    requires ins.op.IsConditional()
    ensures r.state == WithData(m.(labels := r.state.labels), r.state.stacks.data)
    ensures r.next.Fail? ==> r.next.error.line == NoLine
  {
    var (m1, target) := Target(m, ins.operand);
    if target.Fail? then Step(m1, Fail(target.error))
    else
      var s := m1.stacks.data;
      match Peek(s)
      case Fail(e) => Step(m1, Fail(e))
      case Ok(a) =>
        match Peek(Drop(s))
        case Fail(e) => Step(WithData(m1, Drop(s)), Fail(e))
        case Ok(b) =>
          var next := if Holds(ins.op, a, b) then target.value else line + 1;
          Step(WithData(m1, Drop(Drop(s)) + [a]), Ok(next))
  }

  /** PUSHR and POPR: the register commands. */
  function RunRegister(m: Machine, ins: Instr, line: int): (r: Step)
    requires ins.op in {PushR, PopR}
    ensures r.state == WithData(m.(regs := r.state.regs), r.state.stacks.data)
    ensures r.next.Fail? ==> r.next.error.line == NoLine
  {
    var data := m.stacks.data;
    match ResolveRegister(m.regs, ins.operand)
    case Fail(e) => Step(m, Fail(e))
    case Ok(reg) =>
      var m1 := m.(regs := reg.table);
      if ins.op == PushR then
        Step(WithData(m1, data + [reg.table[reg.index].value]), Ok(line + 1))
      else
        match Peek(data)
        case Fail(e) => Step(m1, Fail(e))
        case Ok(v) => Step(WithData(m1.(regs := SetCell(reg.table, reg.index, v)), Drop(data)), Ok(line + 1))
  }

  /** LABEL, JMP and CALL: the unconditional label commands. */
  function RunLabelled(m: Machine, ins: Instr, line: int): (r: Step)
    requires ins.op in {Label, Jmp, Call}
    ensures r.state == WithCall(m.(labels := r.state.labels), r.state.stacks.call)
    ensures r.next.Fail? ==> r.next.error == Raise(InvalidArgument)
  {
    if ins.op == Label then
      match ResolveLabel(m.labels, ins.operand)
      case Fail(e) => Step(m, Fail(e))
      case Ok(lab) => Step(m.(labels := lab.table), Ok(line + 1))
    else
      var (m1, target) := Target(m, ins.operand);
      if ins.op == Jmp || target.Fail? then Step(m1, target)
      else Step(WithCall(m1, m1.stacks.call + [line]), target)
  }

  /**
    * `run(operand, line)`: the effect of executing `ins` at `line` and the
    * line to execute next. Commands re-read their operand text, so PUSH
    * parses its number and register and label commands look their name up
    * again.
    */
  function Run(m: Machine, ins: Instr, line: int): (r: Step)
    ensures r.state.beginLine == m.beginLine && r.state.endLine == m.endLine
    ensures r.next.Fail? ==> r.next.error.line == NoLine
    ensures ins.op !in {In, Out} ==> r.state.input == m.input && r.state.output == m.output
    ensures ins.op !in {PushR, PopR} ==> r.state.regs == m.regs
    ensures !ins.op.TakesLabel() ==> r.state.labels == m.labels
  {
    if ins.op in {PushR, PopR} then RunRegister(m, ins, line)
    else if ins.op in {Label, Jmp, Call} then RunLabelled(m, ins, line)
    else if ins.op.IsConditional() then RunConditional(m, ins, line)
    else RunPlain(m, ins, line)
  }

  /** The commands that touch neither table. */
  function RunPlain(m: Machine, ins: Instr, line: int): (r: Step)
    requires ins.op !in {PushR, PopR} && !ins.op.TakesLabel()
    ensures r.state == m.(stacks := r.state.stacks, input := r.state.input, output := r.state.output)
    ensures r.next.Fail? ==> r.next.error.line == NoLine
    ensures ins.op !in {In, Out} ==> r.state.input == m.input && r.state.output == m.output
  {
    var data := m.stacks.data;
    match ins.op
    case Begin => Step(m, Ok(line + 1))
    case End => Step(m, Ok(EndOfProgram))
    case Push =>
      (match ParseInt(ins.operand)
       case Fail(e) => Step(m, Fail(e))
       case Ok(v) => Step(WithData(m, data + [v]), Ok(line + 1)))
    case Pop => Step(WithData(m, Drop(data)), Ok(line + 1))
    case Add => RunArithmetic(m, Add, line)
    case Sub => RunArithmetic(m, Sub, line)
    case Mul => RunArithmetic(m, Mul, line)
    case Div => RunArithmetic(m, Div, line)
    case In =>
      // `std::cin >> value` stores 0 when there is nothing left to read.
      var v := if m.input == [] then 0 else m.input[0];
      var rest := if m.input == [] then [] else m.input[1..];
      Step(WithData(m.(input := rest), data + [v]), Ok(line + 1))
    case Out =>
      (match Peek(data)
       case Fail(e) => Step(m, Fail(e))
       case Ok(v) => Step(WithData(m.(output := m.output + [v]), Drop(data)), Ok(line + 1)))
    case Ret =>
      (match Peek(m.stacks.call)
       case Fail(e) => Step(m, Fail(e))
       case Ok(back) => Step(WithCall(m, Drop(m.stacks.call)), Ok(back + 1)))
    case Blank => Step(m, Ok(line + 1))
  }
}

/**
  * What the catalogue promises, stated over `Configure` and `Run`.
  */
module CommandLaws {
  import opened Errors
  import opened Data
  import opened Stacks
  import opened Decimal
  import opened Commands

  // ---------------------------------------------------------------------
  // The symbol tables stay well formed
  // ---------------------------------------------------------------------

  /** Interning a valid register name keeps the register table well formed. */
  lemma {:induction false} RegistersStayValid(regs: seq<Entry>, name: string)
    requires RegistersValid(regs) && ValidRegisterName(name)
    ensures RegistersValid(Intern(regs, name, RegisterInitial).table)
  {
    InternKeepsDistinct(regs, name, RegisterInitial);
  }

  /** Interning a valid label name keeps the label table well formed. */
  lemma {:induction false} LabelsStayValid(labels: seq<Entry>, name: string)
    requires LabelsValid(labels) && ValidLabelName(name)
    ensures LabelsValid(Intern(labels, name, Unresolved).table)
  {
    InternKeepsDistinct(labels, name, Unresolved);
  }

  /** Writing a cell keeps a well-formed label table well formed. */
  lemma {:induction false} LabelLineKeepsValid(labels: seq<Entry>, i: nat, line: int)
    requires LabelsValid(labels) && i < |labels|
    ensures LabelsValid(SetCell(labels, i, line))
  {
    SetCellKeepsNames(labels, i, line, labels[i].name);
  }

  /** Writing a cell keeps a well-formed register table well formed. */
  lemma {:induction false} RegisterValueKeepsValid(regs: seq<Entry>, i: nat, v: int)
    requires RegistersValid(regs) && i < |regs|
    ensures RegistersValid(SetCell(regs, i, v))
  {
    SetCellKeepsNames(regs, i, v, regs[i].name);
  }

  /** A successful configure keeps every name unique and well formed in both tables. */
  lemma {:induction false} ConfigureKeepsTablesValid(m: Machine, ins: Instr, line: int)
    requires TablesValid(m)
    ensures Configure(m, ins, line).Ok? ==> TablesValid(Configure(m, ins, line).value)
  {
    var name := ins.operand;
    if ins.op in {PushR, PopR} {
      assert Configure(m, ins, line) == ConfigureRegister(m, name);
      if ValidRegisterName(name) {
        RegistersStayValid(m.regs, name);
      }
    } else if ins.op.TakesLabel() {
      assert Configure(m, ins, line) == ConfigureLabelled(m, ins, line);
      if ValidLabelName(name) {
        LabelsStayValid(m.labels, name);
        var lab := Intern(m.labels, name, Unresolved);
        LabelLineKeepsValid(lab.table, lab.index, line);
      }
    }
  }

  /** Executing any command, even one that fails, keeps both tables well formed. */
  lemma {:induction false} RunKeepsTablesValid(m: Machine, ins: Instr, line: int)
    requires TablesValid(m)
    ensures TablesValid(Run(m, ins, line).state)
  {
    if ins.op in {PushR, PopR} {
      assert Run(m, ins, line) == RunRegister(m, ins, line);
      RegisterRunKeepsTablesValid(m, ins, line);
    } else if ins.op in {Label, Jmp, Call} {
      assert Run(m, ins, line) == RunLabelled(m, ins, line);
      LabelledRunKeepsTablesValid(m, ins, line);
    } else if ins.op.IsConditional() {
      assert Run(m, ins, line) == RunConditional(m, ins, line);
      ConditionalKeepsTablesValid(m, ins, line);
    }
  }

  /**
    * A successful configure changes one label cell at most: LABEL sets its
    * own label to its line, and every other cell reads as before.
    */
  lemma {:induction false} ConfigureLabelCells(m: Machine, ins: Instr, line: int, name: string)
    requires TablesValid(m) && Configure(m, ins, line).Ok?
    ensures CellOf(Configure(m, ins, line).value.labels, name, Unresolved) ==
      if ins == Instr(Label, name) then line else CellOf(m.labels, name, Unresolved)
  {
    if ins.op.TakesLabel() {
      assert Configure(m, ins, line) == ConfigureLabelled(m, ins, line);
      var lab := Intern(m.labels, ins.operand, Unresolved);
      InternKeepsCells(m.labels, ins.operand, Unresolved, name);
      if ins.op == Label {
        InternKeepsDistinct(m.labels, ins.operand, Unresolved);
        SetCellCells(lab.table, lab.index, line, name, Unresolved);
      }
    }
  }

  lemma {:induction false} RegisterRunKeepsTablesValid(m: Machine, ins: Instr, line: int)
    requires TablesValid(m) && ins.op in {PushR, PopR}
    ensures TablesValid(RunRegister(m, ins, line).state)
  {
    var name := ins.operand;
    if ValidRegisterName(name) {
      RegistersStayValid(m.regs, name);
      if ins.op == PopR && m.stacks.data != [] {
        var reg := Intern(m.regs, name, RegisterInitial);
        RegisterValueKeepsValid(reg.table, reg.index, Peek(m.stacks.data).value);
      }
    }
  }

  lemma {:induction false} LabelledRunKeepsTablesValid(m: Machine, ins: Instr, line: int)
    requires TablesValid(m) && ins.op in {Label, Jmp, Call}
    ensures TablesValid(RunLabelled(m, ins, line).state)
  {
    if ValidLabelName(ins.operand) {
      LabelsStayValid(m.labels, ins.operand);
    }
  }

  lemma {:induction false} ConditionalKeepsTablesValid(m: Machine, ins: Instr, line: int)
    requires TablesValid(m) && ins.op.IsConditional()
    ensures TablesValid(RunConditional(m, ins, line).state)
  {
    if ValidLabelName(ins.operand) {
      LabelsStayValid(m.labels, ins.operand);
    }
  }

  // ---------------------------------------------------------------------
  // configure
  // ---------------------------------------------------------------------

  /** BLANK accepts any operand at configure time and only advances when run. */
  lemma BlankDoesNothing(m: Machine, operand: string, line: int)
    ensures Configure(m, Instr(Blank, operand), line) == Ok(m)
    ensures Run(m, Instr(Blank, operand), line) == Step(m, Ok(line + 1))
  {
  }

  /**
    * BEGIN, END, POP, ADD, SUB, MUL, DIV, IN, OUT and RET refuse an operand;
    * with none, all but BEGIN and END configure without any effect.
    */
  lemma ParameterlessRejectsOperand(m: Machine, ins: Instr, line: int)
    requires ins.op.TakesNoOperand()
    ensures ins.operand != "" ==> Configure(m, ins, line) == Fail(Raise(InvalidArgument))
    ensures ins.operand == "" && ins.op !in {Begin, End} ==> Configure(m, ins, line) == Ok(m)
  {
  }

  /**
    * BEGIN records its line the first time it is configured; a second
    * configure, at any line, is a uniqueness error. The same holds for END.
    */
  lemma {:induction false} BeginAndEndConfigureOnce(m: Machine, first: int, second: int)
    requires m.beginLine == -1 && m.endLine == -1
    ensures Configure(m, Instr(Begin, ""), first) == Ok(m.(beginLine := first))
    ensures Configure(m, Instr(End, ""), first) == Ok(m.(endLine := first))
    ensures first != -1 ==>
      Configure(m.(beginLine := first), Instr(Begin, ""), second) == Fail(Raise(Unique)) &&
      Configure(m.(endLine := first), Instr(End, ""), second) == Fail(Raise(Unique))
  {
  }

  /** PUSH accepts exactly the operands that parse as a 32-bit integer. */
  lemma PushConfigure(m: Machine, operand: string, line: int)
    ensures Configure(m, Instr(Push, operand), line).Ok? <==> ParseInt(operand).Ok?
    ensures Configure(m, Instr(Push, operand), line).Ok? ==> Configure(m, Instr(Push, operand), line).value == m
    ensures ParseInt(operand).Fail? ==> Configure(m, Instr(Push, operand), line) == Fail(Raise(InvalidArgument))
  {
  }

  /**
    * PUSHR and POPR configure exactly for a register name ax..ex, and the
    * label commands exactly for a well-formed label name; any other operand
    * is an invalid-argument error that leaves the state alone.
    */
  lemma {:induction false} ConfigureRejectsBadName(m: Machine, ins: Instr, line: int)
    requires ins.op in {PushR, PopR} || ins.op.TakesLabel()
    ensures ins.op in {PushR, PopR} ==>
      (Configure(m, ins, line).Fail? <==> !ValidRegisterName(ins.operand))
    ensures ins.op.TakesLabel() ==>
      (Configure(m, ins, line).Fail? <==> !ValidLabelName(ins.operand))
    ensures Configure(m, ins, line).Fail? ==> Configure(m, ins, line).error == Raise(InvalidArgument)
  {
    if ins.op in {PushR, PopR} {
      assert Configure(m, ins, line) == ConfigureRegister(m, ins.operand);
    } else {
      assert Configure(m, ins, line) == ConfigureLabelled(m, ins, line);
    }
  }

  /** The register tests' operands "" (PUSHR) and "o" (POPR) are rejected. */
  lemma RegisterTestOperandsRejected(m: Machine, line: int)
    ensures Configure(m, Instr(PushR, ""), line) == Fail(Raise(InvalidArgument))
    ensures Configure(m, Instr(PopR, "o"), line) == Fail(Raise(InvalidArgument))
  {
  }

  /**
    * LABEL sets the label's line to its own line, whatever the label held
    * before; a malformed name is an invalid-argument error.
    */
  lemma {:induction false} LabelDefinition(m: Machine, name: string, line: int)
    ensures Configure(m, Instr(Label, name), line).Ok? <==> ValidLabelName(name)
    ensures Configure(m, Instr(Label, name), line).Ok? ==>
      CellOf(Configure(m, Instr(Label, name), line).value.labels, name, Unresolved) == line
  {
    if ValidLabelName(name) {
      var lab := Intern(m.labels, name, Unresolved);
      SetCellKeepsNames(lab.table, lab.index, line, name);
      assert Find(lab.table, name) == lab.index;
    }
  }

  // ---------------------------------------------------------------------
  // run: stack commands
  // ---------------------------------------------------------------------

  /** PUSH puts its number on top of the operand stack and advances. */
  lemma PushRun(m: Machine, operand: string, line: int)
    requires ParseInt(operand).Ok?
    ensures var r := Run(m, Instr(Push, operand), line);
      r.next == Ok(line + 1) &&
      r.state.stacks.data == m.stacks.data + [ParseInt(operand).value] &&
      Peek(r.state.stacks.data) == ParseInt(operand) &&
      r.state.stacks.call == m.stacks.call && r.state.regs == m.regs && r.state.labels == m.labels
  {
  }

  /** POP drops the top value (nothing on an empty stack) and advances. */
  lemma PopRun(m: Machine, line: int)
    ensures Run(m, Instr(Pop, ""), line) == Step(WithData(m, Drop(m.stacks.data)), Ok(line + 1))
  {
  }

  /** OUT writes the top value and drops it; on an empty stack it raises a runtime error. */
  lemma OutRun(m: Machine, line: int)
    ensures var s := m.stacks.data; var r := Run(m, Instr(Out, ""), line);
      if s == [] then r == Step(m, Fail(Raise(Runtime)))
      else r.next == Ok(line + 1) && r.state.output == m.output + [s[|s| - 1]] &&
           r.state.stacks.data == s[..|s| - 1]
  {
  }

  /** IN pushes the next input number, or 0 once the input is exhausted. */
  lemma InRun(m: Machine, line: int)
    ensures var r := Run(m, Instr(In, ""), line);
      r.next == Ok(line + 1) &&
      (m.input != [] ==> r.state.stacks.data == m.stacks.data + [m.input[0]] && r.state.input == m.input[1..]) &&
      (m.input == [] ==> r.state.stacks.data == m.stacks.data + [0] && r.state.input == [])
  {
  }

  /**
    * ADD, SUB, MUL and DIV replace the top value `a` and the value `b` below
    * it by b+a, b-a, b*a and b/a (rounded toward zero) and advance.
    */
  lemma {:induction false} ArithmeticRun(m: Machine, op: Opcode, line: int)
    requires op in {Add, Sub, Mul, Div}
    requires |m.stacks.data| >= 2
    requires op == Div ==> m.stacks.data[|m.stacks.data| - 1] != 0
    ensures var s := m.stacks.data; var n := |s|;
      var a, b := s[n - 1], s[n - 2];
      var v := match op
        case Add => b + a
        case Sub => b - a
        case Mul => b * a
        case Div => TruncDiv(b, a);
      Run(m, Instr(op, ""), line) == Step(WithData(m, s[..n - 2] + [v]), Ok(line + 1))
  {
    var s := m.stacks.data;
    assert Drop(Drop(s)) == s[..|s| - 2];
  }

  /**
    * With fewer than two values, an arithmetic command raises a runtime
    * error; a lone value has already been popped when it does.
    */
  lemma ArithmeticUnderflow(m: Machine, op: Opcode, line: int)
    requires op in {Add, Sub, Mul, Div}
    requires |m.stacks.data| < 2
    ensures Run(m, Instr(op, ""), line) == Step(WithData(m, []), Fail(Raise(Runtime)))
  {
  }

  /** DIV by a zero top value raises a runtime error after popping both values. */
  lemma {:induction false} DivideByZero(m: Machine, line: int)
    requires |m.stacks.data| >= 2 && m.stacks.data[|m.stacks.data| - 1] == 0
    ensures var s := m.stacks.data;
      Run(m, Instr(Div, ""), line) == Step(WithData(m, s[..|s| - 2]), Fail(Raise(Runtime)))
  {
    var s := m.stacks.data;
    assert Drop(Drop(s)) == s[..|s| - 2];
  }

  /** The arithmetic the command tests check, on the stacks they build. */
  lemma ArithmeticExamples(m: Machine)
    ensures Run(WithData(m, [993, 7]), Instr(Add, ""), 777) == Step(WithData(m, [1000]), Ok(778))
    ensures Run(WithData(m, [1000, 7]), Instr(Sub, ""), 0) == Step(WithData(m, [993]), Ok(1))
    ensures Run(WithData(m, [33, -7982]), Instr(Mul, ""), 5) == Step(WithData(m, [-7982 * 33]), Ok(6))
    ensures Run(WithData(m, [-11, 2]), Instr(Div, ""), 5) == Step(WithData(m, [-5]), Ok(6))
  {
    assert [993, 7][..1] == [993];
    assert [1000, 7][..1] == [1000];
    assert [33, -7982][..1] == [33];
    assert [-11, 2][..1] == [-11];
  }

  // ---------------------------------------------------------------------
  // run: registers
  // ---------------------------------------------------------------------

  /** PUSHR pushes the register's value: 0 for a register nothing has written. */
  lemma {:induction false} PushRRun(m: Machine, name: string, line: int)
    requires ValidRegisterName(name)
    ensures var r := Run(m, Instr(PushR, name), line);
      r.next == Ok(line + 1) &&
      r.state.stacks.data == m.stacks.data + [CellOf(m.regs, name, RegisterInitial)]
  {
  }

  /**
    * PUSH v followed by POPR r leaves the operand stack as it was and the
    * register holding v.
    */
  lemma {:induction false} PushThenPopR(m: Machine, operand: string, name: string, line: int)
    requires ParseInt(operand).Ok? && ValidRegisterName(name)
    ensures var m1 := Run(m, Instr(Push, operand), line).state;
      var r := Run(m1, Instr(PopR, name), line + 1);
      r.next == Ok(line + 2) &&
      r.state.stacks == m.stacks &&
      CellOf(r.state.regs, name, RegisterInitial) == ParseInt(operand).value
  {
    var v := ParseInt(operand).value;
    var m1 := Run(m, Instr(Push, operand), line).state;
    assert m1.stacks.data == m.stacks.data + [v];
    var reg := Intern(m.regs, name, RegisterInitial);
    assert Find(reg.table, name) == reg.index;
    SetCellKeepsNames(reg.table, reg.index, v, name);
  }

  // ---------------------------------------------------------------------
  // run: control flow
  // ---------------------------------------------------------------------

  /** A label is resolved when its cell holds a line other than -1. */
  predicate Resolved(m: Machine, name: string)
  {
    ValidLabelName(name) && CellOf(m.labels, name, Unresolved) != Unresolved
  }

  lemma {:induction false} TargetLine(m: Machine, name: string)
    requires ValidLabelName(name)
    ensures Target(m, name).1 ==
      if Resolved(m, name) then Ok(CellOf(m.labels, name, Unresolved)) else Fail(Raise(InvalidArgument))
    ensures Target(m, name).0 == m.(labels := Intern(m.labels, name, Unresolved).table)
  {
  }

  /** JMP goes to the label's line; to an unresolved label it raises an invalid-argument error. */
  lemma {:induction false} JumpRun(m: Machine, name: string, line: int)
    requires ValidLabelName(name)
    ensures var r := Run(m, Instr(Jmp, name), line);
      r.next == if Resolved(m, name) then Ok(CellOf(m.labels, name, Unresolved)) else Fail(Raise(InvalidArgument))
  {
    TargetLine(m, name);
  }

  /**
    * A conditional jump compares the top value `a` with the second `b`,
    * leaves `a` alone where the two were, and branches to the label when the
    * comparison holds, falling through to the next line otherwise.
    */
  lemma {:induction false} ConditionalRun(m: Machine, ins: Instr, line: int)
    requires ins.op.IsConditional() && Resolved(m, ins.operand)
    requires |m.stacks.data| >= 2
    ensures var s := m.stacks.data; var n := |s|;
      var a, b := s[n - 1], s[n - 2];
      var r := Run(m, ins, line);
      r.state.stacks.data == s[..n - 2] + [a] &&
      r.next == Ok(if Holds(ins.op, a, b) then CellOf(m.labels, ins.operand, Unresolved) else line + 1)
  {
    TargetLine(m, ins.operand);
    var s := m.stacks.data;
    assert Drop(Drop(s)) == s[..|s| - 2];
  }

  /** Every jump-like command to an unresolved label raises an invalid-argument error. */
  lemma {:induction false} UnresolvedLabelFails(m: Machine, ins: Instr, line: int)
    requires ins.op.IsConditional() || ins.op in {Jmp, Call}
    requires ValidLabelName(ins.operand) && !Resolved(m, ins.operand)
    ensures Run(m, ins, line).next == Fail(Raise(InvalidArgument))
    ensures Run(m, ins, line).state.stacks == m.stacks
  {
    TargetLine(m, ins.operand);
  }

  /** The jump tests: 11,11 takes JEQ; with 12 on top it falls through. */
  lemma {:induction false} JumpEqualExample(m: Machine, name: string)
    requires Resolved(m, name) && CellOf(m.labels, name, Unresolved) == 5
    ensures Run(WithData(m, [11, 11]), Instr(Jeq, name), 15).next == Ok(5)
    ensures Run(WithData(m, [11, 12]), Instr(Jeq, name), 15).next == Ok(16)
  {
    ConditionalRun(WithData(m, [11, 11]), Instr(Jeq, name), 15);
    ConditionalRun(WithData(m, [11, 12]), Instr(Jeq, name), 15);
  }

  /**
    * CALL at line k pushes k on the call stack and goes to the label; a RET
    * then pops it and resumes at k+1, leaving the call stack as before.
    */
  lemma {:induction false} CallThenRet(m: Machine, name: string, k: int, j: int)
    requires Resolved(m, name)
    ensures var c := Run(m, Instr(Call, name), k);
      c.next == Ok(CellOf(m.labels, name, Unresolved)) &&
      c.state.stacks.call == m.stacks.call + [k] &&
      c.state.stacks.data == m.stacks.data
    ensures var c := Run(m, Instr(Call, name), k);
      var r := Run(c.state, Instr(Ret, ""), j);
      r.next == Ok(k + 1) && r.state.stacks == m.stacks
  {
    TargetLine(m, name);
  }

  /** RET with nothing on the call stack raises a runtime error and changes nothing. */
  lemma RetOnEmptyCallStack(m: Machine, operand: string, line: int)
    requires m.stacks.call == []
    ensures Run(m, Instr(Ret, operand), line) == Step(m, Fail(Raise(Runtime)))
  {
  }

  /** END hands back the terminal line -1. */
  lemma EndRun(m: Machine, line: int)
    ensures Run(m, Instr(End, ""), line) == Step(m, Ok(EndOfProgram))
    ensures EndOfProgram < 0
  {
  }

  /**
    * JEQ and JNE, JA and JBE, JAE and JB are complements, and JA, JAE
    * compare the other way round from JB, JBE.
    */
  lemma HoldsComplements(a: int, b: int)
    ensures Holds(Jeq, a, b) != Holds(Jne, a, b)
    ensures Holds(Ja, a, b) != Holds(Jbe, a, b)
    ensures Holds(Jae, a, b) != Holds(Jb, a, b)
    ensures Holds(Ja, a, b) == Holds(Jb, b, a) && Holds(Jae, a, b) == Holds(Jbe, b, a)
  {
  }

  // ---------------------------------------------------------------------
  // SUB and DIV as written
  // ---------------------------------------------------------------------

  /**
    * SUB and DIV as src/commands.cpp writes them: `first` is the top value,
    * `second` the one below it, and the result is first - second and
    * first / second. C++ leaves a zero divisor undefined; it shows here as
    * a runtime error.
    */
  function CombineAsWritten(op: Opcode, first: int, second: int): (r: Result<int>)
    requires op in {Sub, Div}
    ensures r == Combine(op, second, first)
  {
    match op
    case Sub => Ok(first - second)
    case Div => if second == 0 then Fail(Raise(Runtime)) else Ok(TruncDiv(first, second))
  }

  /**
    * The order the code uses is the reverse of the one the command tests
    * expect: SUB always gives the negated difference, and on the tests'
    * stacks (1000 under 7, -11 under 2) it gives -993 instead of 993 and 0
    * instead of -5.
    */
  lemma OperandOrderAsWritten(a: int, b: int)
    ensures CombineAsWritten(Sub, a, b) == Ok(-Combine(Sub, a, b).value)
    ensures CombineAsWritten(Sub, 7, 1000) == Ok(-993) && Combine(Sub, 7, 1000) == Ok(993)
    ensures CombineAsWritten(Div, 2, -11) == Ok(0) && Combine(Div, 2, -11) == Ok(-5)
  {
  }
}
