/**
  * The preprocessor of src/prep.h: the build pass that configures a program
  * and saves it as a binary image, the load pass that configures a saved
  * image again, and `clear`, which resets every command and both tables in
  * between.
  *
  * The tokenizer the preprocessor calls is not part of this model: a program
  * is given as the sequence of instructions it would produce, and an image is
  * decoded by `Decode`, the inverse of the record format `save` writes. The
  * file system is a map from file names to byte strings.
  */
module Prep {
  import opened Errors
  import opened Data
  import opened Commands
  import opened CommandLaws

  newtype byte = x: int | 0 <= x < 256

  // ---------------------------------------------------------------------
  // The record format
  // ---------------------------------------------------------------------

  /** The opcodes in the order of their ids: the order of the command aliases, then the conditional jumps. */
  const Opcodes: seq<Opcode> :=
    [Begin, End, Push, Pop, PushR, PopR, Add, Sub, Mul, Div, In, Out,
     Label, Jmp, Call, Ret, Blank, Jeq, Jne, Ja, Jae, Jb, Jbe]

  /** The opcode byte of a record: the opcode's position in the catalogue. */
  function Code(op: Opcode): (b: byte)
    ensures (b as int) < |Opcodes| && Opcodes[b] == op
  {
    match op
    case Begin => 0  case End => 1  case Push => 2  case Pop => 3
    case PushR => 4  case PopR => 5  case Add => 6  case Sub => 7
    case Mul => 8  case Div => 9  case In => 10  case Out => 11
    case Label => 12  case Jmp => 13  case Call => 14  case Ret => 15
    case Blank => 16  case Jeq => 17  case Jne => 18  case Ja => 19
    case Jae => 20  case Jb => 21  case Jbe => 22
  }

  /** The opcode an id byte stands for; a byte past the last id is malformed. */
  function FromCode(b: byte): (r: Result<Opcode>)
    ensures r.Fail? <==> b as int >= |Opcodes|
  {
    if (b as int) < |Opcodes| then Ok(Opcodes[b]) else Fail(Raise(InvalidArgument))
  }

  /** A C++ `char` holds one byte: a character keeps its low eight bits. */
  function Octet(c: char): byte
  {
    (c as int % 256) as byte
  }

  /** Operand text a record can carry unchanged: every character a non-NUL byte. */
  predicate ByteText(s: string)
  {
    forall i :: 0 <= i < |s| ==> 0 < s[i] as int < 256
  }

  function TextBytes(s: string): (bs: seq<byte>)
    ensures |bs| == |s|
  {
    if s == [] then [] else [Octet(s[0])] + TextBytes(s[1..])
  }

  function BytesText(bs: seq<byte>): string
  {
    if bs == [] then [] else [(bs[0] as int) as char] + BytesText(bs[1..])
  }

  /** One record: the opcode byte, the operand text and a NUL. */
  function Record(ins: Instr): (r: seq<byte>)
    ensures |r| == |ins.operand| + 2
    ensures r[0] == Code(ins.op) && r[|r| - 1] == 0
  {
    [Code(ins.op)] + TextBytes(ins.operand) + [0]
  }

  /** The image `save` writes: the records of the program, in order. */
  function Encode(program: seq<Instr>): (image: seq<byte>)
    ensures |image| >= 2 * |program|
    ensures program != [] ==> image[0] == Code(program[0].op)
    ensures image != [] ==> image[|image| - 1] == 0
  {
    if program == [] then [] else Record(program[0]) + Encode(program[1..])
  }

  /** The position of the first NUL, or `|bs|` when there is none. */
  function NulIndex(bs: seq<byte>): (i: nat)
    ensures i <= |bs|
    ensures i < |bs| ==> bs[i] == 0
    ensures forall j :: 0 <= j < i ==> bs[j] != 0
  {
    if bs == [] || bs[0] == 0 then 0 else 1 + NulIndex(bs[1..])
  }

  /**
    * Reading an image back: a record is an opcode byte, then text up to the
    * next NUL. An unknown opcode byte or a record without its NUL is
    * malformed.
    */
  function Decode(image: seq<byte>): (r: Result<seq<Instr>>)
    decreases |image|
    ensures r.Fail? ==> r.error == Raise(InvalidArgument)
  {
    if image == [] then Ok([])
    else
      var op :- FromCode(image[0]);
      var rest := image[1..];
      var n := NulIndex(rest);
      if n == |rest| then Fail(Raise(InvalidArgument))
      else
        var tail :- Decode(rest[n + 1..]);
        Ok([Instr(op, BytesText(rest[..n]))] + tail)
  }

  /** Each opcode's byte reads back as that opcode. */
  lemma CodeRoundTrip(op: Opcode)
    ensures FromCode(Code(op)) == Ok(op)
  {
  }

  /** Each byte that names an opcode is that opcode's byte: no two bytes name the same opcode. */
  lemma CodeUnique(b: byte)
    ensures FromCode(b).Ok? ==> Code(FromCode(b).value) == b
  {
    var codes := seq(|Opcodes|, i requires 0 <= i < |Opcodes| => Code(Opcodes[i]) as int);
    assert codes == seq(|Opcodes|, i => i);
    if (b as int) < |Opcodes| {
      assert codes[b] == b as int;
    }
  }

  lemma {:induction false} TextRoundTrip(s: string)
    requires ByteText(s)
    ensures BytesText(TextBytes(s)) == s
    ensures |TextBytes(s)| == |s|
    ensures NulIndex(TextBytes(s)) == |s|
  {
    if s != [] {
      TextRoundTrip(s[1..]);
      assert TextBytes(s)[1..] == TextBytes(s[1..]);
    }
  }

  /** Writing one more record appends it to the image. */
  lemma {:induction false} EncodeAppend(program: seq<Instr>, ins: Instr)
    ensures Encode(program + [ins]) == Encode(program) + Record(ins)
  {
    if program != [] {
      assert (program + [ins])[1..] == program[1..] + [ins];
      EncodeAppend(program[1..], ins);
    }
  }

  /**
    * Decoding a saved image gives back the program, opcodes and operands,
    * when no operand holds a NUL or a character wider than a byte.
    */
  lemma {:induction false} DecodeEncode(program: seq<Instr>)
    requires forall i :: 0 <= i < |program| ==> ByteText(program[i].operand)
    ensures Decode(Encode(program)) == Ok(program)
  {
    if program != [] {
      DecodeEncode(program[1..]);
      DecodeRecord(program[0], Encode(program[1..]), program[1..]);
      assert [program[0]] + program[1..] == program;
    }
  }

  /** A well-formed record in front of an image decodes to its instruction in front of the image's program. */
  lemma DecodeRecord(ins: Instr, image: seq<byte>, tail: seq<Instr>)
    requires ByteText(ins.operand) && Decode(image) == Ok(tail)
    ensures Decode(Record(ins) + image) == Ok([ins] + tail)
  {
    var bs := TextBytes(ins.operand);
    var all := Record(ins) + image;
    TextRoundTrip(ins.operand);
    CodeRoundTrip(ins.op);
    var rest := all[1..];
    assert rest == bs + ([0] + image);
    NulPrefix(bs, [0] + image);
    assert rest[..|bs|] == bs;
    assert rest[|bs| + 1..] == image;
  }

  lemma {:induction false} NulPrefix(bs: seq<byte>, tail: seq<byte>)
    requires NulIndex(bs) == |bs| && tail != [] && tail[0] == 0
    ensures NulIndex(bs + tail) == |bs|
  {
    if bs != [] {
      assert (bs + tail)[1..] == bs[1..] + tail;
      NulPrefix(bs[1..], tail);
    }
  }

  // ---------------------------------------------------------------------
  // The configure pass
  // ---------------------------------------------------------------------

  /** The state a pass leaves and whether some instruction failed. */
  datatype Pass = Pass(state: Machine, status: Result<()>)

  /**
    * Configuring `program[line..]` in order, each instruction with its own
    * index as its line, and stopping at the first error, which is tagged
    * with that index.
    */
  function ConfigureFrom(m: Machine, program: seq<Instr>, line: nat): (r: Pass)
    requires line <= |program|
    decreases |program| - line
    ensures r.status.Fail? ==> line <= r.status.error.line < |program|
    ensures r.state.stacks == m.stacks && r.state.input == m.input && r.state.output == m.output
  {
    if line == |program| then Pass(m, Ok(()))
    else
      match Configure(m, program[line], line)
      case Fail(e) => Pass(m, Fail(Error(e.kind, line)))
      case Ok(m1) => ConfigureFrom(m1, program, line + 1)
  }

  /** A reference definition: the first `n` instructions configured one after another. */
  function Prefix(m: Machine, program: seq<Instr>, n: nat): Result<Machine>
    requires n <= |program|
  {
    if n == 0 then Ok(m)
    else
      var m1 :- Prefix(m, program, n - 1);
      Configure(m1, program[n - 1], n - 1)
  }

  /**
    * The pass reports the first instruction that fails: every instruction
    * before it configured, and it is the one that raised the error. A pass
    * without error configured the whole program.
    */
  lemma {:induction false} PassMatchesPrefix(m: Machine, program: seq<Instr>, k: nat, mk: Machine)
    requires k <= |program| && Prefix(m, program, k) == Ok(mk)
    decreases |program| - k
    ensures var r := ConfigureFrom(mk, program, k);
      (r.status.Ok? ==> Prefix(m, program, |program|) == Ok(r.state)) &&
      (r.status.Fail? ==>
        var i := r.status.error.line;
        Prefix(m, program, i) == Ok(r.state) &&
        Configure(r.state, program[i], i) == Fail(Raise(r.status.error.kind)))
  {
    if k < |program| {
      match Configure(mk, program[k], k)
      case Fail(e) =>
      case Ok(m1) =>
        assert Prefix(m, program, k + 1) == Ok(m1);
        PassMatchesPrefix(m, program, k + 1, m1);
    }
  }

  /** `line` is where `op` stands in `program[..k]`, its only place there, or -1 when it is absent. */
  predicate RecordedAt(program: seq<Instr>, k: nat, op: Opcode, line: int)
    requires k <= |program|
  {
    (line == -1 && forall i :: 0 <= i < k ==> program[i].op != op) ||
    (0 <= line < k && program[line].op == op && forall i :: 0 <= i < k && i != line ==> program[i].op != op)
  }

  /**
    * A pass that succeeds saw at most one BEGIN and at most one END, and
    * left each one's line recorded, or -1 where the program has none.
    */
  lemma PassRecordsBeginAndEnd(m: Machine, program: seq<Instr>, k: nat)
    requires k <= |program|
    requires RecordedAt(program, k, Begin, m.beginLine) && RecordedAt(program, k, End, m.endLine)
    ensures var r := ConfigureFrom(m, program, k);
      r.status.Ok? ==>
        RecordedAt(program, |program|, Begin, r.state.beginLine) &&
        RecordedAt(program, |program|, End, r.state.endLine)
  {
    PassRecords(m, program, k, Begin);
    PassRecords(m, program, k, End);
  }

  /** The line BEGIN's or END's command holds. */
  function LineOf(m: Machine, op: Opcode): int
    requires op in {Begin, End}
  {
    if op == Begin then m.beginLine else m.endLine
  }

  lemma {:induction false} PassRecords(m: Machine, program: seq<Instr>, k: nat, op: Opcode)
    requires k <= |program| && op in {Begin, End}
    requires RecordedAt(program, k, op, LineOf(m, op))
    decreases |program| - k
    ensures var r := ConfigureFrom(m, program, k);
      r.status.Ok? ==> RecordedAt(program, |program|, op, LineOf(r.state, op))
  {
    if k < |program| {
      var c := Configure(m, program[k], k);
      ConfigureFromStep(m, program, k);
      if c.Ok? {
        ConfigureRecords(m, program[k], k);
        RecordedStep(program, k, op, LineOf(m, op), LineOf(c.value, op));
        PassRecords(c.value, program, k + 1, op);
      }
    }
  }

  /** One step of the pass: a failure stops it, a success goes on at the next line. */
  lemma ConfigureFromStep(m: Machine, program: seq<Instr>, k: nat)
    requires k < |program|
    ensures var c := Configure(m, program[k], k);
      ConfigureFrom(m, program, k) ==
        if c.Fail? then Pass(m, Fail(Error(c.error.kind, k))) else ConfigureFrom(c.value, program, k + 1)
  {
  }

  /**
    * A successful configure records the line of a BEGIN or END that was not
    * yet recorded, and leaves the other recorded line alone.
    */
  lemma ConfigureRecords(m: Machine, ins: Instr, line: int)
    requires Configure(m, ins, line).Ok?
    ensures var m1 := Configure(m, ins, line).value;
      (ins.op == Begin ==> m.beginLine == -1 && m1.beginLine == line) &&
      (ins.op != Begin ==> m1.beginLine == m.beginLine) &&
      (ins.op == End ==> m.endLine == -1 && m1.endLine == line) &&
      (ins.op != End ==> m1.endLine == m.endLine)
  {
  }

  /** Extending the recorded prefix by one instruction. */
  lemma RecordedStep(program: seq<Instr>, k: nat, op: Opcode, before: int, after: int)
    requires k < |program| && RecordedAt(program, k, op, before)
    requires program[k].op == op ==> before == -1 && after == k
    requires program[k].op != op ==> after == before
    ensures RecordedAt(program, k + 1, op, after)
  {
  }

  /** The line of the last `LABEL name` in `program[..k]`, or -1 when there is none. */
  function LastLabel(program: seq<Instr>, k: nat, name: string): (line: int)
    requires k <= |program|
    ensures -1 <= line < k
    ensures line != -1 ==> program[line] == Instr(Label, name)
    ensures forall i :: line < i < k ==> program[i] != Instr(Label, name)
  {
    if k == 0 then -1
    else if program[k - 1] == Instr(Label, name) then k - 1
    else LastLabel(program, k - 1, name)
  }

  /**
    * After a pass that succeeds, every label reads as the line of its last
    * definition: a later LABEL of the same name silently overwrites an
    * earlier one, and a label that is only jumped to stays at -1.
    */
  lemma {:induction false} PassResolvesLabels(m: Machine, program: seq<Instr>, k: nat)
    requires k <= |program| && TablesValid(m)
    requires forall name :: CellOf(m.labels, name, Unresolved) == LastLabel(program, k, name)
    decreases |program| - k
    ensures var r := ConfigureFrom(m, program, k);
      r.status.Ok? ==> forall name :: CellOf(r.state.labels, name, Unresolved) == LastLabel(program, |program|, name)
  {
    if k < |program| {
      var ins := program[k];
      match Configure(m, ins, k)
      case Fail(_) =>
      case Ok(m1) =>
        ConfigureKeepsTablesValid(m, ins, k);
        forall name
          ensures CellOf(m1.labels, name, Unresolved) == LastLabel(program, k + 1, name)
        {
          ConfigureLabelCells(m, ins, k, name);
        }
        PassResolvesLabels(m1, program, k + 1);
    }
  }

  // ---------------------------------------------------------------------
  // clear, and what a second pass sees
  // ---------------------------------------------------------------------

  /** What `clear` leaves: BEGIN and END forget their lines, both tables are empty. */
  function Cleared(m: Machine): (c: Machine)
    ensures IsClear(c) && TablesValid(c)
    ensures c.stacks == m.stacks && c.input == m.input && c.output == m.output
  {
    m.(beginLine := -1, endLine := -1, regs := [], labels := [])
  }

  /** Nothing configured: the state a process starts in and the one `clear` restores. */
  predicate IsClear(m: Machine)
  {
    m.beginLine == -1 && m.endLine == -1 && m.regs == [] && m.labels == []
  }

  /**
    * Once `clear` has run, configuring the same program again from line 0
    * ends exactly where the first pass ended: nothing of the first pass
    * leaks into the second.
    */
  lemma {:induction false} ReconfigureAfterClear(m: Machine, program: seq<Instr>)
    requires IsClear(m)
    ensures var first := ConfigureFrom(m, program, 0);
      IsClear(Cleared(first.state)) &&
      ConfigureFrom(Cleared(first.state), program, 0) == first
  {
    var first := ConfigureFrom(m, program, 0);
    assert Cleared(first.state) == m;
  }

  /** What `load` leaves, as a function of the state before it. */
  datatype Loaded = Loaded(state: Machine, program: seq<Instr>, status: Result<()>)

  /**
    * `load`: read the image, replace the program with what it decodes to and
    * configure every instruction with consecutive lines from 0. A missing
    * file or a malformed image changes nothing; a configure error escapes
    * `load` with what the earlier instructions configured kept.
    */
  function LoadImage(m: Machine, program: seq<Instr>, files: map<string, seq<byte>>, name: string): (r: Loaded)
    ensures r.status.Fail? ==> r.status.error.line == NoLine
    ensures r.status.Ok? ==> name in files && Decode(files[name]) == Ok(r.program)
  {
    if name !in files then Loaded(m, program, Fail(Raise(Runtime)))
    else
      match Decode(files[name])
      case Fail(e) => Loaded(m, program, Fail(e))
      case Ok(p) =>
        var pass := ConfigureFrom(m, p, 0);
        var status := if pass.status.Ok? then Ok(()) else Fail(Raise(pass.status.error.kind));
        Loaded(pass.state, p, status)
  }

  /**
    * A build that succeeds from a clear state, followed by a load of the
    * image it saved, gives back the same program and the same configured
    * state as the build's own pass.
    */
  lemma {:induction false} BuildThenLoad(m: Machine, program: seq<Instr>, files: map<string, seq<byte>>, name: string)
    requires IsClear(m) && ConfigureFrom(m, program, 0).status.Ok?
    requires forall i :: 0 <= i < |program| ==> ByteText(program[i].operand)
    ensures var built := ConfigureFrom(m, program, 0);
      var saved := files[name + ".emu" := Encode(program)];
      LoadImage(Cleared(built.state), program, saved, name + ".emu") == Loaded(built.state, program, Ok(()))
  {
    DecodeEncode(program);
    ReconfigureAfterClear(m, program);
  }

  // ---------------------------------------------------------------------
  // The preprocessor
  // ---------------------------------------------------------------------

  class Preprocessor {
    /** The program the last parse produced (`get_program`). */
    var program: seq<Instr>
    /** Everything the commands share: BEGIN/END lines, tables, stacks and console. */
    var state: Machine
    /** The file system `save` writes to and `load` reads from. */
    var files: map<string, seq<byte>>

    constructor (state: Machine, files: map<string, seq<byte>>)
      ensures this.program == [] && this.state == state && this.files == files
    {
      this.program := [];
      this.state := state;
      this.files := files;
    }

    /**
      * `build`: configure `source` in order, each instruction at its 0-based
      * index. The first error stops the build and is reported at its 1-based
      * line, and no file is written. Otherwise `clear` runs and the image is
      * saved under `outName` with ".emu" appended.
      */
    method Build(source: seq<Instr>, outName: string) returns (r: Result<string>)
      modifies this
      ensures program == source
      ensures var pass := ConfigureFrom(old(state), source, 0);
        if pass.status.Fail? then
          r == Fail(Error(pass.status.error.kind, pass.status.error.line + 1)) &&
          state == pass.state && files == old(files)
        else
          r == Ok(outName + ".emu") && state == Cleared(pass.state) &&
          files == old(files)[outName + ".emu" := Encode(source)]
    {
      program := source;
      var line := 0;
      while line < |program|
        invariant 0 <= line <= |program| && program == source && files == old(files)
        invariant ConfigureFrom(state, program, line) == ConfigureFrom(old(state), source, 0)
      {
        var c := Configure(state, program[line], line);
        if c.Fail? {
          return Fail(Error(c.error.kind, line + 1));
        }
        state := c.value;
        line := line + 1;
      }
      Clear();
      var written := Save(outName);
      r := Ok(written);
    }

    /** `load`: decode the named image and configure it from line 0. */
    method Load(name: string) returns (r: Result<()>)
      modifies this
      ensures Loaded(state, program, r) == LoadImage(old(state), old(program), old(files), name)
      ensures files == old(files)
    {
      if name !in files {
        return Fail(Raise(Runtime));
      }
      var decoded := Decode(files[name]);
      if decoded.Fail? {
        return Fail(decoded.error);
      }
      program := decoded.value;
      ghost var start := state;
      var line := 0;
      while line < |program|
        invariant 0 <= line <= |program| && program == decoded.value && files == old(files)
        invariant ConfigureFrom(state, program, line) == ConfigureFrom(start, program, 0)
      {
        var c := Configure(state, program[line], line);
        if c.Fail? {
          return Fail(c.error);
        }
        state := c.value;
        line := line + 1;
      }
      r := Ok(());
    }

    /** `clear`: reset every command and empty both tables. */
    method Clear()
      modifies this
      ensures state == Cleared(old(state)) && IsClear(state)
      ensures program == old(program) && files == old(files)
    {
      state := state.(beginLine := -1, endLine := -1, regs := [], labels := []);
    }

    /** `save`: write the program's records one by one into `name` + ".emu". */
    method Save(name: string) returns (written: string)
      modifies this
      ensures written == name + ".emu"
      ensures files == old(files)[written := Encode(program)]
      ensures program == old(program) && state == old(state)
    {
      written := name + ".emu";
      var image: seq<byte> := [];
      var i := 0;
      while i < |program|
        invariant 0 <= i <= |program|
        invariant image == Encode(program[..i])
        invariant program == old(program) && state == old(state) && files == old(files)
      {
        EncodeAppend(program[..i], program[i]);
        assert program[..i + 1] == program[..i] + [program[i]];
        image := image + [Code(program[i].op)] + TextBytes(program[i].operand) + [0];
        i := i + 1;
      }
      assert program[..i] == program;
      files := files[written := image];
    }
  }
}
