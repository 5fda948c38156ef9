/**
  * The process-wide symbol tables of src/data.h and the pair of stacks a run
  * executes against.
  *
  * Registers and labels are both interned by name into a table of cells: a
  * register's cell is its value (0 when created), a label's cell is its line
  * (-1, unresolved, when created). `get` validates the name, searches the
  * table front to back and appends a new entry when the name is not there.
  * The pure functions below say what a lookup does; the classes
  * `RegisterTable` and `LabelTable` are the mutable tables, proved against them.
  */
module Data {
  import opened Errors

  /** An interned name and its cell. */
  datatype Entry = Entry(name: string, value: int)

  /** The only register names `RegisterType::get` accepts. */
  const RegisterNames: seq<string> := ["ax", "bx", "cx", "dx", "ex"]

  /** The value of a newly created register. */
  const RegisterInitial: int := 0

  /** The line of a label that no LABEL instruction has defined yet. */
  const Unresolved: int := -1

  /** `isalpha` and `isalnum` in the C locale. */
  predicate IsLetter(c: char) { 'a' <= c <= 'z' || 'A' <= c <= 'Z' }
  predicate IsAlnum(c: char) { IsLetter(c) || '0' <= c <= '9' }

  predicate ValidRegisterName(name: string) { name in RegisterNames }

  /** A label name starts with a letter and holds letters and digits only. */
  predicate ValidLabelName(name: string)
  {
    name != [] && IsLetter(name[0]) && forall i :: 0 <= i < |name| ==> IsAlnum(name[i])
  }

  /** No name occurs twice in a table. */
  ghost predicate Distinct(table: seq<Entry>)
  {
    forall i, j :: 0 <= i < j < |table| ==> table[i].name != table[j].name
  }

  /** The position of the first entry named `name`, or `|table|` when there is none. */
  function Find(table: seq<Entry>, name: string): (i: nat)
    ensures i <= |table|
    ensures i < |table| ==> table[i].name == name
    ensures forall j :: 0 <= j < i ==> table[j].name != name
  {
    if table == [] then 0
    else if table[0].name == name then 0
    else 1 + Find(table[1..], name)
  }

  /** A table after a lookup, and the position of the entry the lookup returns. */
  datatype Interned = Interned(table: seq<Entry>, index: nat)

  /**
    * Lookup-or-append: an existing entry leaves the table as it was; a new
    * name gets a fresh entry holding `initial` at the end.
    */
  function Intern(table: seq<Entry>, name: string, initial: int): (r: Interned)
    ensures r.index < |r.table| && r.table[r.index].name == name
    ensures (exists k :: 0 <= k < |table| && table[k].name == name) ==>
              r.table == table && r.index < |table|
    ensures (forall k :: 0 <= k < |table| ==> table[k].name != name) ==>
              r.table == table + [Entry(name, initial)]
  {
    var i := Find(table, name);
    if i < |table| then Interned(table, i) else Interned(table + [Entry(name, initial)], |table|)
  }

  /** `RegisterType::get` as a function of the register table. */
  function ResolveRegister(regs: seq<Entry>, name: string): (r: Result<Interned>)
    ensures r.Fail? <==> !ValidRegisterName(name)
    ensures r.Fail? ==> r.error == Raise(InvalidArgument)
    ensures r.Ok? ==> r.value == Intern(regs, name, RegisterInitial)
  {
    if ValidRegisterName(name) then Ok(Intern(regs, name, RegisterInitial))
    else Fail(Raise(InvalidArgument))
  }

  /** `LabelType::get` as a function of the label table. */
  function ResolveLabel(labels: seq<Entry>, name: string): (r: Result<Interned>)
    ensures r.Fail? <==> !ValidLabelName(name)
    ensures r.Fail? ==> r.error == Raise(InvalidArgument)
    ensures r.Ok? ==> r.value == Intern(labels, name, Unresolved)
  {
    if ValidLabelName(name) then Ok(Intern(labels, name, Unresolved))
    else Fail(Raise(InvalidArgument))
  }

  /** The cell of `name` without interning it, `absent` when the table has no such entry. */
  function CellOf(table: seq<Entry>, name: string, absent: int): int
  {
    var i := Find(table, name);
    if i < |table| then table[i].value else absent
  }

  /** Writing through the reference `get` returned. */
  function SetCell(table: seq<Entry>, i: nat, v: int): (r: seq<Entry>)
    requires i < |table|
  {
    table[i := table[i].(value := v)]
  }

  /** The first lookup of a valid register appends a cell holding 0. */
  lemma {:induction false} FirstRegisterLookupIsZero(regs: seq<Entry>, name: string)
    requires ValidRegisterName(name)
    requires forall k :: 0 <= k < |regs| ==> regs[k].name != name
    ensures ResolveRegister(regs, name).Ok?
    ensures var r := ResolveRegister(regs, name).value;
      r.table == regs + [Entry(name, 0)] && r.index == |regs|
  {
    assert Find(regs, name) == |regs|;
  }

  /** A later lookup of the same name returns that same entry and changes nothing. */
  lemma {:induction false} LookupIsStable(table: seq<Entry>, name: string, initial: int)
    ensures var r := Intern(table, name, initial);
      Intern(r.table, name, initial) == r
  {
    var r := Intern(table, name, initial);
    assert Find(r.table, name) == r.index;
  }

  /** Lookups never create a second entry for a name. */
  lemma {:induction false} InternKeepsDistinct(table: seq<Entry>, name: string, initial: int)
    requires Distinct(table)
    ensures Distinct(Intern(table, name, initial).table)
  {
    var f := Find(table, name);
    if f == |table| {
      var t := table + [Entry(name, initial)];
      forall i, j | 0 <= i < j < |t| ensures t[i].name != t[j].name {
        if j == |table| {
          assert t[i] == table[i];
        }
      }
    }
  }

  /** Writing a cell keeps the names, so the table stays free of duplicates. */
  lemma {:induction false} SetCellKeepsNames(table: seq<Entry>, i: nat, v: int, name: string)
    requires i < |table|
    ensures |SetCell(table, i, v)| == |table|
    ensures forall k :: 0 <= k < |table| ==> SetCell(table, i, v)[k].name == table[k].name
    ensures Find(SetCell(table, i, v), name) == Find(table, name)
    ensures Distinct(table) ==> Distinct(SetCell(table, i, v))
  {
    var t := SetCell(table, i, v);
    assert forall k :: 0 <= k < |t| ==> t[k].name == table[k].name;
  }

  /** Appending an entry leaves every earlier lookup where it was. */
  lemma {:induction false} FindAppend(table: seq<Entry>, e: Entry, name: string)
    ensures Find(table + [e], name) ==
      if Find(table, name) < |table| then Find(table, name)
      else if e.name == name then |table| else |table| + 1
  {
    if table != [] {
      assert (table + [e])[1..] == table[1..] + [e];
      FindAppend(table[1..], e, name);
    }
  }

  /**
    * Interning never changes what any name reads as, when absent names read
    * as the value a new entry gets.
    */
  lemma {:induction false} InternKeepsCells(table: seq<Entry>, name: string, initial: int, other: string)
    ensures CellOf(Intern(table, name, initial).table, other, initial) == CellOf(table, other, initial)
  {
    if Find(table, name) == |table| {
      FindAppend(table, Entry(name, initial), other);
    }
  }

  /** Writing a cell changes what its own name reads as, and no other name. */
  lemma {:induction false} SetCellCells(table: seq<Entry>, i: nat, v: int, other: string, absent: int)
    requires i < |table| && Distinct(table)
    ensures CellOf(SetCell(table, i, v), other, absent) ==
      if table[i].name == other then v else CellOf(table, other, absent)
  {
    SetCellKeepsNames(table, i, v, other);
  }

  /** The linear search `get` runs over the table. */
  method Search(table: seq<Entry>, name: string) returns (i: nat)
    ensures i == Find(table, name)
  {
    i := 0;
    while i < |table| && table[i].name != name
      invariant i <= |table|
      invariant forall j :: 0 <= j < i ==> table[j].name != name
    {
      i := i + 1;
    }
  }

  /** `RegisterType`'s static vector `regs_` and its operations. */
  class RegisterTable {
    var entries: seq<Entry>

    constructor ()
      ensures entries == []
    {
      entries := [];
    }

    /** `RegisterType::get`: rejects a name outside ax..ex, else finds or appends its cell. */
    method Get(name: string) returns (r: Result<nat>)
      modifies this
      ensures var res := ResolveRegister(old(entries), name);
        if res.Ok? then r == Ok(res.value.index) && entries == res.value.table
        else r == Fail(res.error) && entries == old(entries)
    {
      if name !in RegisterNames {
        return Fail(Raise(InvalidArgument));
      }
      var i := Search(entries, name);
      if i == |entries| {
        entries := entries + [Entry(name, RegisterInitial)];
      }
      return Ok(i);
    }

    /** Assigning through `value()` of the entry at `i`. */
    method SetValue(i: nat, v: int)
      requires i < |entries|
      modifies this
      ensures entries == SetCell(old(entries), i, v)
    {
      entries := SetCell(entries, i, v);
    }

    /** `RegisterType::clear_all`. */
    method ClearAll()
      modifies this
      ensures entries == []
    {
      entries := [];
    }
  }

  /** `LabelType`'s static vector `labels_` and its operations. */
  class LabelTable {
    var entries: seq<Entry>

    constructor ()
      ensures entries == []
    {
      entries := [];
    }

    /**
      * `LabelType::get`: rejects an empty name, a name not starting with a
      * letter or holding a non-alphanumeric character, else finds or appends
      * its cell with line -1.
      */
    method Get(name: string) returns (r: Result<nat>)
      modifies this
      ensures var res := ResolveLabel(old(entries), name);
        if res.Ok? then r == Ok(res.value.index) && entries == res.value.table
        else r == Fail(res.error) && entries == old(entries)
    {
      if name == [] || !IsLetter(name[0]) {
        return Fail(Raise(InvalidArgument));
      }
      var k := 0;
      while k < |name|
        invariant k <= |name|
        invariant forall j :: 0 <= j < k ==> IsAlnum(name[j])
      {
        if !IsAlnum(name[k]) {
          return Fail(Raise(InvalidArgument));
        }
        k := k + 1;
      }
      var i := Search(entries, name);
      if i == |entries| {
        entries := entries + [Entry(name, Unresolved)];
      }
      return Ok(i);
    }

    /** Assigning through `line()` of the entry at `i`. */
    method SetLine(i: nat, line: int)
      requires i < |entries|
      modifies this
      ensures entries == SetCell(old(entries), i, line)
    {
      entries := SetCell(entries, i, line);
    }

    /** `LabelType::clear_all`. */
    method ClearAll()
      modifies this
      ensures entries == []
    {
      entries := [];
    }
  }

  /** `CommandStack`: the operand stack and the call stack, by their contents. */
  datatype CommandStack = CommandStack(data: seq<int>, call: seq<int>)

  /** The pair a run starts with. */
  const FreshStacks: CommandStack := CommandStack([], [])
}
