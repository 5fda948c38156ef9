# Stack-machine emulator: a Dafny model

This project models the assemble-and-execute core of a small stack-machine
emulator. A program is a list of lines. Each line has a mnemonic (BEGIN, END,
PUSH, POP, PUSHR, POPR, ADD, SUB, MUL, DIV, IN, OUT, LABEL, JMP, CALL, RET,
the conditional jumps JEQ, JNE, JA, JAE, JB, JBE, or a blank line) and one
operand text. Running a program has two phases:

* **Build.** The preprocessor configures every line in order: it checks the
  operand, records BEGIN's and END's lines, interns registers and labels, and
  sets label lines. Then it clears all command state and saves the program
  as a binary image. Each record in the image is an opcode byte, the operand
  text and a NUL.
* **Run.** The emulator loads the image, which configures it again, and
  starts at BEGIN's line with an empty operand stack and an empty call stack.
  It executes line after line while the line number stays inside the
  program.

The files follow the repository's structure:

| file | models |
|---|---|
| `errors.dfy` | the exception carriers: an error is a kind and a line, -1 until the build tags it |
| `stack.dfy` | `Stack<T>` over `int`: a class over an array with ghost contents, plus the pure `Peek`/`Drop` the machine uses |
| `data.dfy` | the register and label tables as lookup-or-append sequences, their classes, and `CommandStack` |
| `decimal.dfy` | `stoi` restricted to plain signed decimals in the 32-bit range, and C++ division that rounds toward zero |
| `commands.dfy` | the command catalogue: `Configure` and `Run` over one `Machine` value holding everything the singleton commands share |
| `prep.dfy` | the record format, the configure pass, `Preprocessor` with `Build`, `Load`, `Clear` and `Save` |
| `cpu.dfy` | the fetch-execute loop, run on a fuel budget because it need not end |

Where the code and its tests disagree, the model follows the tests. The
affected points are END's return value and the operand order of SUB and DIV
(see Findings). It also follows the tests on error kinds: the code throws
`std::invalid_argument` and `std::logic_error`, while the tests expect the
emulator's own invalid-argument and uniqueness exceptions. CALL and RET are
defined in `src/commands.h`; the conditional jumps are not declared anywhere
in the sources and only the tests name them. Their behaviour is taken from
`test/cases/commands.cpp`: the label is looked up
first, then the top value `a` and the second value `b` are compared, and
`a` stays on the stack in place of the two. LABEL follows the code: a second
definition of the same label overwrites the first and is not an error.

## Model

| member | source | states |
|---|---|---|
| Errors.Raise | exceptions/exc.h:14-16 | a newly raised error has the given kind and line -1 |
| Stacks.Peek | lib/stack/stack.h:206-212 | top succeeds exactly on a non-empty stack and yields the last pushed value; on an empty stack it is a runtime error |
| Stacks.Drop | lib/stack/stack.h:214-216 | pop removes exactly the top value, and leaves an empty stack empty |
| Stacks.PushAllAppends | lib/stack/stack.h:175-193 | pushing values one by one appends them in order |
| Stacks.LastInFirstOut | lib/stack/stack.h:206-220 | after pushing any values, repeated top-and-pop sees them in reverse push order and restores the earlier stack |
| Stacks.DrainAppended | lib/stack/stack.h:206-220 | draining what was appended yields it reversed and leaves the prefix |
| Stacks.Stack.constructor | lib/stack/stack.h:117-124 | a default stack is empty with capacity 0 |
| Stacks.Stack.Reserve | lib/stack/stack.h:117-124 | `Stack(n)` is empty with capacity n |
| Stacks.Stack.Copy | lib/stack/stack.h:126-137 | a copy has the source's contents and capacity, or capacity 0 when the source is empty; the source is not modified |
| Stacks.Stack.Move | lib/stack/stack.h:139-147 | the new stack takes over contents and capacity; the source is left empty with capacity 0 |
| Stacks.Stack.Assign | lib/stack/stack.h:149-162 | after copy assignment, contents and capacity equal the source's; self-assignment changes nothing |
| Stacks.Stack.Resize | lib/stack/stack.h:195-204 | `_resize` sets the capacity and keeps contents and size |
| Stacks.Stack.Push | lib/stack/stack.h:175-193 | push appends the value on top and leaves the rest; capacity becomes 2*cap+1 exactly when the buffer was full |
| Stacks.Stack.Top | lib/stack/stack.h:206-212 | top returns the last value, or a runtime error on an empty stack |
| Stacks.Stack.Pop | lib/stack/stack.h:214-220 | pop removes the top value (nothing when empty); the capacity becomes the size exactly when size*2+1000 < capacity |
| Stacks.Stack.Capacity | lib/stack/stack.h:93-95 | `capacity()` is never less than the number of values held |
| Stacks.Stack.IsEmpty | lib/stack/stack.h:107-110 | true exactly when the stack holds nothing |
| Stacks.Stack.Size | lib/stack/stack.h:112-115 | the number of values held |
| Data.Find | src/data.h:23-27 | the position of the first entry with the name, or the table length when there is none |
| Data.Intern | src/data.h:23-29 | lookup-or-append: an existing name leaves the table unchanged; a new one is appended with the initial value |
| Data.ResolveRegister | src/data.h:19-29 | a name outside ax..ex is an invalid-argument error; any other name is looked up or appended with value 0, as Intern says |
| Data.ResolveLabel | src/data.h:56-73 | an empty name, a non-letter first character or a non-alphanumeric character is an invalid-argument error; otherwise the name is looked up or appended with line -1, as Intern says |
| Data.FirstRegisterLookupIsZero | src/data.h:12 | the first lookup of a valid register appends one entry with value 0 at the end |
| Data.LookupIsStable | src/data.h:23-27 | a second lookup of the same name returns the same entry and leaves the table as it was |
| Data.InternKeepsDistinct | src/data.h:66-72 | lookups never create a second entry for a name |
| Data.SetCellKeepsNames | src/data.h:32 | writing through a cell reference changes no name, no position and no lookup |
| Data.FindAppend | src/data.h:28 | appending an entry keeps every earlier lookup result |
| Data.InternKeepsCells | src/data.h:46 | interning never changes the value any name reads as |
| Data.SetCellCells | src/data.h:79 | writing a cell changes the value of its own name and of no other |
| Data.Search | src/data.h:23-27 | the linear search loop returns the first matching position, or the table length |
| Data.RegisterTable.constructor | src/data.h:16 | the register table starts empty |
| Data.RegisterTable.Get | src/data.h:19-30 | `get` on the mutable table agrees with ResolveRegister: error and unchanged table, or the interned entry's index |
| Data.RegisterTable.SetValue | src/data.h:32 | writing `value()` replaces exactly that entry's value |
| Data.RegisterTable.ClearAll | src/data.h:36-38 | `clear_all` empties the table |
| Data.LabelTable.constructor | src/data.h:48 | the label table starts empty |
| Data.LabelTable.Get | src/data.h:56-73 | `get`, with its character-validation loop, agrees with ResolveLabel |
| Data.LabelTable.SetLine | src/data.h:79 | writing `line()` replaces exactly that entry's line |
| Data.LabelTable.ClearAll | src/data.h:75-77 | `clear_all` empties the table |
| Decimal.ParseInt | src/commands.cpp:3-9 | an operand parses exactly when it is an optional sign and a non-empty run of digits whose value is in the 32-bit range, and then yields that value; failure is an invalid-argument error |
| Decimal.ShowNat | src/commands.cpp:3-9 | decimal text is a non-empty string of digits |
| Decimal.ShowNatValue | src/commands.cpp:3-9 | the digits of n are worth n |
| Decimal.ParseShow | src/commands.cpp:3-9 | every 32-bit integer written in decimal parses back to itself |
| Decimal.DigitsValueAtLeast | src/commands.cpp:5-7 | k digits without a leading zero are worth at least 10^(k-1) |
| Decimal.LongNumbersRejected | src/commands.cpp:5-7 | eleven or more digits without a leading zero, with or without '-', are out of range and rejected |
| Decimal.PowMonotone | src/commands.cpp:5-7 | powers of ten grow with the exponent |
| Decimal.ParseRejectsName | test/cases/commands.cpp:30-39 | the operand "ax" is rejected |
| Decimal.ParseRejectsLongNumber | test/cases/commands.cpp:30-39 | the 16-digit operand "9999999999999999" is rejected |
| Decimal.ParseFortyTwo | test/cases/commands.cpp:30-39 | the operand "42" parses to 42 |
| Decimal.TruncDiv | src/commands.cpp:217-223 | integer division rounds toward zero: the remainder has the dividend's sign and is smaller than the divisor |
| Decimal.TruncDivRemainder | src/commands.cpp:217-223 | the quotient of the absolute values, with the sign of the operands, leaves such a remainder |
| Commands.Initial | src/commands.h:81 | a process starts with BEGIN and END unrecorded (-1), empty register and label tables, empty stacks, the given input and no output |
| Commands.Configure | src/commands.cpp:60-68 | configure never touches the stacks or the console, and its errors carry no line yet |
| Commands.ConfigureRegister | src/commands.cpp:31-33 | a register command's setup fails, with an invalid-argument error, exactly for a name outside ax..ex; on success it interns the register and changes nothing else |
| Commands.ConfigureLabelled | src/commands.cpp:46-48 | a label command's setup fails, with an invalid-argument error, exactly for a malformed label name; on success it changes only the label table, and JMP, CALL and the conditional jumps just intern the label |
| Commands.Combine | src/commands.cpp:154-223 | ADD, SUB and MUL give b+a, b-a and b*a of the top a and second b; DIV fails only for a zero top value, with a runtime error, and otherwise gives b/a rounded toward zero |
| Commands.Run | src/commands.h:38-41 | run never changes BEGIN's or END's line; only IN and OUT touch the console; errors carry no line |
| Commands.RunPlain | src/commands.cpp:51-270 | the commands without a register or label operand change only the stacks and the console |
| Commands.RunRegister | src/commands.cpp:121-148 | PUSHR and POPR change only the register table and the operand stack |
| Commands.RunArithmetic | src/commands.cpp:154-223 | ADD, SUB, MUL and DIV change only the operand stack, and fail only with a runtime error |
| Commands.Target | src/commands.cpp:288-292 | a label lookup changes only the label table and fails only with an invalid-argument error |
| Commands.RunLabelled | src/commands.h:189-214 | LABEL, JMP and CALL change only the label table and the call stack, and fail only with an invalid-argument error |
| Commands.Holds | test/cases/commands.cpp:195-339 | on equal values exactly JEQ, JAE and JBE hold |
| Commands.RunConditional | test/cases/commands.cpp:195-339 | the conditional jumps change only the label table and the operand stack |
| CommandLaws.RegistersStayValid | src/data.h:19-29 | interning a valid register keeps names unique and valid |
| CommandLaws.LabelsStayValid | src/data.h:56-73 | interning a valid label keeps names unique and valid |
| CommandLaws.LabelLineKeepsValid | src/commands.cpp:280-282 | writing LABEL's line keeps the label table well formed |
| CommandLaws.RegisterValueKeepsValid | src/commands.cpp:139-143 | writing a register keeps the register table well formed |
| CommandLaws.ConfigureKeepsTablesValid | src/commands.cpp:21-48 | a successful configure keeps both tables free of duplicate and malformed names |
| CommandLaws.ConfigureLabelCells | src/commands.cpp:280-282 | a successful configure changes at most one label: LABEL sets its own label to its line and every other label reads as before |
| CommandLaws.RunKeepsTablesValid | src/commands.cpp:21-48 | every run, failing or not, keeps both tables free of duplicate and malformed names |
| CommandLaws.RegisterRunKeepsTablesValid | src/commands.cpp:121-148 | PUSHR and POPR keep both tables well formed |
| CommandLaws.LabelledRunKeepsTablesValid | src/commands.cpp:273-292 | LABEL, JMP and CALL keep both tables well formed |
| CommandLaws.ConditionalKeepsTablesValid | test/cases/commands.cpp:195-339 | conditional jumps keep both tables well formed |
| CommandLaws.BlankDoesNothing | src/commands.h:225-232 | BLANK accepts any operand without effect and returns line+1 |
| CommandLaws.ParameterlessRejectsOperand | src/commands.cpp:60-63 | BEGIN, END, POP, ADD, SUB, MUL, DIV, IN, OUT and RET refuse a non-empty operand with an invalid-argument error; with an empty operand all but BEGIN and END configure with no effect |
| CommandLaws.BeginAndEndConfigureOnce | src/commands.cpp:60-87 | BEGIN and END record their line on the first configure; a second configure is a uniqueness error |
| CommandLaws.PushConfigure | src/commands.cpp:16-19 | PUSH configures exactly when its operand parses, with no effect; otherwise it is an invalid-argument error |
| CommandLaws.ConfigureRejectsBadName | src/commands.cpp:21-48 | PUSHR and POPR configure exactly for a register name ax..ex, the label commands exactly for a well-formed label; anything else is an invalid-argument error |
| CommandLaws.RegisterTestOperandsRejected | test/cases/commands.cpp:61-74 | PUSHR "" and POPR "o" are invalid-argument errors at configure |
| CommandLaws.LabelDefinition | src/commands.cpp:280-282 | LABEL configures exactly for a valid name, and afterwards the label reads as LABEL's own line |
| CommandLaws.PushRun | src/commands.cpp:94-97 | PUSH puts its value on top, returns line+1, and leaves the call stack and tables alone |
| CommandLaws.PopRun | src/commands.cpp:108-111 | POP drops the top value (nothing on an empty stack) and returns line+1 |
| CommandLaws.OutRun | src/commands.cpp:259-262 | OUT writes the top value and drops it; on an empty stack it is a runtime error with nothing changed |
| CommandLaws.InRun | src/commands.cpp:238-244 | IN pushes the next input number, or 0 once the input is exhausted, and returns line+1 |
| CommandLaws.ArithmeticRun | test/cases/commands.cpp:77-119 | ADD, SUB, MUL and DIV replace the top a and second b by b+a, b-a, b*a and b/a rounded toward zero, and return line+1 |
| CommandLaws.ArithmeticUnderflow | src/commands.cpp:154-160 | with fewer than two values an arithmetic command is a runtime error, and a lone value is already popped |
| CommandLaws.DivideByZero | src/commands.cpp:217-223 | DIV by a zero top value is a runtime error after both values are popped |
| CommandLaws.ArithmeticExamples | test/cases/commands.cpp:77-119 | 993,7 ADD gives 1000; 1000,7 SUB gives 993; 33,-7982 MUL gives -7982*33; -11,2 DIV gives -5 |
| CommandLaws.PushRRun | src/commands.cpp:125-128 | PUSHR pushes the register's value, 0 for a register never written |
| CommandLaws.PushThenPopR | src/commands.cpp:139-143 | PUSH v then POPR r leaves the stacks as they were and r holding v |
| CommandLaws.TargetLine | src/commands.cpp:288-292 | a label lookup yields the label's line when resolved and an invalid-argument error while it is -1 |
| CommandLaws.JumpRun | src/commands.cpp:288-292 | JMP returns the label's line, or an invalid-argument error for an unresolved label |
| CommandLaws.ConditionalRun | test/cases/commands.cpp:195-339 | JEQ, JNE, JA, JAE, JB and JBE compare top a with second b, leave a in place of both, and return the label's line when the comparison holds, else line+1 |
| CommandLaws.UnresolvedLabelFails | test/cases/commands.cpp:213-215 | JMP, CALL and the conditional jumps to an unresolved label are invalid-argument errors that leave the stacks alone |
| CommandLaws.HoldsComplements | test/cases/commands.cpp:195-339 | JEQ/JNE, JA/JBE and JAE/JB are complements, and JA, JAE are JB, JBE with the operands swapped |
| CommandLaws.JumpEqualExample | test/cases/commands.cpp:195-216 | JEQ with 11,11 goes to the label; with 12 on top it falls through to line+1 |
| CommandLaws.CallThenRet | test/cases/commands.cpp:341-369 | CALL at k pushes k on the call stack and goes to the label; RET then resumes at k+1 with the call stack as before |
| CommandLaws.RetOnEmptyCallStack | test/cases/commands.cpp:370 | RET on an empty call stack is a runtime error and changes nothing |
| CommandLaws.EndRun | test/cases/commands.cpp:19-22 | END returns -1, a line outside every program |
| CommandLaws.CombineAsWritten | src/commands.cpp:175-223 | SUB and DIV as written are the intended operations with top and second swapped |
| CommandLaws.OperandOrderAsWritten | src/commands.cpp:175-181 | as written, SUB gives the negated difference and DIV divides the other way: -993 and 0 where the tests expect 993 and -5 |
| Prep.Code | src/prep.h:62-63 | an opcode's byte is its position in the catalogue |
| Prep.Record | src/prep.h:62-64 | a record is the opcode byte, one byte per operand character and a closing NUL |
| Prep.Encode | src/prep.h:62-64 | the image holds at least two bytes per instruction, starts with the first opcode's byte and ends with a NUL |
| Prep.FromCode | src/prep.h:62-64 | a byte names an opcode exactly when it is below the number of opcodes |
| Prep.NulIndex | src/prep.h:63 | the position of the first NUL, or the length when there is none |
| Prep.Decode | src/prep.h:36 | decoding an image fails only with an invalid-argument error |
| Prep.CodeRoundTrip | src/prep.h:62-64 | decoding an opcode's byte gives that opcode back |
| Prep.CodeUnique | src/prep.h:62-64 | every decodable byte is the byte of the opcode it decodes to, so no two bytes name one opcode |
| Prep.TextRoundTrip | src/prep.h:63 | operand text of non-NUL bytes is written byte for byte, holds no NUL and reads back unchanged |
| Prep.EncodeAppend | src/prep.h:62-64 | writing one more record appends exactly that record to the image |
| Prep.DecodeEncode | test/cases/preprocessor.cpp:10-19 | decoding a saved image gives back the program, when no operand holds a NUL or a character wider than a byte |
| Prep.DecodeRecord | src/prep.h:62-64 | a record followed by a decodable image decodes to its instruction followed by that image's program |
| Prep.NulPrefix | src/prep.h:63 | the NUL after an operand is the first NUL of its record |
| Prep.ConfigureFrom | src/prep.h:18-30 | the pass reports an error at an index inside the program and never touches the stacks or the console |
| Prep.PassMatchesPrefix | src/prep.h:18-30 | the pass configures strictly in order: a reported error comes from the first instruction that fails, every earlier one having configured; a pass without error configured the whole program |
| Prep.PassRecordsBeginAndEnd | src/prep.h:18-30 | after a successful pass the program has at most one BEGIN and one END, and their recorded lines are their positions, or -1 when absent |
| Prep.LastLabel | src/commands.cpp:280-282 | the last definition of a label before a point, or -1 |
| Prep.PassResolvesLabels | src/commands.cpp:280-282 | after a successful pass each label reads as the line of its last LABEL, or -1 when it is only jumped to |
| Prep.Cleared | src/prep.h:44-50 | `clear` leaves BEGIN and END unrecorded and both tables empty and valid, and keeps the stacks and the console |
| Prep.ReconfigureAfterClear | src/prep.h:44-50 | after `clear`, configuring the program again ends exactly where the first pass ended |
| Prep.LoadImage | src/prep.h:35-42 | a successful load decodes the named file into the program; load errors carry no line |
| Prep.BuildThenLoad | src/prep.h:13-42 | loading the image a successful build saved gives back the program and the state of the build's own pass |
| Prep.Preprocessor.constructor | src/prep.h:7 | a preprocessor starts with no program over the given state and files |
| Prep.Preprocessor.Build | src/prep.h:13-33 | configures in order at 0-based lines; the first error is reported at its 1-based line with no file written; otherwise clears and saves the image as name + ".emu" |
| Prep.Preprocessor.Load | src/prep.h:35-42 | the load loop agrees with LoadImage and writes no file |
| Prep.Preprocessor.Clear | src/prep.h:44-50 | BEGIN and END forget their lines and both tables are emptied; program and files are untouched |
| Prep.Preprocessor.Save | src/prep.h:54-65 | writes the records of the program, in order, under name + ".emu" and nothing else |
| Cpu.Execute | src/cpu.h:20-31 | a run takes at most its fuel in steps, executes only lines inside the program, reports at most one error per step, stops early only on leaving the program, and, from a line inside it, executes that line first |
| Cpu.Iterate | src/cpu.h:21 | the same bounds for a run that begins by fetching the instruction at an in-range `line` |
| Cpu.Dispatch | src/cpu.h:22-30 | the same bounds for a run that begins by executing the fetched instruction at `line` |
| Cpu.AccountStep | src/cpu.h:20-31 | the loop invariant of the fetch-execute loop survives one iteration |
| Cpu.Started | src/cpu.h:19 | a run starts from the loaded state with an empty operand stack and call stack, nothing else changed |
| Cpu.Emulator.constructor | src/cpu.h:9 | an emulator is bound to its preprocessor and image name |
| Cpu.Emulator.Run | src/cpu.h:15-32 | `run` loads the image, and on success executes from BEGIN's line with fresh stacks, as Execute says; a load error runs nothing |
| Cpu.Emulator.Cycle | src/cpu.h:20-31 | the `while` loop ends in the state and at the line Execute gives |
| Cpu.NoBeginRunsNothing | src/cpu.h:18-20 | a program built without BEGIN starts at line -1 and executes nothing |
| Cpu.RunStartsAtBegin | src/cpu.h:18 | with a BEGIN, the first line executed is BEGIN's own |
| Cpu.EndStops | src/cpu.h:20 | executing END ends the run at once, with the state unchanged |
| Cpu.ErrorRetriesSameLine | src/cpu.h:24-30 | an error is reported at its line and the same line runs again from the state the failure left |
| Cpu.RetWithoutCallLoops | src/cpu.h:24-30 | RET with no CALL fails on every retry and consumes the whole fuel on that line |
| Cpu.Lines | src/cpu.h:20-23 | the consecutive lines from a start to an end |
| Cpu.AdvancingRun | src/commands.cpp:51-128 | BEGIN, POP, IN, BLANK, a PUSH of a number, a PUSHR of a valid register and a LABEL with a valid name return the next line from every state |
| Cpu.AdvancingStep | src/cpu.h:20-23 | one iteration over an instruction that returns line+1 from every state moves on to the next line with that instruction's new state and reports nothing |
| Cpu.LinesCons | src/cpu.h:20-23 | the lines from `from` on are `from` followed by the lines from `from + 1` on |
| Cpu.StraightLineRun | src/cpu.h:20-23 | when every instruction from the start returns line+1 from every state, the run visits the lines in order, reports nothing and stops at the program's length |
| Cpu.AddProgramBuilds | src/prep.h:18-30 | BEGIN, PUSH 3, PUSH 4, ADD, OUT, END builds with BEGIN at 0 and END at 5 |
| Cpu.ConfigureStep | src/prep.h:18-30 | an instruction that configures without changing the state lets the pass go on unchanged |
| Cpu.AddProgramBodyConfigures | src/commands.cpp:90-119 | the PUSH, ADD and OUT lines of the program configure without changing the state |
| Cpu.AddProgramRuns | src/cpu.h:15-32 | running that program writes 7, executes each line once and stops at -1 |
| Cpu.AddProgramFinishes | src/commands.cpp:154-263 | from line 3 with 3 and 4 stacked, ADD, OUT and END write 7 and stop at -1 after three steps |
| Cpu.AddProgramStarts | src/commands.cpp:51-97 | BEGIN goes on to line 1, and PUSH 3 stacks 3 |
| Cpu.AddProgramPushes | src/commands.cpp:94-97 | PUSH 4 stacks 4 on top of 3 |
| Cpu.AddProgramAdds | src/commands.cpp:154-161 | ADD replaces 3 and 4 on the stack by 7 |
| Cpu.AddProgramOutputs | src/commands.cpp:259-263 | OUT writes 7 and empties the stack, and the corrected END ends the run |
| Cpu.RunEndAsWritten | src/commands.cpp:75-77 | END as written leaves the state alone and returns line+1, exactly as BEGIN's run does |
| Cpu.EndAsWrittenFallsThrough | src/commands.cpp:75-77 | as written, an END before the last line lets the loop run the next line; the corrected END stops it |

## Left out

- Generic `T`: the stack holds `int`. The iterator class and raw `new`/`delete` are not modelled. Arrays are allocated fresh, and the old buffer is simply dropped.
- The stack's move assignment (lib/stack/stack.h:164-168) is not modelled. It calls `std::swap`, which move-assigns again, so it recurses without end.
- Stacks.Stack.Resize: requires a capacity that holds the contents. The source copies `min(size, capacity)` values but leaves `_size` alone, and it is only ever called with a capacity at least the size.
- `uint32_t` sizes and capacities are unbounded naturals. Wrap-around at 2^32 elements is not modelled.
- Signed overflow in ADD, SUB and MUL, and DIV of INT_MIN by -1, are undefined behaviour in C++. Here arithmetic is on unbounded integers.
- IN's input numbers are unbounded integers; `operator>>` clamps a number outside the `int` range to INT_MIN or INT_MAX.
- Decimal.ParseInt: accepts only an optional sign followed by digits. `stoi` also skips leading whitespace and ignores trailing text.
- DIV by zero is undefined behaviour in the code, because it has no check. The model raises a runtime error after both values are popped.
- Console I/O: IN reads from an input sequence and OUT appends to an output sequence. The prompt, line breaks and error messages are not modelled; errors are kept as values with their line.
- CommandLaws.InRun: IN on exhausted input pushes 0. In the code (src/commands.cpp:239-241) `value` is uninitialised and `operator>>` does not write it when the input is exhausted, so an indeterminate value is pushed; 0 is this model's choice for that value.
- The tokenizer (`parse`, `get_program`, `get_raw_program`, `parse_binary`) is not part of this model. A program is given as a sequence of instructions, and `Decode` stands in for `parse_binary` as the inverse of the record format. Opcode bytes follow the order of the command aliases in src/commands.h:235-254, then the conditional jumps.
- File streams: files are a map from names to byte strings. A file that cannot be created (the `exit(1)` in `save`) is not modelled. A missing image is a runtime error, and a malformed one is an invalid-argument error.
- `exit(1)` after a build error: `Build` returns the error tagged with its 1-based line and writes no file.
- Singletons, `shared_ptr` and virtual dispatch are replaced by one opcode datatype and one `Machine` value. The mismatched `run`/`configure` signatures of the mid-refactor code are modelled with a single signature.
- Error kinds follow the tests, and the CPU loop retries the line after every error. As written, JMP to an unresolved label throws `std::invalid_argument` (src/commands.cpp:288-290), which the loop at src/cpu.h:20-31 does not catch (it catches only the emulator's invalid-argument and uniqueness exceptions and `std::runtime_error`), so that error ends the emulator instead of being retried. Commands.cpp's other `std::invalid_argument` and `std::logic_error` throws happen at configure time, where the build stops either way.
- The CPU loop need not end, because an error retries the same line. Cpu.Execute runs it for at most a given number of steps; what happens after the fuel runs out is not modelled.
- src/main.cpp (command-line dispatch) and lib/stack.h (an older, broken stack) are not part of this model.

## Findings

| source | as written | input that shows it | evidently intended | confidence | as-written member | corrected member |
|---|---|---|---|---|---|---|
| src/commands.cpp:75-77 | END's `run` returns line+1, like BEGIN | END at line 14 returns 15; the test at test/cases/commands.cpp:22 expects -1, and an END before the last line lets the loop go on | END returns -1 so the loop stops | high, not executed | Cpu.EndAsWrittenFallsThrough | CommandLaws.EndRun |
| src/commands.cpp:175-181 | SUB pushes top - second (`CommandLaws.CombineAsWritten`) | 1000 then 7 pushed: leaves -993; test/cases/commands.cpp:89-95 expects 993 | second - top | high, not executed | CommandLaws.OperandOrderAsWritten | CommandLaws.ArithmeticRun |
| src/commands.cpp:217-223 | DIV pushes top / second (`CommandLaws.CombineAsWritten`) | -11 then 2 pushed: leaves 2 / -11 = 0; test/cases/commands.cpp:113-119 expects -5 | second / top, rounded toward zero | high, not executed | CommandLaws.OperandOrderAsWritten | CommandLaws.ArithmeticRun |
