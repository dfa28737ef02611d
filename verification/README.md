# Acorns, modelled and proved in Dafny

Acorns is a port of the Squirrel 3.1 language to microcontrollers: a one-pass compiler, a register machine, hash
tables, a garbage collector and a standard library, together with the minIni configuration files and a pool of
interpreter threads. This project models the parts where the work is hard and proves what they are for:

- a table is a finite map, over every run of insertions, removals and the rehashes they cause;
- what the compiler emits for a function runs as the function means, loops, `switch`, `try` and all;
- a captured variable is one shared cell, wherever it lives;
- the collector keeps exactly the reachable objects, and its count of the rest is right exactly when no finalizer
  gets ahead of the walk;
- saved functions load back, escaped strings are read back, values put in an INI file are found again;
- in every interleaving of the thread pool reference counts are exact and a program runs in one thread at a time.

Code that updates things in place is modelled by classes and loops and proved against functions on values; what is
promised is then proved about those functions and about the invariants. Where the code does not do what it is for,
the model does what the code does: "Findings" below lists each input that shows it, and the exact condition under
which the promise holds. `dafny verify dfyconfig.toml` checks everything.

Files, by component:

| component | files |
|---|---|
| shared lemmas | Common |
| tables | ScatterNodes, Table |
| compiler and machine | Squirrel (meaning), Laws (of the language), Bytecode (machine), Layout, CodeOf, Relocation (which code is which program), FuncState, ExprEmit, StmtEmit, StmtStates, LoopStates, SwitchStates, ForStates, Compiler (code generation), Resources (what is accepted), ExprCorrect, StmtCorrect, FunctionCorrect (runs), ByteFits, EndToEnd, Miscompiled |
| optimiser | Peephole |
| captured variables, generators | Outers, Generators |
| collector | Collector (marking), RefCounts, Sweep |
| host references and strings | Buckets, RefTable, StringTable |
| saved functions | ClosureStream (format), ClosureIO (streams) |
| library | HeapSort, Rex, Literals |
| INI files | IniText, IniLines, IniLookup, IniHand (files written by hand), IniStore, IniFile |
| thread pool | RequestPool |

The model is of the 32-bit build. Hash functions, the meaning of arithmetic and comparison operators, character
classes, the comparison function of a sort, what an operator does to the world, and the streams' and the file's
contents are parameters: the results hold for all of them.

## Model

| member | source | states |
|---|---|---|
| `Table.SQTable.NewSlot` | utility/sqtable.cpp:119-174 | The table is the old map with the key bound to the value, whatever rehash it took, and the layout invariants hold. The answer is true exactly when the key was new and a free node was left over. It always ends: an insertion during a rehash never rehashes. |
| `Table.SQTable.Rehash` | utility/sqtable.cpp:46-71 | Growing, shrinking and forced rebuilding keep the map, although the key being inserted is in the nodes and not yet in the count, and the array has the size the number of keys asks for. |
| `Table.NewSizeIs` | utility/sqtable.cpp:53-58 | A table that is three quarters full is doubled, one that is at most a quarter full is halved, but not below four nodes, and any other keeps its size. |
| `Table.SQTable.Reinsert` | utility/sqtable.cpp:57-67 | Putting every old node into the new array never runs out of free nodes, so it never rehashes again. |
| `Table.SQTable.Get` | utility/sqtable.cpp:108-117 | Finds a key exactly when the map has it, and gives its value. |
| `Table.SQTable.Set` | utility/sqtable.cpp:195-203 | Changes the value of a key that is there and nothing else. |
| `Table.SQTable.Remove` | utility/sqtable.cpp:21-31 | Takes exactly the key out of the map; the tombstone keeps the chains whole, and an array that has become too empty is halved. |
| `Table.SQTable.Clear` | utility/sqtable.cpp:216-222 | The map is empty and the array has half its size, but not less than four nodes. |
| `Table.SQTable.Clone` | utility/sqtable.cpp:73-106 | A fresh table with an equal map. |
| `Table.SQTable.Next` | utility/sqtable.cpp:176-193 | The first live node at or after the position, its key and value, and the position behind it. |
| `Table.SQTable.Traverse` | utility/sqtable.cpp:176-193 | Iterating from null until the end meets every key of the map once, with its value, and nothing else. |
| `Table.SQTable.FindPrevious` | utility/sqtable.cpp:138-143 | The walk from a colliding key's main position always arrives at the node in front of it. |
| `ScatterNodes.DisplaceLayout` | utility/sqtable.cpp:138-152 | Moving a foreign node to the free one keeps every key reachable from its main position, chains acyclic and without shared nodes. |
| `Outers.SQVM.FindOuter` | utility/sqvm.cpp:1669-1688 | Captures of one stack slot give one outer: the result stands for the slot's variable and is the only open outer of the slot, a new outer is made only if it had none, and the open list stays strictly descending. |
| `Outers.SQVM.ClosureOp` | utility/sqvm.cpp:601-628 | Every captured variable of the new closure is the variable its declaration names, and every default parameter has the value its slot has. |
| `Outers.SQVM.GetOuter` | utility/sqvm.cpp:926-931 | Reads the variable's last written value, open or closed. |
| `Outers.SQVM.SetOuter` | utility/sqvm.cpp:932-940 | Writes that variable and no other, seen by every closure and by the local. |
| `Outers.SQVM.CloseOuters` | utility/sqvm.cpp:1747-1755 | Nothing at or above the level is open any more; every captured variable keeps its value and its identity. |
| `Outers.SQVM.RelocateOuters` | utility/sqvm.cpp:1738-1745 | After the stack has moved every open outer shows its slot again. |
| `Outers.SQVM.EnterFrame` | utility/sqvm.cpp:1690-1719 | A frame, or for a tail call one more call of the frame there is, and perhaps a larger stack; no variable changes. Fails only if the stack is too small during a metamethod call. |
| `Outers.SQVM.LeaveFrame` | utility/sqvm.cpp:1721-1736 | Back to the frame before; captured variables survive with their values, dropped slots are null. |
| `Compiler.Expression` | utility/sqcompiler.cpp:371-612 | What is added is the code of the expression, its value is the one new target, and only code, literals and stack size differ. It succeeds exactly when the stack positions and literals the expression needs are there, and uses up exactly those. |
| `Compiler.Conditional` | utility/sqcompiler.cpp:431-450 | The same for `?:`: both jumps lead where the layout of a conditional says. |
| `Compiler.Logic` | utility/sqcompiler.cpp:471-513 | The same for the two short-circuit operators, with the jump over the second operand. |
| `Compiler.Statement` | utility/sqcompiler.cpp:209-317 | What is added is the code of the statement, once the open breaks and continues are filled; all of the function state but code, literals and stack size is restored. It succeeds exactly when its breaks and continues have something to leave and there is room for its temporaries and literals. |
| `Compiler.SwitchStatement` | utility/sqcompiler.cpp:1221-1274 | The same for `switch`, whose cases fall through. |
| `Compiler.ForStatement` | utility/sqcompiler.cpp:1133-1178 | The same for `for`, whose third clause is compiled first and moved behind the body. At address 0 the jump of the test is meant and not stored. |
| `Compiler.TryCatchStatement` | utility/sqcompiler.cpp:1386-1416 | The same for `try`; jumps out of it pop as many traps as they leave. |
| `FuncState.SQFuncState.ResolveBreaks` | utility/sqcompiler.cpp:1545-1554 | The newest waiting breaks, and no other instruction, get the end of the code as their target. |
| `FuncState.SQFuncState.ResolveContinues` | utility/sqcompiler.cpp:1555-1564 | The same for continues and their target. |
| `Relocation.RelocClause` | utility/sqcompiler.cpp:1158-1172 | Code of a clause, moved to another address, is code of that clause there. |
| `Resources.AcceptedWhen` | utility/sqfuncstate.cpp:218-268 | When compiling succeeds, read off the source: every break and continue has a loop or switch to leave, no temporary comes to lie above position 255 unless a named variable was there before, and there are at most 2^31 - 1 different literals. |
| `Resources.SumAccepted` | utility/sqfuncstate.cpp:259-268 | `1 + (1 + (...))` with n additions is accepted if and only if parameters and the n + 1 positions it needs are 256 at most. |
| `Laws.ConditionalPicks` | utility/sqvm.cpp:673-685 | Null, the integer 0 and false count as false, and no other value: for just these a conditional takes its second branch. |
| `Laws.NotIsConditional` | utility/sqvm.cpp:1026-1026 | `!e` means what `e ? false : true` means, for every expression. |
| `Laws.TwiceNot` | utility/sqvm.cpp:1026-1026 | `!!v` is true or false just as the value counts as one. |
| `Laws.LogicIsConditional` | utility/sqvm.cpp:1013-1024 | `l && r` means `l ? r : l` and the other short-circuit operator `l ? l : r`. |
| `Laws.OperatorsAre` | utility/sqvm.cpp:890-895 | Other operators get their left operand first; of them only a failing `%` is no error. |
| `Laws.LeftFirst` | utility/sqcompiler.cpp:371-612 | A left operand that has no value keeps the right one from being evaluated. |
| `Laws.IfIsIfElse` | utility/sqcompiler.cpp:1061-1098 | An `if` means the same as with an empty `else`. |
| `Laws.WhileUnrolls` | utility/sqcompiler.cpp:1099-1117 | A round of `while`: its test, its body, and then the loop again unless the body broke it or left it. |
| `Laws.ForIsWhile` | utility/sqcompiler.cpp:1133-1178 | A `for` without a third clause means the `while` loop. |
| `Laws.CatchFindsError` | utility/sqcompiler.cpp:1386-1416 | What is thrown or raised in a `try` is what the handler finds in its variable. |
| `Laws.SwitchIsIf` | utility/sqcompiler.cpp:1221-1274 | A switch with one case is an `if` on the equality, when the body does not break. |
| `ExprCorrect.ExprRuns` | utility/sqvm.cpp:866-1026 | Running the code of an expression leaves its value in its target or raises its error, and changes no register below the ones in use; a failing `%` promises nothing. |
| `StmtCorrect.StmtRuns` | utility/sqvm.cpp:866-1087 | Running the code of a statement ends as the statement means: behind it, at the target of a break or continue with the traps in between popped, returned, or raising; the trap depth is the nesting of `try`. A statement that needs more rounds of its loops keeps the machine going at least as long. |
| `FunctionCorrect.FunctionRuns` | utility/sqvm.cpp:866-1129 | For any code laid out as the function: unless a `%` fails on the way, the machine halts if and only if the body has an end, and never gets stuck; where it halts it answers what the body answers, with no trap left. |
| `EndToEnd.FunctionMeaning` | utility/sqvm.cpp:866-1129 | The same for code that is the code of the function. |
| `ByteFits.StmtWhole` | utility/sqfuncstate.cpp:241-258 | The code of a statement loses nothing in the bytes of its instructions if and only if the depths at which the statement needs its values, catch variables and traps are below 256. |
| `EndToEnd.CompileFunction` | utility/sqcompiler.cpp:1487-1543 | Compiling succeeds if and only if the body is accepted. What the compiler means to store is then the code of the body. What is stored is that if and only if the body does not start with the test of a `for` over a variable and its depths fit in bytes; then every call runs as the body means. In the first case that fails, the test is ignored. |
| `Miscompiled.CompileBlindTest` | utility/sqcompiler.cpp:1173-1173 | The compiler takes `for(; x;) return 1` as a whole body, and its code answers 1 for a null `x`, though the body means null. |
| `Miscompiled.CompileCatchFar` | utility/sqcompiler.cpp:1410-1411 | The compiler takes a function of 256 parameters with a `catch`, and in its code the error goes to register 0 and the handler returns what register 256 held. |
| `Miscompiled.RemainderStrays` | utility/sqvm.cpp:894-894 | For every `x % y` that is an error, a handler around it is not entered, and a stale register is returned. |
| `Peephole.OptimisedAgrees` | utility/sqfuncstate.cpp:449-580 | For any straight line of instructions the merged code changes the world the same way, and goes on, jumps or raises the same, as the code asked for, unless a remainder fails; registers differ only where a merge left one unwritten that nothing reads. A remainder fails in the one exactly when it does in the other. |
| `Peephole.MayMergeWhen` | utility/sqfuncstate.cpp:449-580 | What that takes for granted of a merge fails only for a jump on another register than the one compared, for a literal used twice in one instruction, and for several nulls at once. |
| `Peephole.RemainderMoved` | utility/sqfuncstate.cpp:521-533 | A remainder merged with the move of its result agrees with the two if and only if it does not fail or both targets held the same. |
| `Peephole.JumpOfOther` | utility/sqfuncstate.cpp:455-462 | A comparison merged with a jump on another register agrees exactly when that register happens to test like the comparison. |
| `Peephole.EqualityIs` | utility/sqvm.cpp:880-889 | Comparisons for equality and inequality give opposite answers, with a literal as with a register. |
| `Peephole.StoresAre` | utility/sqvm.cpp:867-879 | An assignment leaves its value in the target only if it is asked for. |
| `Peephole.OperandsAre` | utility/sqvm.cpp:890-895 | Which register is which operand, for lookups, arithmetic, comparisons and method calls. |
| `Peephole.FailuresRaise` | utility/sqvm.cpp:867-895 | An operator that fails raises its error with the registers as they were. |
| `Peephole.OthersKept` | utility/sqvm.cpp:866-1026 | An instruction changes no register but those it writes. |
| `Peephole.LosesLocal` | utility/sqfuncstate.cpp:449-580 | A merge leaves a named variable unwritten if and only if it merges a jump on it, or a move of it to another register. |
| `Peephole.DiedHow` | utility/sqfuncstate.cpp:449-580 | Over any straight line: a register whose value is lost was lost in a merge, and was not a named variable then unless a move or a jump was merged. |
| `Peephole.CopiedLocal` | utility/sqfuncstate.cpp:521-533 | A value loaded into a variable and copied on is loaded into the other register only; the variable has it if and only if it had it before. |
| `Peephole.LiteralsMerge` | utility/sqfuncstate.cpp:482-520 | A literal goes into the instruction that uses it, unless it was loaded into a named variable. |
| `Peephole.MovesMerge` | utility/sqfuncstate.cpp:521-578 | What the merges of moves, loads, nulls and line numbers give, for all registers. |
| `Peephole.StoresTidied` | utility/sqfuncstate.cpp:463-473 | A store whose value is already in its target does not copy it, and any other is added as it is. |
| `Peephole.JumpsMerge` | utility/sqfuncstate.cpp:455-462 | A jump on a comparison compares itself if the register compared is below 255, and nothing merges across a point that forbids it. |
| `Peephole.Optimizer.AddInstruction` | utility/sqfuncstate.cpp:449-580 | One step of that optimiser: the code becomes what the merge rules say, and nothing is merged across a point that forbids it. |
| `Generators.SQGenerator.Yield` | utility/sqobject.cpp:134-163 | Succeeds exactly when the generator runs; puts away the registers below the target, `this` weakly, and the traps relative to the base; leaves null in the frame and the caller's stack and traps as they were. |
| `Generators.SQGenerator.Resume` | utility/sqobject.cpp:165-206 | Succeeds exactly when it is suspended and the stack has room or may grow; puts the frame on top of the stack, the traps behind the others in order, and changes nothing below. A failing resume leaves the generator as it was. |
| `Generators.YieldAndResume` | utility/sqobject.cpp:134-206 | From yield on one machine state to resume on any other: the function sees the frame it had, at the new base; the stack is right exactly when the frame ends below position 65536. |
| `Generators.ResumeAndYield` | utility/sqobject.cpp:134-206 | The other way round, seen by the caller: once a resumed generator has yielded and its frame is left, frame, calls, traps and the stack below the top are as before. |
| `Generators.TrapMoves` | utility/sqobject.cpp:154-190 | In 16-bit arithmetic a trap moves by the distance of the bases, and a trap of the frame is one of the frame where it is put back. |
| `Generators.Finds` | utility/sqobject.cpp:142-197 | Register by register: the value it had below the target, null above, and null for a `this` that is gone. |
| `Collector.SQSharedState.RunMark` | utility/sqstate.cpp:226-265 | On any graph, cyclic or not, marking ends with the live chain holding exactly the objects reachable from the roots; both chains are sound doubly linked lists that share out all objects. |
| `Collector.SQSharedState.ResurrectUnreachable` | utility/sqstate.cpp:267-319 | Returns each unreachable object that is not hidden once, counts all the unreachable ones, and puts every object back on one chain, unmarked. |
| `Sweep.CollectGarbage` | utility/sqstate.cpp:321-350 | The reachable objects are the chain that is left, unmarked. The garbage is freed but for the part that refers to itself through references finalizing does not drop. The number returned is that of the garbage if and only if no garbage object loses its last reference before the walk comes to it; it is 0 exactly when there is none. |
| `Sweep.CycleIsMissed` | utility/sqstate.cpp:321-350 | Two garbage tables that hold only each other are both freed, and fewer than two are counted. |
| `RefCounts.DropExact` | utility/sqobject.h:108-125 | Dropping one reference leaves every count the number of references there are. |
| `RefTable.RefTable.AddRef` | utility/sqstate.cpp:424-430 | The object has one reference more, in 32 bits, and no other count changes, whatever doubling it took; every object has a reference afterwards unless that count went round. |
| `RefTable.RefTable.Release` | utility/sqstate.cpp:441-467 | The object has one reference less, in 32 bits; true exactly when that was the last, and the object is then gone. An object that is not there stays so. |
| `RefTable.ReleasesOne` | utility/sqstate.cpp:441-467 | Releasing takes a reference away if and only if there is one; a count of zero becomes 2^32 - 1. |
| `RefTable.BumpThenDrop` | utility/sqstate.cpp:424-467 | Releasing undoes adding if and only if the object was not there with a count of 0; so it does where the count goes round. |
| `RefTable.RefTable.GetRefCount` | utility/sqstate.cpp:432-439 | The number of references; asked for an object that is not there it adds it with none, so every object has a reference afterwards if and only if the one asked for was there. |
| `RefTable.RefTable.Resize` | utility/sqstate.cpp:469-490 | Every object keeps its count in a table of another size. |
| `RefTable.FreeListEmpty` | utility/sqstate.cpp:492-551 | The free list is empty exactly when all slots are used. |
| `StringTable.SQStringTable.Add` | utility/sqstate.cpp:580-605 | The object of a string: the one it has, or a new one; no other string's object changes, through every resize, and the count in use is exact. |
| `StringTable.SQStringTable.Remove` | utility/sqstate.cpp:625-647 | Takes exactly that string's object out. |
| `StringTable.SQStringTable.Resize` | utility/sqstate.cpp:607-623 | Relinking all objects into other buckets keeps every object and loses none. |
| `StringTable.OneObjectPerString` | utility/sqstate.cpp:580-605 | Two objects in the table are the same if and only if their contents are. |
| `ClosureStream.LoadsWhatWasSaved` | utility/sqobject.cpp:408-551 | A stream loads as a function, leaving some bytes, if and only if it is what saving that function writes and those bytes; counts are read and multiplied in 32 bits as the code does. |
| `ClosureStream.LoadsAsMade` | utility/sqobject.cpp:459-551 | It is the saved form of a function whose counts are its lengths if and only if it loads, no count is negative and no block is 2^31 bytes or more. |
| `ClosureStream.LoadsHollow` | utility/sqfuncproto.h:61-100 | A stream that says -1 parameters, or 2^29 lines, and has none loads as a function that is not of that kind. |
| `ClosureStream.CutShortIsRefused` | utility/sqobject.cpp:288-311 | No proper prefix of a saved closure loads, not even as another function. |
| `ClosureStream.LoadsLonger` | utility/sqobject.cpp:382-394 | Bytes behind a closure do not matter and are left. |
| `ClosureStream.StreamBegins` | utility/sqobject.cpp:371-381 | A stream is a tag, the sizes of a character, an integer and a float, the function, and another tag, with these numbers. |
| `ClosureStream.TagBytes` | utility/sqobject.cpp:288-311 | Those numbers as bytes, the least significant first. |
| `ClosureStream.ObjectBytes` | utility/sqobject.cpp:313-334 | The type tags of values as bytes, and what follows each. |
| `ClosureStream.CountsOrder` | utility/sqobject.cpp:418-425 | The order of the eight counts. |
| `ClosureIO.Load` | utility/sqobject.cpp:382-551 | Reading from the stream gives what the format says of its bytes, and fails where the format refuses. |
| `ClosureIO.Save` | utility/sqobject.cpp:371-457 | Succeeds unless the stream refuses or a value cannot be saved, and then has written the saved form. |
| `HeapSort.Sort` | utility/sqbaselib.cpp:769-784 | Under any comparison function, even a failing or inconsistent one, it ends and the array is a permutation; it succeeds only if no call failed, and fails only if the last one did or made an element smaller than itself. Under a total preorder it succeeds and the array is sorted. |
| `HeapSort.SiftDown` | utility/sqbaselib.cpp:729-767 | Restores the heap, where node 0 has one child, and touches nothing behind it. |
| `Literals.EscapeRoundTrip` | utility/sqstdstring.cpp:265-333 | The escape of any bytes, between quotes, is read as those bytes: zeros, quotes, backslashes and hexadecimal escapes before digits too. |
| `Literals.VerbatimRoundTrip` | utility/sqlexer.cpp:352-442 | A verbatim string is read back if and only if it has no zero byte. |
| `Literals.UTF8Back` | utility/sqlexer.cpp:310-336 | The bytes written for a code point below 0x110000 decode to it, and only the first is not a continuation byte. |
| `Literals.EscapeString` | utility/sqstdstring.cpp:265-333 | The loop that escapes writes exactly the escape of its input. |
| `Literals.EscapeForms` | utility/sqstdstring.cpp:265-333 | How each byte is escaped: printable ones as they are, quotes and backslashes behind a backslash, zero as one digit, the rest as two hexadecimal digits. |
| `Literals.EscapePlus` | utility/sqstdstring.cpp:265-333 | Escaping is done byte by byte. |
| `Literals.LettersRead` | utility/sqlexer.cpp:400-413 | What each one-letter escape is read as, and that no other letter is one. |
| `Literals.SlashAtEnd` | utility/sqlexer.cpp:412-413 | A backslash at the end of the input is an error. |
| `Literals.HexRead` | utility/sqlexer.cpp:374-400 | The three hexadecimal escapes take the digits there are, up to 2, 4 and 8, and are read as that byte or code point; without a digit they are an error. |
| `Literals.HexDigitsAre` | utility/sqlexer.cpp:338-350 | Which characters are hexadecimal digits, and what they count. |
| `Literals.PlainRead` | utility/sqlexer.cpp:358-369 | A character without a backslash: the delimiter ends the literal, a line end and the end of the input are errors, any other stands for itself. |
| `Literals.TokenRead` | utility/sqlexer.cpp:422-442 | The token of a literal: between double quotes the string, between single quotes the number of its one character, or the error for none or several. |
| `Literals.NothingRead` | utility/sqlexer.cpp:352-356 | An opening delimiter at the end of the input begins no string. |
| `Literals.UTF8Short` | utility/sqlexer.cpp:310-336 | A code point takes one to four bytes, as few as it can, and none beyond the last. |
| `Literals.SQLexer.ReadString` | utility/sqlexer.cpp:352-442 | The lexer's loop reads a literal as the grammar says: the token and the characters left, or the error. |
| `Literals.SQLexer.ProcessStringHexEscape` | utility/sqlexer.cpp:338-350 | Takes as many hexadecimal digits as there are, up to the limit, and their value. |
| `Rex.FindNode` | utility/sqstdrex.cpp:386-551 | Matching always ends; an end it finds lies in the text, and the slice is one the node means. |
| `Rex.FindsNode` | utility/sqstdrex.cpp:391-440 | Where the text is clear (where one more repetition is possible, neither what follows nor the node looked ahead to matches; where a first alternative matches, the second does not) the matcher finds the match that the rest of the expression needs. |
| `Rex.Match` | utility/sqstdrex.cpp:609-619 | True only for texts the expression means; if and only if, where the text is clear up to its end and has at most 65536 characters, or the expression has no repetition and no alternative. |
| `Rex.RepetitionIsClear` | utility/sqstdrex.cpp:391-440 | `a*b` is clear on every text, for any two classes without a common character. |
| `Rex.AlternativesAreClear` | utility/sqstdrex.cpp:441-460 | So are two clear alternatives that begin with characters of different classes, on every text. |
| `Rex.GreedyLongest` | utility/sqstdrex.cpp:404-440 | A repetition of single characters with nothing behind it takes the longest run, up to 65536. |
| `Rex.LookaheadMisses` | utility/sqstdrex.cpp:411-431 | `a*ab` means `aaab`, and the matcher does not match it. |
| `Rex.Search` | utility/sqstdrex.cpp:621-648 | The first position at which the matcher finds something, and where that ends; no match begins earlier that is clear to the matcher, in a text of at most 65536 characters. |
| `Rex.MatchNode` | utility/sqstdrex.cpp:386-551 | The recursive matcher with its loops computes what FindNode says. |
| `Rex.ClassRead` | utility/sqstdrex.cpp:369-384 | What a class matches: a character, a range with both its ends, or a kind, and the opposite when negated. |
| `Rex.ClassesJoin` | utility/sqstdrex.cpp:369-384 | A class with several parts matches what any of them matches. |
| `Rex.RepetitionLooks` | utility/sqstdrex.cpp:404-431 | Which node a repetition looks ahead to in a chain and in a group, and what that node is told follows it; it stops exactly where that node matches. |
| `Rex.RepetitionGoesOn` | utility/sqstdrex.cpp:412-416 | An optional repetition behind it is not looked ahead to. |
| `Rex.FirstAlternative` | utility/sqstdrex.cpp:441-460 | Of two alternatives the first that matches is taken. |
| `IniText.ValueRoundTrip` | utility/minIni.cpp:147-225 | A value is read back as it was written if and only if it is written in quotes or has no blank at either end. |
| `IniText.CleanString` | utility/minIni.cpp:193-224 | The value part of a line without comment and blanks, and whether it is in quotes. |
| `IniText.IniStrncpy` | utility/minIni.cpp:147-191 | What fits of a value, with quotes and escapes added or removed. |
| `IniText.CheckEnquote` | utility/minIni.cpp:529-540 | Whether a value is written in quotes. |
| `IniText.CommentIsCut` | utility/minIni.cpp:201-215 | A value that is not in quotes ends at the first semicolon or hash and loses the blanks around it. |
| `IniText.QuotedCommentIsCut` | utility/minIni.cpp:201-222 | A comment behind a value in quotes is cut off, and the value is read as it was written, if and only if the value does not end in a backslash. |
| `IniText.WrittenPlain` | utility/minIni.cpp:529-540 | A value is written without quotes if and only if it has no quote, semicolon or hash and does not end with a space. |
| `IniText.FittedIs` | utility/minIni.cpp:147-191 | A copy is cut to one character less than the buffer has, and in quotes to as much of the source as leaves room for both. |
| `IniText.BlanksAreTrimmed` | utility/minIni.cpp:119-145 | Blanks are the characters from 1 to 32; just these are taken off both ends. |
| `IniLookup.FoundAgain` | utility/minIni.cpp:557-571 | The line written for a key is an entry for that key, and no heading, if and only if the key is not empty, has no `=`, does not begin with `[`, `;`, `#` or a blank, and does not end with a blank. |
| `IniHand.EqualRead` | utility/minIni.cpp:263-298 | A line with an equal sign, blanks anywhere around the name, is an entry for that name in any case, and its value is read from what follows the sign. |
| `IniHand.ColonRead` | utility/minIni.cpp:263-298 | The same with a colon, in a line without an equal sign. |
| `IniHand.RemarkRead` | utility/minIni.cpp:279-280 | A line that begins with a semicolon or a hash is no entry and no heading. |
| `IniHand.SignRead` | utility/minIni.cpp:274-277 | A line without an equal sign and without a colon is no entry. |
| `IniHand.HeadingRead` | utility/minIni.cpp:238-250 | A line in brackets is a heading for the name up to its last bracket, in any case. |
| `IniHand.SameLetters` | utility/minIni.cpp:103-117 | Names are the same if they differ at most in the case of letters from A to Z. |
| `IniHand.LookupFinds` | utility/minIni.cpp:226-299 | The entry looked up is the first for the key behind the first heading of the section, if it comes before the next heading; otherwise there is none. |
| `IniHand.NextFinds` | utility/minIni.cpp:749-814 | What a deleted entry lets be seen: the next for its key before the next heading. |
| `IniHand.LookupMisses` | utility/minIni.cpp:226-262 | In a section without a heading nothing is found. |
| `IniHand.CommentedEntry` | utility/minIni.cpp:226-299 | An entry with blanks, any case and a comment behind its value is looked up as the value without blanks and comment. |
| `IniFile.GetKeyString` | utility/minIni.cpp:226-299 | Finds the first entry for the key behind the first heading of the section, and no other. |
| `IniFile.IniGets` | utility/minIni.cpp:311-325 | The value looked up, or the default, cut to the buffer. |
| `IniFile.IniPuts` | utility/minIni.cpp:629-814 | Afterwards the key is looked up as the value, if it is one that is read back, or as the next entry for a deleted key; every other section and key is looked up as before. For the rewrite in place, a replaced line, an added key, an added section and a deleted key. |
| `IniFile.InPlace` | utility/minIni.cpp:670-687 | The same for a line of equal length overwritten in the file. |
| `IniFile.Rewrite` | utility/minIni.cpp:695-814 | The same for the copy through the bounded buffer, which loses and doubles no line. |
| `IniFile.EraseSection` | utility/minIni.cpp:739-782 | Which lines an erased section loses, and what every section and key is looked up as afterwards. |
| `IniFile.EraseTop` | utility/minIni.cpp:739-782 | In a file of one section with one entry, erasing what has no section erases that entry. |
| `IniStore.EditKeepsOthers` | utility/minIni.cpp:749-814 | Replacing entries of a key inside its section changes no other lookup. |
| `IniLines.LinesOfFlat` | utility/minIni.cpp:573-609 | Lines written one after the other are read as those lines. |
| `RequestPool.RunsAreSafe` | acorns.cpp:458-557 | In every interleaving without the fault below: a program's count is its table entry, its queued requests and those workers hold, and at most 31; a program exists exactly as long as that is not 0; no two workers execute one program; an executing program has its machine. |
| `RequestPool.RequestsAreKept` | acorns.cpp:490-557 | On every run: each request made for a program was executed, once, or is being executed, or was given up because the program had been closed, or waits. |
| `RequestPool.HeldUntilOver` | acorns.cpp:521-557 | A worker loses its request only by finishing it, by failing on it, or because its program has no machine. |
| `RequestPool.EnterExecutes` | acorns.cpp:534-550 | A worker that gets the lock executes its program if and only if that is idle and has its machine, whether it has waited or not. |
| `RequestPool.EnterWaits` | acorns.cpp:534-546 | A worker whose program is busy waits, and nothing else changes. |
| `RequestPool.LoadRuns` | acorns.cpp:1112-1230 | Loading puts a new program with its machine into the slot and asks for its first run, with every other program as it was. |
| `RequestPool.TakenInOrder` | acorns.cpp:503-530 | On every run requests are taken in the order in which they were queued, and none is lost in between. |
| `RequestPool.HeldCanRun` | acorns.cpp:534-550 | From any state a request for a program that has its machine can be executed: at once, or after the one that executes it is over. |
| `RequestPool.WorkGoesOn` | acorns.cpp:521-557 | While the lock is free and a request is not over, some worker can go on. |
| `RequestPool.CloseCloses` | acorns.cpp:924-974 | Closing takes an idle program out of the table and its machine from it, and waits, with nothing else changed, for a busy one. |
| `RequestPool.FailCloses` | acorns.cpp:924-974 | A first run that fails closes its own program. |
| `RequestPool.VmEndsIdle` | acorns.cpp:924-974 | A machine is released only when its program is not busy, or by the worker that runs it and failed. |
| `RequestPool.RetryCloses` | acorns.cpp:924-974 | A close that waited ends a program's machine if and only if its slot holds that program and the program is not busy. |
| `RequestPool.ClosesAnother` | acorns.cpp:937-971 | Two closes wait for one program, the first ends it, another is loaded into the slot: the second is about to end that one. |
| `RequestPool.FaultsWhen` | acorns.cpp:534-550 | A worker executes a program without a machine exactly when it did not have to wait and the program was closed. |
| `RequestPool.FaultHappens` | acorns.cpp:534-550 | Load, close, then take the request: that fault is reached. |
| `RequestPool.BlockedWhen` | acorns.cpp:489-509 | A sender that holds the lock waits for ever exactly when the queue is full and every worker holds a request. |
| `RequestPool.BlockedHappens` | acorns.cpp:489-509 | Such a state is reached. |

## Findings

Places where the code does not do what it is for. Each input is proved to show it, and the last but one column says
when the promise holds.

| locator | as written | input | intended | confidence |
|---|---|---|---|---|
| utility/sqvm.cpp:894 | a failing `%` raises nothing and the machine goes on with its target as it was | `try return x % y; catch(e) return null` with operands such as 1 and 0 returns a stale register: `Miscompiled.RemainderStrays` | an error is raised, as for `/`; runs are right when no `%` evaluated on them fails (`EndToEnd.FunctionMeaning`) | proved |
| utility/sqfuncstate.cpp:528 | a remainder is merged with the move of its result | a failing remainder whose two targets held different values: `Peephole.RemainderMoved` | merging changes nothing: if and only if the remainder does not fail or both held the same | proved |
| utility/sqfuncstate.cpp:526 | a move is merged into the load of what it copies, though that may be a variable | `local a = 1, b = a`: the value is loaded into `b` only, and `a` keeps what its register held: `Peephole.CopiedLocal` | variables keep their values: if and only if what is copied is not a variable (`Peephole.LosesLocal`) | proved |
| utility/sqcompiler.cpp:1173 | the jump of a `for` test is filled in only if it is not at address 0 | `function(x) { for(; x;) return 1; }` called with null answers 1: `Miscompiled.CompileBlindTest` | a false test skips the loop: if and only if the body does not start with such a test (`EndToEnd.CompileFunction`) | proved |
| utility/sqcompiler.cpp:1411 | the register of a catch variable is stored in a byte, and no limit is checked | 256 parameters and `try throw x1; catch(e) return e`: `Miscompiled.CompileCatchFar` | the handler finds the error in its variable: if and only if every depth the body needs fits in a byte (`EndToEnd.CompileFunction`) | proved |
| utility/sqstate.cpp:333 | an object is finalized before the next one on the chain is read | two garbage tables that hold only each other: `Sweep.CycleIsMissed` | the number of garbage objects is returned: if and only if none loses its last reference before the walk comes to it (`Sweep.CollectGarbage`) | proved |
| utility/sqstate.cpp:436 | asking for a reference count adds the object to the table | an object the host holds no reference to: `RefTable.RefTable.GetRefCount` | only objects with references are in the table: if and only if the one asked for is there | proved |
| utility/sqstate.cpp:447 | a count is decremented without looking whether it is zero | an object that is in the table with no reference, as asking for its count leaves it: `RefTable.ReleasesOne` | releasing takes one reference away: if and only if there is one | proved |
| utility/sqobject.cpp:483 | counts are read without a check and multiplied in 32 bits | a stream that says -1 parameters, or 2^29 lines, and has none: `ClosureStream.LoadsHollow` | only saved functions load: if and only if no count is negative and no block reaches 2^31 bytes (`ClosureStream.LoadsAsMade`) | proved |
| utility/sqvm.h:154 | stack positions are 16 bits wide | a generator resumed where its frame ends at 65536 or above: `Generators.YieldAndResume` | the top is behind the frame: if and only if that is below 65536 | proved |
| utility/sqstdrex.cpp:424 | a repetition stops where the node behind it matches | `a*ab` on `aaab`: `Rex.LookaheadMisses` | texts the expression means are matched: holds where the text is clear (`Rex.FindsNode`) | proved |
| utility/minIni.cpp:539 | only some values are written in quotes | a value that begins with a blank, or ends with a tab, and has no quote, semicolon or hash: `IniText.ValueRoundTrip` | what was put is read back: if and only if it is written in quotes or has no blank at either end | proved |
| utility/minIni.cpp:209 | a backslash before the closing quote is taken for an escape, and backslashes are not escaped | a value in quotes that ends in a backslash, and a comment behind it: `IniText.QuotedCommentIsCut` | the comment is cut off and the value read: if and only if the value does not end in a backslash | proved |
| utility/minIni.cpp:745 | without a section the first line is skipped as if it were a heading | erasing the entries above all sections of a file that starts with a section: `IniFile.EraseTop` | sections stay: all but one whose heading is the first line (`IniFile.EraseSection`) | proved |
| utility/minIni.cpp:561 | any key is written in front of the `=` as it is | a key that is empty, has a `=`, begins with `[`, `;`, `#` or a blank, or ends with a blank: `IniLookup.FoundAgain` | what was put is found under its key: if and only if the key is none of these | proved |
| acorns.cpp:536 | the machine of a program is looked at only after waiting for it | load, close, then take the request: `RequestPool.FaultHappens` | requests of a closed program are dropped: if and only if the worker had to wait (`RequestPool.FaultsWhen`) | proved |
| acorns.cpp:937 | a close that waits looks at its slot again, not at the program it was called for | two closes of a busy program, and a load between them: `RequestPool.ClosesAnother` | the program named is closed and no other: if and only if the slot still holds it (`RequestPool.RetryCloses`) | proved |
| acorns.cpp:503 | a request is sent with the lock held | a full queue and all workers holding a request: `RequestPool.BlockedHappens` | requests get sent: the sender waits for ever if and only if the queue is full and no worker is free (`RequestPool.BlockedWhen`) | proved |

In each of them the model follows the code.

## Left out

- EndToEnd.CompileFunction: is about the code before instructions are merged as they are added; merging is modelled apart, on straight lines, in Peephole.
- Compiler.Expression: is about the code before merging, and about the operators and constants of the modelled subset.
- Compiler.Statement: is about the statements of the modelled subset.
- Compiler.ForStatement: a `for` has a test; one without a test emits no jump and is not modelled.
- ExprCorrect.ExprRuns: promises nothing once a `%` has failed, because what follows depends on what registers held before.
- StmtCorrect.StmtRuns: promises nothing once a `%` has failed, for the same reason.
- FunctionCorrect.FunctionRuns: promises an end, and not getting stuck, only where no `%` fails.
- EndToEnd.FunctionMeaning: has the same limit on a failing `%`.
- Peephole.OptimisedAgrees: takes for granted that a jump tests what was compared and that an unwritten register is not read; the two merges of a return are not modelled, as they concern calls and the closing of captured variables, and its instructions are not those the compiler model emits, so the compiled code is the code before merging.
- Peephole.Optimizer.AddInstruction: has the merge rules without the two merges of a return.
- Rex.FindsNode: is one way; expressions that are not clear may be matched all the same.
- Rex.Match: is complete only where the text is clear or the expression plain.
- Rex.Search: misses no clear match; a match that is not clear may begin earlier.
- Table.SQTable.Remove: takes a key that is not null, as its callers see to.
- Outers.SQVM.EnterFrame: stack positions are not limited to 16 bits there.
- Collector.SQSharedState.ResurrectUnreachable: the array that is returned is not itself put on the chain.
- IniFile.IniGets: lines are shorter than the buffer, so each is read in one piece.
- IniFile.IniPuts: lines are shorter than the buffer, section, key and value fit on one, and the key is one that is found again.
- IniFile.InPlace: has the same limits.
- IniFile.Rewrite: has the same limits.
- IniFile.EraseSection: lines are shorter than the buffer.
- Parsing: the compiler model starts from programs as trees; of the lexer only string literals are modelled.
- Of the language: calls, tables, classes, closures, `foreach`, `yield` and assignments inside expressions are not in the compiled subset; captured variables and generators are modelled apart.
- Jump offsets beyond 32 bits, and an `if` without braces around a declaration.
- Generators with open captured variables, and the debug hook.
- Weak references in tables, metamethods, floats, the array and string libraries other than sorting and escaping.
- The regular expression compiler, captures and word boundaries: the matcher works on node trees.
- Closure streams: the memory a function is laid out in; a read that is asked for a negative number of bytes fails.
- The collector: addresses are numbers, and a finalizer drops references without running scripts.
- The thread pool: synchronous loads, the root program, callbacks, time; workers take single steps under the lock.
- INI files: failing input and output, zero bytes, the browse and list functions, numbers.
- Devices, networking and the bindings.
