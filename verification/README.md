# The core of LuaRus in Dafny

A model of the parts of the Lua 5.3.4 core, as LuaRus has it, in which something
is changed in place under an invariant that no single function shows: tables,
the garbage collector, the code generator for expressions, sorting, ephemeron
tables, precompiled chunks, interned strings, metamethods, the order of numbers and
UTF-8. Classes hold the fields that the C code updates, their methods have its
branches, loops and constants, and are proved against functions and predicates on
values; lemmas prove what those promise. `dafny verify dfyconfig.toml` checks
everything.

**Tables** (`LuaValues`, `HashNodes`, `ArraySizes`, `TableContents`,
`HybridTable`, `TableWalk`, `TableLength`). The array part and the chained
scatter table with relative links and a descending `lastfree`. The invariant:
links are acyclic, every key is reachable from its main position, a taken main
position holds a key that belongs there, nodes from `lastfree` on have keys. Chains
may coalesce. The table is a finite map; rehashing chooses the optimal size and
cannot be reached again from the insertions that it makes; a traversal survives the
clearing of entries; the length is a boundary.

**Expressions** (`CodeMachine`, `JumpLists`, `ExprMeaning`, `CodeSteps`,
`ExprSteps`, `GeneratorSteps`, `ExprRules`, `CodeGenerator`, `Precedence`). One pass,
with delayed expressions and jump lists threaded through the jumps that are to be
patched. A machine runs code with pending jumps; each delayed expression has a
meaning on all runs, which every function of the generator keeps. The result: for
every list of expressions over locals, constants, `not`, `and`, `or`, parentheses and
comparisons, the finished code computes the values that the language defines, in
whatever registers it is started; `ExprRules` says rule by rule what it leaves in
them. Comparisons are any total function of the values. `Precedence` proves that
`subexpr` groups any sequence of operands and operators into the one tree that its
table of priorities prescribes, that this is the one in which the tighter operator
takes the operand, and joins the two parts: from tokens to code.

**Collector** (`GcHeap`, `GcState`, `GcMarking`, `GcSteps`, `GcAtomic`,
`GcSweeping`, `GcGarbage`, `GcFields`, `Collector`, `StoreSteps`, `Mutator`,
`Program`). The tri-colour state machine with two whites, and a program that
allocates, stores through the barriers, writes stacks without any, reads every field,
opens, shares and closes upvalues, caches closures, fixes strings and switches
threads. Every interleaving keeps the invariant, each action of the program does what
it is meant to do, no step takes away what the program can get at, field by field,
and a full collection leaves no garbage. What a prototype remembers is always a
closure of it. Threads are never black and open upvalues of black closures may change
without notice, so the invariant excuses touched upvalues of threads that are still
to be looked at. `Ephemerons` proves on its own that the convergence of ephemeron
tables ends, marks exactly what is needed, and lists every table that is to be
cleared.

**The rest.** `SortOrder` and `QuickSort`: `table.sort` under any order function.
`DumpFormat`, `Dump`, `ByteStream`, `Undump`: dumping and loading through a
reader that delivers pieces of any size. `StringTable`: interning, with the table
resized in place. `Metamethods`: the cache of absent metamethods with two names for
each event, against definitions without a cache. `NumberOrder` and
`IntegerDivision`: exact order of integers and floats, floor division. `Utf8`:
coding and decoding.

The round trip of chunks has a condition: a nested function without a source, in one
with a source, would come back with the source of its parent
(`DumpFormat.SourceAppears`). Such a tree is hypothetical: the parser gives every
function a source (`src/lparser.c:546`, `src/lparser.c:1637`), and the loader never
makes one (`DumpFormat.LoadedSourcesOk`), so whatever has been loaded is reproduced
exactly. `DumpFormat.ReloadedIsSame` says for all trees when they are. The invariant
that the comment in `src/ltable.c:13-24` states for colliding keys is kept, although
chains may coalesce when a nil-valued node is reused with its links.

Parameters stand for what the C code gets from elsewhere: the hash of a key or a
string, the addresses of new objects, the answers of order functions and writers,
the values of `l_randomizePivot`, the comparison of values in the machine.

## Model

| member | source | states |
|---|---|---|
| LuaValues.FloatToInteger | src/ltable.c:442-455 | A float is converted exactly when it is integral and in the range of a 64-bit integer, and then to the same number |
| LuaValues.Normal | src/ltable.c:442-455 | No stored key is a float with an integral value |
| LuaValues.RawEqualIsSameKey | src/lvm.c:407-450 | Raw equality of two keys holds exactly when their stored forms are the same and they are no NaN |
| HybridTable.Table.Put | src/ltable.c:591-596 | luaH_set and the store of its caller: the table changes as a finite map does, nil removes the key, the errors are exactly a nil and a NaN key, and in case of an error nothing changes |
| HybridTable.Table.ReadKey | src/ltable.c:570-584 | Reading any key gives what that map holds, nil if nothing |
| HybridTable.Table.Find | src/ltable.c:570-584 | luaH_get finds the place of the stored form of any key, or that there is none; the three specialised searches agree |
| HybridTable.Table.GetInt | src/ltable.c:497-514 | Array part by index, hash part by walking the chain from the main position: the place of the integer key, or none |
| HybridTable.Table.GetShortStr | src/ltable.c:520-534 | The place of a short string key, or that it is in no node |
| HybridTable.Table.GetGeneric | src/ltable.c:541-553 | The place of any other key, with raw equality |
| HybridTable.Table.GetFreePos | src/ltable.c:422-431 | A node without a key below the old lastfree, everything from the new one on has a key; none only if the table has no room |
| HybridTable.Table.InsertKey | src/ltable.c:442-491 | All cases of luaH_newkey: the key has a place afterwards and no lookup changes; at level 0 (a table with room) no rehash is reached, so the recursion of newkey, rehash and set stops after one rehash |
| HybridTable.Table.InsertAtMain | src/ltable.c:455-491 | Free or nil-valued main position: the key takes it, no other lookup changes |
| HybridTable.Table.InsertColliding | src/ltable.c:455-491 | Taken main position and a free node: the key has a place, no lookup changes, the invariant holds |
| HybridTable.Table.Collide | src/ltable.c:465-487 | The node of the new key and the new chains in both cases of a collision |
| HybridTable.Table.EvictGuest | src/ltable.c:466-477 | A node out of its main position is moved to the free node and its chain led there |
| HybridTable.Table.MoveOut | src/ltable.c:470-476 | Exactly these nodes change: predecessor, main position and free node |
| HybridTable.Table.ChainTo | src/ltable.c:478-485 | Exactly these nodes change: main position and free node |
| HybridTable.Table.Previous | src/ltable.c:468-469 | The walk along the chain finds the node before the one to be moved, and ends |
| HybridTable.Table.GrowAndInsert | src/ltable.c:458-463 | No free node: rehash, then the key is set in a table that has room for it |
| HybridTable.Table.FindOrInsert | src/ltable.c:591-596 | luaH_set with the level that bounds the recursion |
| HybridTable.Table.SetSlot | src/ltable.c:591-596 | A place for every key but nil and NaN, with no lookup changed |
| HybridTable.Table.NewKey | src/ltable.c:442-455 | The errors for nil and NaN, conversion of integral floats |
| HybridTable.Table.SetInt | src/ltable.c:599-610 | luaH_setint: exactly that key changes; at level 0 (room for the key) without a rehash |
| HybridTable.Table.Resize | src/ltable.c:333-365 | For any two sizes whose hash part can take the keys left to it, no lookup changes, the array part has its size, and no reinsertion rehashes |
| HybridTable.Table.RestoreSlice | src/ltable.c:344-353 | Reinsertion of the vanishing slice of the array part: afterwards the table stands for what the whole old array held |
| HybridTable.Table.RestoreNodes | src/ltable.c:354-362 | Reinsertion of the old nodes, last first: afterwards the table stands for the old array and nodes |
| HybridTable.Table.SetNodeVector | src/ltable.c:308-330 | An empty hash part of a power-of-two size, or the dummy node for size 0 |
| HybridTable.Table.Rehash | src/ltable.c:376-393 | The array part gets the largest power of two of which more than half is used, counting the new key; no lookup changes; the new key fits without another rehash |
| HybridTable.Table.CountKeys | src/ltable.c:376-390 | The counts are those of the live keys and the new one |
| HybridTable.Table.CountPresent | src/ltable.c:382-385 | Both parts are counted exactly |
| HybridTable.Table.NumUseArray | src/ltable.c:257-280 | Slices of the array part are counted exactly |
| HybridTable.Table.NumUseHash | src/ltable.c:283-296 | Live nodes, and the integer keys among them, are counted exactly |
| HybridTable.Table.CountInt | src/ltable.c:241-249 | One more integer key is counted in its slice |
| HybridTable.Table.ResizeArray | src/ltable.c:368-371 | Growing the array part changes no lookup |
| HybridTable.Table.constructor | src/ltable.c:402-411 | A new table is the empty map |
| HybridTable.Table.RoomFor | src/ltable.c:344-362 | While entries are put back, a live key that is not back yet finds a free node |
| ArraySizes.ComputeSizes | src/ltable.c:219-238 | The optimal size by definition: the largest power of two n with more than n/2 of 1..n among the keys, and how many keys lie in it |
| ArraySizes.CeilLog2 | src/lobject.c:65-80 | The table-driven loop gives the least exponent r with x at most 2^r |
| ArraySizes.BestAll | src/ltable.c:219-238 | Sizes at or above the one at which the loop stops cannot be more than half full |
| HashNodes.FreeNodeExists | src/ltable.c:422-431 | Fewer keys than nodes leave a node without a key |
| HashNodes.TakeMainKeeps | src/ltable.c:487-490 | Reusing a nil-valued main position keeps the whole node invariant, even where chains coalesce |
| HashNodes.MoveGuestKeeps | src/ltable.c:466-477 | Moving a displaced node keeps the links acyclic and every key reachable from its main position |
| HashNodes.ChainAfterKeeps | src/ltable.c:478-485 | Chaining a new node after the main position keeps them, too |
| HashNodes.MoveGuestContents | src/ltable.c:466-477 | Moving a node changes no lookup but that of the new key |
| HashNodes.StoreKeeps | src/ltable.c:591-596 | Storing a value in a node breaks nothing of the invariant |
| TableContents.FewKeysLeaveRoom | src/ltable.c:422-431 | If lastfree has passed only taken nodes and fewer keys than nodes are there, one below it is free |
| TableContents.LiveIsLookup | src/ltable.c:570-584 | The keys with a value are exactly those in the two parts |
| TableContents.MapUpdated | src/ltable.c:591-596 | Lookups that agree everywhere but at one key are maps that differ only there |
| TableContents.SizesFit | src/ltable.c:376-393 | With the computed array size the rest of the keys fit the new hash part |
| TableWalk.Walk | src/ltable.c:186-203 | Repeated next from nil, with any entries set to nil on the way: no entry comes up twice, what comes up was there and has not been cleared by then, everything that is left in the end has come up, exactly what was to be cleared is gone, and the walk ends |
| TableWalk.Next | src/ltable.c:186-203 | The first entry with a value behind the place of the given key |
| TableWalk.FindIndex | src/ltable.c:159-183 | The place of a key in the order of the traversal, found even when its value has become nil; the error exactly for keys that have no place |
| TableWalk.FirstValue | src/ltable.c:188-203 | The first cell with a value from a place on |
| TableWalk.SamePlace | src/ltable.c:159-203 | Clearing values moves no key, so a traversal resumes where it stopped |
| TableLength.GetN | src/ltable.c:641-657 | The result is a boundary: t[n] is not nil or n is 0, and t[n+1] is nil |
| TableLength.UnboundSearch | src/ltable.c:613-634 | Doubling and halving find a boundary, linear search takes over when the index gets too large, and all end |
| TableLength.BinarySearch | src/ltable.c:627-633 | Between a present and an absent index there is a boundary |
| TableLength.LinearSearch | src/ltable.c:619-624 | The search for tables built with bad purposes ends at a boundary |
| CodeGenerator.FuncState.CompileWhole | src/lparser.c:804-814 | A whole function that computes a list of expressions: its finished code is in order and, run from the first instruction with any registers, falls off its end with the values of the expressions in the registers behind the locals, all locals unchanged; ExprRules says what these values are |
| CodeGenerator.FuncState.CompileList | src/lparser.c:804-814 | The same behind any code that is already there |
| CodeGenerator.FuncState.CompileToNextReg | src/lcode.c:703-708 | One expression: whatever ran before, the code reaches its end with the value of the expression in the next register and everything below unchanged |
| CodeGenerator.FuncState.Compile | src/lcode.c:1066-1171 | For every tree of operators, with the calls of luaK_prefix, luaK_infix and luaK_posfix in its order, the delayed expression means its value: on every run the main value, pending true exits and pending false exits are as the language defines |
| CodeGenerator.FuncState.CompileAnd | src/lcode.c:1086-1115 | a and b: the second operand is run exactly if the first is true; the lists are joined |
| CodeGenerator.FuncState.CompileOr | src/lcode.c:1086-1115 | a or b, likewise |
| CodeGenerator.FuncState.CompileCompare | src/lcode.c:1124-1171 | A comparison of two compiled operands |
| CodeGenerator.FuncState.CompileOperand | src/lcode.c:1086-1115 | The first operand of a comparison is in a register or a constant that survives the code of the second |
| CodeGenerator.FuncState.JoinOperands | src/lcode.c:1124-1141 | luaK_posfix for and/or: union of the lists, value of the second operand |
| CodeGenerator.FuncState.Simple | src/lparser.c:931-961 | Constants and locals mean their values |
| CodeGenerator.FuncState.Concat | src/lcode.c:116-127 | Exactly the elements of both lists, in order; only links of the first list change |
| CodeGenerator.FuncState.PatchTestReg | src/lcode.c:195-207 | A TESTSET gets its register or becomes a TEST, other tests stay; whether it produces a value |
| CodeGenerator.FuncState.RemoveValues | src/lcode.c:213-216 | Every test of the list produces no value any more; nothing else changes |
| CodeGenerator.FuncState.PatchListAux | src/lcode.c:224-234 | Every test of the list that produces a value jumps to vtarget and puts it in reg, every other jump to dtarget; no instruction outside the list and its tests changes |
| CodeGenerator.FuncState.NeedValue | src/lcode.c:659-665 | True exactly if some jump of the list produces no value |
| CodeGenerator.FuncState.DischargeJpc | src/lcode.c:242-245 | Pending jumps to here lead to here, and to nothing else |
| CodeGenerator.FuncState.Code | src/lcode.c:293-305 | One instruction behind the code, pending jumps lead to it |
| CodeGenerator.FuncState.Jump | src/lcode.c:136-143 | The new jump takes over the pending jumps to here as one list |
| CodeGenerator.FuncState.PatchToHere | src/lcode.c:252-255 | The jumps of a list lead to the end of the code |
| CodeGenerator.FuncState.DischargeVars | src/lcode.c:556-588 | A local becomes the register that it is; the value is the same |
| CodeGenerator.FuncState.EmitNil | src/lcode.c:64-83 | LOADNIL with the peephole: one before is extended exactly if its range touches the register and no jump leads between the two, and merging never changes what any run computes |
| CodeGenerator.FuncState.MergeNil | src/lcode.c:68-80 | The merged range is set by the union of both |
| CodeGenerator.FuncState.AddK | src/lcode.c:428-452 | The index of an equal constant, earlier ones stay; what the scanner table knows is reused only if it is the same value, and if it knows them all no constant is ever there twice |
| CodeGenerator.FuncState.EmitConstant | src/lcode.c:346-354 | LOADK, or LOADKX with its extra argument exactly if the index does not fit |
| CodeGenerator.FuncState.Relocate | src/lcode.c:616-622 | The instruction of a relocatable expression gets its register |
| CodeGenerator.FuncState.Discharge2Reg | src/lcode.c:595-635 | The main value is in the register for every kind of expression but a pending comparison |
| CodeGenerator.FuncState.Discharge2AnyReg | src/lcode.c:641-646 | The main value is in some register |
| CodeGenerator.FuncState.Exp2Reg | src/lcode.c:675-696 | The complete value is in the register whatever jumps the expression has; both lists are settled, all exits arrive with the right value |
| CodeGenerator.FuncState.EmitLoads | src/lcode.c:683-688 | LOADBOOLs exactly if some exit produces no value; the main value jumps over them |
| CodeGenerator.FuncState.CloseLists | src/lcode.c:689-691 | Exits with values go to the end, others to the load of their truth value |
| CodeGenerator.FuncState.Exp2NextReg | src/lcode.c:703-708 | Likewise for a newly reserved register |
| CodeGenerator.FuncState.Exp2AnyReg | src/lcode.c:715-727 | Likewise for any register, without a copy if the value is in place |
| CodeGenerator.FuncState.Exp2Val | src/lcode.c:744-749 | A value or a settled register |
| CodeGenerator.FuncState.Exp2RK | src/lcode.c:758-776 | The operand is a constant index that fits or a register with the value; a constant stays one as long as there are at most 255 |
| CodeGenerator.FuncState.ValueToK | src/lcode.c:471-507 | Constant values become indices of equal constants |
| CodeGenerator.FuncState.JumpOnCond | src/lcode.c:839-851 | A test whose jump is taken exactly when the value is as wanted |
| CodeGenerator.FuncState.JumpOnNot | src/lcode.c:842-849 | Taking back OP_NOT and inverting the test tests the same value |
| CodeGenerator.FuncState.GoIfTrue | src/lcode.c:857-878 | Control reaches the next instruction exactly if the value is true; otherwise the exits are on the false list |
| CodeGenerator.FuncState.GoIfFalse | src/lcode.c:884-904 | Control reaches the next instruction exactly if the value is false |
| CodeGenerator.FuncState.CodeNot | src/lcode.c:910-939 | The delayed expression means the negation: lists exchanged, no exit produces a value |
| CodeGenerator.FuncState.CodeComp | src/lcode.c:1037-1060 | A comparison in the right order of operands and sense, which ExprRules.GreaterTurned and ExprRules.UnequalTurned say in terms of the finished code; registers are given back |
| CodeGenerator.FuncState.EmitComparison | src/lcode.c:1042-1059 | The jump behind the comparison is taken exactly if the comparison holds |
| CodeGenerator.FuncState.FreeExps | src/lcode.c:407-418 | Both operands give up their registers, the higher first |
| JumpLists.ListUnique | src/lcode.c:90-96 | A chain of links has one finite sequence of elements without repetition |
| JumpLists.PatchKeepsList | src/lcode.c:224-270 | Patching one list leaves the lists disjoint from it as they are |
| JumpLists.AppendKeepsList | src/lcode.c:293-305 | Code added behind changes no list |
| GeneratorSteps.LinkLists | src/lcode.c:116-127 | Setting the last link makes the two lists one |
| GeneratorSteps.PatchStep | src/lcode.c:224-234 | One round of the traversal: the link was read before it was overwritten |
| GeneratorSteps.ListAllPatched | src/lcode.c:224-234 | After the traversal every jump of the list and none other is patched |
| GeneratorSteps.ValuesAllRemoved | src/lcode.c:213-216 | After the traversal no test of the list produces a value |
| GeneratorSteps.NeedsRegister | src/lparser.c:1048-1075 | Every expression needs a register |
| GeneratorSteps.WholeComputes | src/lvm.c:786-1319 | From the invariant of the generator to the run of a finished function |
| ExprRules.SimpleLeft | src/lparser.c:931-961 | Finished code for a constant leaves that constant in its register, for a local what the register of the local held |
| ExprRules.ParenLeft | src/lparser.c:871-890 | Parentheses leave what the expression in them leaves |
| ExprRules.NotLeft | src/lobject.h:181 | Finished code for `not e` leaves true exactly if that for `e` leaves nil or false, and else false |
| ExprRules.AndLeft | src/lvm.c:1110-1129 | `a and b` leaves what `a` leaves if that is nil or false, else what `b` leaves |
| ExprRules.OrLeft | src/lvm.c:1110-1129 | `a or b` leaves what `b` leaves if `a` leaves nil or false, else what `a` leaves |
| ExprRules.ComparisonLeft | src/lvm.c:1057-1109 | `==`, `<` and `<=` leave the answer of the comparison to the values that the operands leave, in their order |
| ExprRules.GreaterTurned | src/lcode.c:1049-1053 | Finished code for `a > b` leaves what that for `b < a` leaves, and `a >= b` what `b <= a` leaves, for all operands, registers and comparisons |
| ExprRules.UnequalTurned | src/lcode.c:1045-1048 | `a ~= b` leaves what `not (a == b)` leaves |
| CodeMachine.RunPatched | src/lcode.c:224-270 | A run of patched code follows the run of the code before it, up to where a jump was pending |
| CodeMachine.RunRelinked | src/lcode.c:116-127 | Relinking pending jumps changes no run |
| CodeMachine.RunPrefix | src/lvm.c:786-1319 | A run of the longer code goes on where the run of the shorter one ended |
| CodeMachine.RunMoreConstants | src/lcode.c:428-452 | Constants added later change no run |
| CodeSteps.TestRun | src/lvm.c:1057-1129 | A test and its pending jump leave the code exactly when the test says so |
| CodeSteps.LoadKXRun | src/lvm.c:807-818 | LOADKX with its extra argument loads the constant |
| ExprMeaning.EvalSame | src/lparser.c:1048-1075 | The value of an expression depends on the active locals only |
| Precedence.SubexprExact | src/lparser.c:1048-1075 | subexpr reads a whole sequence of operands and operators as a tree exactly if the tree has these tokens and is grouped as the table of priorities says; Precedence.GroupedByLevels says which operator that makes tighter |
| Precedence.GroupingUnique | src/lparser.c:1025-1044 | There is at most one such tree |
| Precedence.TwoOperators | src/lparser.c:1025-1041 | `a op1 b op2 c` for any operands and any two binary operators: of the levels, loosest first, or; and; comparisons; bitwise or; exclusive or; bitwise and; shifts; `..`; sum and difference; product, quotients and modulus; `^`, the tighter operator takes the operand between them; on the same level the first one does, but for `..` and `^` the second |
| Precedence.UnaryAndBinary | src/lparser.c:1044-1044 | Only `^` takes the operand away from a unary operator in front of it, so `-a ^ b` is `-(a ^ b)` and `not a == b` is `(not a) == b`; a unary operator behind a binary one always gets its operand |
| Precedence.GroupedByLevels | src/lparser.c:1025-1044 | Trees of any size are well grouped exactly if each operand belongs to the operator that these levels give it to |
| Precedence.ReadsTree | src/lparser.c:1048-1075 | Tokens of a well grouped tree are read as that tree, whatever follows that cannot break it |
| Precedence.SubexprGroups | src/lparser.c:1048-1075 | What subexpr builds is well grouped, and the operator that it leaves has a priority within the limit |
| Precedence.LexState.SubExpr | src/lparser.c:1048-1075 | The loop and its recursion: the tree, the tokens left and the first untreated operator, or a syntax error |
| Precedence.LexState.SimpleExp | src/lparser.c:871-890 | An operand, or an expression in parentheses |
| Precedence.CompileTokens | src/lparser.c:1078-1080 | From tokens to code: an error exactly if no tree has these tokens; else the finished code computes the value of the one well grouped tree, which Precedence.GroupedByLevels and Precedence.BinaryLeft say |
| Precedence.BinaryLeft | src/lcode.c:1124-1171 | What finished code leaves for a tree with each of the covered binary operators at its root, from what it leaves for the operands |
| Precedence.UnaryLeft | src/lcode.c:1066-1083 | Likewise for `not` and parentheses |
| Precedence.CoveredOperators | src/lcode.c:1066-1171 | What is compiled: exactly the trees over constants and locals in which there are no operators but `not`, `and`, `or` and the comparisons |
| Precedence.BinSym | src/lparser.c:997-1022 | The token of a binary operator is read as that operator |
| Precedence.UnSym | src/lparser.c:986-994 | The token of a unary operator is read as that operator |
| Program.Run | src/lgc.c:1044-1096 | Every script of allocations, stores with their barriers, stack stores without one in any thread, closures, upvalues, reads of every field, roots, fixed strings, thread switches, single steps and full collections: in each state that it goes through the invariant holds, every root and every field of whatever the program can get at refers to something that exists, is not condemned and can be got at, and each action did what it is meant to do |
| Program.Do | src/lgc.c:1044-1096 | Each action keeps the invariant and changes exactly what it names: objects, upvalues, roots; a step of the collector leaves everything accessible in place with its contents |
| Program.FetchClosure | src/lvm.c:1285-1295 | OP_CLOSURE pushes the cached closure exactly if its upvalues are those of a new one, else a new closure with these upvalues |
| Program.DoNewCClosure | src/lapi.c:532-553 | The values on top of the stack become the upvalues of a C closure in their place |
| Program.StoredIsRead | src/lapi.c:800-895 | What has been stored in a slot of a table, a metatable, a user value, an upvalue of a C closure, a prototype, the registry or a metatable of a basic type is what a read from there pushes |
| Program.UpvalueIsRead | src/lvm.c:830-860 | What OP_SETUPVAL has stored is what OP_GETUPVAL reads, for open and closed upvalues, unless the store has replaced the closure itself |
| Program.ClosureOnStack | src/lvm.c:1285-1295 | Whether remembered or new, the closure on the stack is one of the prototype, and each of its upvalues is the one open in the named register or that of the enclosing closure |
| Collector.GlobalState.SingleStep | src/lgc.c:1044-1096 | One step: the invariant, safety, nothing new is kept alive, and it moves on to the next state or gets closer to it |
| Collector.GlobalState.RunUntilState | src/lgc.c:1103-1107 | Alone, the collector reaches one of the wanted states, whichever they are |
| Collector.GlobalState.FullGc | src/lgc.c:1158-1174 | A full collection frees nothing accessible, and afterwards there is nothing but what could be reached, at the start of its cycle, from the roots and the values of open upvalues, and the fixed strings; what an object refers to is said by GcFields |
| Collector.GlobalState.AbandonMarking | src/lgc.c:1162-1164 | Entering the sweep from the mark phase frees no object |
| Collector.GlobalState.ReallyMark | src/lgc.c:235-283 | A white object becomes gray and listed, or black with its references marked; nothing else |
| Collector.GlobalState.MarkUdata | src/lgc.c:249-260 | A userdata, its metatable and its value |
| Collector.GlobalState.MarkPtr | src/lgc.c:83-93 | Only white objects are marked |
| Collector.GlobalState.TraverseLClosure | src/lgc.c:514-527 | The prototype is marked; open upvalues are marked in the atomic step only, else touched |
| Collector.GlobalState.TraverseTable | src/lgc.c:433-469 | The metatable and every slot of a table are marked |
| Collector.GlobalState.TraverseProto | src/lgc.c:479-498 | The cache of a prototype that is not marked is forgotten, all parts are marked |
| Collector.GlobalState.TraverseThread | src/lgc.c:530-552 | The stack is marked, the thread is to be visited again or kept among the threads with open upvalues |
| Collector.GlobalState.Traverse | src/lgc.c:433-527 | Everything that a traversed object refers to is marked |
| Collector.GlobalState.PropagateMark | src/lgc.c:559-600 | The head of the gray list becomes black, a thread gray again |
| Collector.GlobalState.PropagateAll | src/lgc.c:603-605 | The gray list is emptied; ends |
| Collector.GlobalState.RestartCollection | src/lgc.c:337-344 | All roots are marked, the gray lists are those of the new cycle |
| Collector.GlobalState.RemarkUpvals | src/lgc.c:312-331 | Values of touched upvalues of unmarked threads are marked and the list is pruned |
| Collector.GlobalState.RemarkNext | src/lgc.c:315-321 | A thread stays on the list exactly if it is marked and has open upvalues |
| Collector.GlobalState.MarkAgain | src/lgc.c:988-993 | The roots that may have changed are marked again |
| Collector.GlobalState.AtomicMark | src/lgc.c:981-1025 | What is not white afterwards is closed under references and has the roots; the whites change places; only what is needed has been marked |
| Collector.GlobalState.AtomicStep | src/lgc.c:1061-1068 | The step as a whole, with the entry into the sweep |
| Collector.GlobalState.UpvalBarrier | src/lgc.c:185-191 | The value of a closed upvalue is marked while marking |
| Collector.GlobalState.CloseUpvals | src/lfunc.c:83-96 | The open upvalues from a level up, and only they, get their own value, which is the one they had, with the barrier |
| Collector.GlobalState.SweepList | src/lgc.c:734-751 | Among the next objects exactly the dead ones leave the list and the heap, the others become white; the position afterwards |
| Collector.GlobalState.SweepDead | src/lgc.c:696-720 | A dead thread closes its upvalues before it is freed |
| Collector.GlobalState.EnterSweep | src/lgc.c:958-963 | The sweep begins with its invariant; only dead objects are freed on the way to the first live one |
| Collector.GlobalState.SweepStep | src/lgc.c:1028-1041 | A step of the sweep or the change to the next |
| Collector.GlobalState.FinishSweep | src/lgc.c:1078-1083 | The main thread is white again |
| Collector.GlobalState.Barrier | src/lgc.c:155-164 | The value is marked, or the object swept ahead of time |
| Collector.GlobalState.NewObj | src/lgc.c:208-216 | A white object at the front of the list; a sweep keeps its place |
| Collector.GlobalState.Fix | src/lgc.c:194-201 | The newest object moves to the list of fixed objects and is gray for ever |
| GcState.AccessibleIsLive | src/lgc.c:981-1025 | In every state with the invariant what the program can reach exists and is not condemned |
| GcState.BlackToWhite | src/lgc.h:15-25 | While marking, a black object refers to a white one only through a touched open upvalue whose thread is still to be looked at |
| GcState.GrayIsListed | src/lgc.h:15-25 | While marking, gray objects but the fixed ones are exactly those on the two gray lists, each once |
| GcState.NoOtherWhite | src/lgc.h:54-61 | Outside the sweep no object has the other white |
| GcFields.AccessibleFields | src/lgc.c:235-283 | Field by field: whatever the program can get at, the prototype of a closure is a prototype, and this, the metatable and user value of a userdata, the metatable and every slot of a table, every value of a C closure, every stack slot of a thread, every part of a prototype and the value of every upvalue exist, are not condemned, and can be got at in turn; what a prototype remembers is a closure of it that is not condemned |
| GcFields.RootsUsable | src/lgc.c:337-344 | The main and the running thread, the registry and the metatables of the basic types can be got at, exist and are not condemned |
| GcFields.EdgeIsField | src/lgc.c:433-552 | An object keeps another one alive exactly if it has it in one of these fields or sees it through an upvalue, so a full collection spares nothing for any other reason |
| GcHeap.ReachableStays | src/lgc.c:559-600 | What can be reached from a set stays within every closed set |
| GcHeap.OneUpvalueForSlot | src/lfunc.c:57-80 | At most one open upvalue for a stack slot |
| GcAtomic.AtomicDone | src/lgc.c:981-1025 | With empty gray lists the marked objects are closed under references, upvalues of unmarked threads included |
| GcSweeping.AtomicFlip | src/lgc.c:1022-1022 | When the whites change places, exactly the marked objects are live |
| GcSweeping.SweepBegins | src/lgc.c:958-963 | The invariant of the sweep holds at its beginning |
| GcSweeping.SweptClean | src/lgc.c:734-751 | A sweep to the end of the list leaves exactly its live objects in it |
| GcSweeping.SweepProgress | src/lgc.c:734-751 | A sweep that does not get to the end stops exactly its count of objects further on |
| GcSweeping.LiveKeptSafe | src/lgc.c:734-751 | Freeing dead objects changes nothing that can be reached |
| GcSweeping.CycleOver | src/lgc.c:1084-1092 | The last step of a cycle keeps the invariant: everything is white again |
| GcGarbage.GarbageGone | src/lgc.c:1158-1174 | At the end of a cycle what was not needed at its start is gone |
| StoreSteps.ForwardStore | src/lgc.h:118-132 | A store followed by the forward barrier keeps the whole invariant, in every state of the collector |
| StoreSteps.BackStore | src/lgc.h:118-132 | A store followed by the backward barrier keeps it |
| StoreSteps.StackStore | src/lapi.c:237-243 | A stack store without a barrier keeps it |
| Mutator.StoreSlot | src/lapi.c:800-813 | Table store with the backward barrier: exactly that slot changes, the invariant holds |
| Mutator.SetMetatable | src/lapi.c:845-882 | Metatable with the object barrier |
| Mutator.SetUserValue | src/lapi.c:885-895 | User value with its barrier |
| Mutator.SetUpvalue | src/lvm.c:855-860 | OP_SETUPVAL: an open upvalue needs no barrier, a closed one has its own; exactly that slot or upvalue changes |
| Mutator.SetStack | src/lapi.c:237-243 | A stack slot changes, without any barrier |
| Mutator.SetTop | src/lapi.c:172-187 | A stack shrinks, or grows over nils |
| Mutator.SetCUpvalue | src/lapi.c:1235-1251 | An upvalue of a C closure changes, with the forward barrier |
| Mutator.SetTypeMetatable | src/lapi.c:873-876 | A metatable of a basic type becomes a root without a barrier |
| Mutator.AddPart | src/lcode.c:428-452 | A part joins a prototype, with the forward barrier |
| Mutator.FindUpval | src/lfunc.c:57-80 | The one upvalue for the slot, made and linked in order if there is none, and then its thread is listed; the list stays strictly decreasing |
| Mutator.Close | src/lfunc.c:83-96 | Exactly the upvalues from the level up are closed, and the value seen through any upvalue stays the same |
| Mutator.InstalledUnique | src/lvm.c:632-650 | There is one sequence of upvalues for a closure, so the cached closure has those that a new one would get |
| Mutator.GetCached | src/lvm.c:610-623 | The cached closure exactly if its upvalues are those that a new closure would get; it was made from this prototype |
| Mutator.CacheIsLive | src/lvm.c:648-649 | What a prototype that is not condemned remembers is a closure of it with its number of upvalues, and not condemned either |
| Mutator.PushClosure | src/lvm.c:632-650 | A new closure with these upvalues on the stack, and nothing else but new upvalues of it; it is remembered unless the prototype is black |
| Mutator.InstallOne | src/lvm.c:640-647 | The upvalue for one description, from the stack or the enclosing closure |
| Mutator.Create | src/lgc.c:208-216 | A new object that refers to live objects keeps the invariant |
| Mutator.RootsHeld | src/lgc.c:990-993 | Other live objects may become roots: registry, metatables of basic types, running thread |
| Ephemerons.Marker.ConvergeEphemerons | src/lgc.c:608-623 | Ends; afterwards no entry of a marked table has a marked key and a white value, what is marked is closed, and it lies in every closed set with what was marked before; a marked table with an entry whose key is dead is on one of the two lists that are cleared |
| Ephemerons.Marker.TraverseEphemeron | src/lgc.c:394-430 | Values of marked keys are marked, and nothing that is not in every closed set; the table is looked at again unless each entry is settled; without a mark its entries have nothing to wait for |
| Ephemerons.Marker.Round | src/lgc.c:608-620 | One round over the tables; if something was marked there are fewer white objects |
| Ephemerons.Marker.IsCleared | src/lgc.c:139-146 | Strings are marked, other white objects are to be cleared |
| Ephemerons.FinalIsClosed | src/lgc.c:608-623 | With nothing left to do the marked objects are a closed set |
| Ephemerons.AllTablesQuiet | src/lgc.c:608-623 | Tables that are on no list have nothing to wait for |
| QuickSort.Sorter.Sort | src/ltablib.c:411-421 | For a strict weak order a sorted permutation and no error; for any answers whatever a permutation, with only elements 1 to n touched. With every call of the order function recorded: the error of the order function comes out exactly if the last call was one, no call follows it, and the invalid-order error comes out exactly if the last answer sent a scan past its bound; no earlier answer did |
| QuickSort.Sorter.AuxSort | src/ltablib.c:357-408 | The same for a part of the table, outside of which nothing changes or is read; depth of recursion at most the logarithm of its size |
| QuickSort.Sorter.Round | src/ltablib.c:359-393 | Three elements in order, the partition around the median |
| QuickSort.Sorter.Partition | src/ltablib.c:310-339 | The pivot is where smaller and larger elements meet; whatever the order function answers, only elements of the part are read and written |
| QuickSort.Sorter.Exchange | src/ltablib.c:314-338 | One round: two elements change places, or the pivot gets to its place |
| QuickSort.Sorter.ScanUp | src/ltablib.c:316-322 | The first element not below the pivot, or the error before the scan leaves the part; its calls compare the elements one after the other with the pivot |
| QuickSort.Sorter.ScanDown | src/ltablib.c:323-329 | The last element not above the pivot, or the error; its calls likewise |
| QuickSort.Sorter.MedianOfThree | src/ltablib.c:362-388 | First, middle and last element are in order; the middle one is that of the part for small parts and without a random number |
| QuickSort.Sorter.ChoosePivot | src/ltablib.c:346-351 | An element of the two middle quarters |
| SortOrder.SettledIsSorted | src/ltablib.c:357-408 | When no part is left the whole is sorted |
| SortOrder.LowerDone | src/ltablib.c:357-408 | Sorting the lower part settles all pairs but those of the upper part |
| SortOrder.UpperDone | src/ltablib.c:357-408 | Likewise for the upper part |
| SortOrder.ScanStops | src/ltablib.c:310-339 | With an order the scans stop before the bounds |
| SortOrder.Exchanged | src/ltablib.c:310-339 | Exchanging two elements out of place keeps the bounds of the partition |
| SortOrder.Separated | src/ltablib.c:310-339 | When the scans have met, the pivot separates the two parts |
| QuickSort.HalfFits | src/ltablib.c:357-408 | The smaller part needs one level less |
| NumberOrder.LTintfloatExact | src/lvm.c:281-293 | Integer less than float is the mathematical order for all 64-bit integers and doubles; an integer is converted only where that is exact, a float only within the range of integers |
| NumberOrder.LEintfloatExact | src/lvm.c:300-312 | Likewise less or equal |
| NumberOrder.LTnumExact | src/lvm.c:318-335 | Less-than of two numbers of any types is the mathematical order, false on NaN |
| NumberOrder.LEnumExact | src/lvm.c:341-358 | Less-or-equal likewise |
| NumberOrder.OrderOfNumbers | src/lvm.c:318-358 | Finite numbers of any types compare as the reals that they are; minus infinity is below and infinity above every other number but NaN, with which no comparison holds |
| NumberOrder.OrderTransitive | src/lvm.c:318-358 | Less and less-or-equal are transitive over any mixture of integers and floats |
| NumberOrder.Trichotomy | src/lvm.c:318-358 | Of two numbers other than NaN exactly one is less or they are equal |
| NumberOrder.EqualExact | src/lvm.c:407-416 | Equality of numbers belongs to the same order |
| IntegerDivision.DivModExact | src/lvm.c:552-584 | Division is the floor and modulus what remains, with the sign of the divisor, for all 64-bit operands; only the smallest integer divided by -1 wraps around |
| IntegerDivision.FloorUnique | src/lvm.c:552-584 | Quotient and remainder are determined by that |
| Undump.RoundTrip | src/lundump.c:258-279 | A dumped prototype loaded again from any pieces of the same bytes: unstripped the same tree if every function has a source unless its parent has none, stripped the tree without debug information; from any beginning of them that is not the whole an error |
| DumpFormat.ReloadedIsSame | src/lundump.c:202-216 | The same tree comes back exactly if every function has a source or has none like its parent: otherwise the source of the parent appears |
| DumpFormat.ReloadedIsErased | src/ldump.c:166-181 | A stripped dump gives the tree without sources, lines, local variables and upvalue names |
| DumpFormat.SourceAppears | src/lundump.c:202-205 | A nested function without a source, in one with a source, comes back with that source: such a tree is not reproduced |
| DumpFormat.LoadedSourcesOk | src/lundump.c:202-205 | The loader never makes such a tree |
| DumpFormat.LoadedComesBack | src/lundump.c:202-216 | Any tree that has been loaded, stripped or not, is reproduced exactly by dumping and loading it again |
| DumpFormat.IntegerRound | src/lundump.c:81-85 | Integers come back with their sign |
| DumpFormat.IntRound | src/lundump.c:67-71 | Ints come back with their sign |
| Dump.DumpChunk | src/ldump.c:200-212 | Status 0 means the writer got the whole chunk; whatever it answers it gets only a beginning of it; it is called until it fails, and its last answer is the status |
| Dump.DumpState.DumpBlock | src/ldump.c:40-46 | Nothing is written after an error; empty blocks are not handed over |
| Dump.DumpState.DumpString | src/ldump.c:73-87 | Size and bytes; the size in one byte or behind 0xFF; no string is size 0 |
| Dump.DumpState.DumpFunction | src/ldump.c:166-181 | The bytes of a function, the source left out if it is stripped or that of the parent |
| Dump.DumpState.DumpConstants | src/ldump.c:98-125 | All constants with their tags |
| Dump.DumpState.DumpProtos | src/ldump.c:128-134 | All nested functions |
| Dump.DumpState.DumpUpvalues | src/ldump.c:137-144 | Where each upvalue is |
| Dump.DumpState.DumpDebug | src/ldump.c:147-163 | Debug information, or empty vectors |
| Dump.DumpState.DumpHeader | src/ldump.c:184-196 | The header |
| DumpFormat.HeaderBytes | src/lundump.h:14-26 | The header byte by byte: signature, version, format, the bytes that a conversion would damage, five sizes, 0x5678 and 370.5 |
| Undump.UndumpChunk | src/lundump.c:258-279 | From the dump of a prototype, in whatever pieces, comes what the dump stands for; if its end has been cut off, at whatever byte, it is an error; nothing is loaded behind another header |
| Undump.LoadState.LoadFunction | src/lundump.c:202-216 | A function with its parts, the source of the parent if there is none |
| Undump.LoadState.LoadString | src/lundump.c:88-104 | The string of those bytes, short exactly up to 40 bytes |
| Undump.LoadState.LoadConstants | src/lundump.c:118-149 | All constants |
| Undump.LoadState.LoadProtos | src/lundump.c:152-163 | All nested functions |
| Undump.LoadState.LoadUpvalues | src/lundump.c:166-177 | The upvalues, still without names |
| Undump.LoadState.LoadDebug | src/lundump.c:180-199 | Lines, local variables and upvalue names |
| Undump.LoadState.LoadCode | src/lundump.c:107-112 | The instructions |
| Undump.LoadState.CheckHeader | src/lundump.c:236-252 | A header is accepted exactly if it is that of a dump, byte by byte |
| ByteStream.ZIO.Read | src/lzio.c:48-67 | The next n bytes wherever the pieces end; what is missing otherwise |
| ByteStream.ZIO.Fill | src/lzio.c:23-35 | The first byte of the next piece, the end for an empty or missing one |
| StringTable.Strt.Intern | src/lstring.c:167-193 | The string with these contents if there is one, resurrected if it was dead, else a new one; every string in its bucket exactly once, no two with the same contents, nuse counts them; the table doubles in time to have no more strings than buckets |
| StringTable.Strt.Resize | src/lstring.c:71-96 | In place, growing or shrinking to any size: no string is lost or doubled, each is in its new bucket, the slice that vanishes is empty |
| StringTable.Strt.MoveBucket | src/lstring.c:78-88 | One bucket: its strings go to where they belong, also if that is a bucket to be visited later |
| StringTable.Strt.Remove | src/lstring.c:154-161 | Exactly that string leaves the table; the list stays linked |
| StringTable.Strt.FindLink | src/lstring.c:156-158 | The walk finds the link to the string |
| StringTable.Strt.CheckSizes | src/lgc.c:777-784 | Halved if less than a quarter is used |
| StringTable.Strt.constructor | src/lstring.c:116-119 | An empty table |
| StringTable.LmodIsRemainder | src/lobject.h:514-515 | For powers of two the low bits are the remainder |
| StringTable.Chain | src/lstring.c:82-86 | A string taken out of any list and put in front of another: lists and places agree |
| StringTable.Settled | src/lstring.c:89-94 | With every string at home the buckets from the new size on are empty |
| StringTable.Unlinked | src/lstring.c:154-161 | Taking an element out of its list keeps all others |
| Metamethods.State.GetTable | src/lvm.c:160-193 | Reading o[key] with the absence cache and the chain of __index gives what the definition without any cache gives; nothing visible changes |
| Metamethods.State.SetTable | src/lvm.c:203-238 | Assigning o[key] with the cache does what the definition without it does, to the same table: exactly the entry under the stored form of the key has the value, or is gone for nil |
| Metamethods.ReadsBack | src/lvm.c:203-219 | After a store into a table every key of the same stored form reads the value, raw and, if it is not nil, by the rules for o[key]; every other key and every other table reads as before |
| Metamethods.State.FinishGet | src/lvm.c:160-193 | The loop over the chain of handlers |
| Metamethods.State.FinishSet | src/lvm.c:203-238 | The loop over the chain of handlers |
| Metamethods.State.GetTm2 | src/ltm.c:92-102 | The handler under the Cyrillic name, else under the English one; the absence of both, and nothing less, is cached |
| Metamethods.State.FastTm | src/ltm.h:48-52 | The cached lookup gives the same as the uncached one |
| Metamethods.State.GetTmByObj | src/ltm.c:105-123 | The handler of any value by its metatable, Cyrillic name first |
| Metamethods.State.FastSet | src/lvm.h:80-87 | Overwriting a value, in that entry alone, leaves the cache right without clearing it |
| Metamethods.State.RawSet | src/lapi.c:800-813 | A raw store changes exactly that entry, fails exactly for a nil and a NaN key, and keeps the cache right, as it is cleared |
| Metamethods.State.NewTable | src/ltable.c:402-411 | All bits of a new table are set, and are right |
| Metamethods.State.SetMetatable | src/lapi.c:858-865 | Changing the metatable of a table touches no cache |
| Metamethods.State.SetUserMetatable | src/lapi.c:866-872 | Likewise for a full userdata |
| Metamethods.State.SetTypeMetatable | src/lapi.c:873-876 | Likewise for any other type |
| Metamethods.State.RawSetInt | src/lapi.c:816-826 | lua_rawseti and OP_SETLIST change exactly that entry; they clear no flag, and need not: no name is an integer |
| Metamethods.State.RawSetP | src/lapi.c:829-842 | lua_rawsetp changes exactly that entry; it clears no flag, and need not: no name is a light userdata |
| Metamethods.State.NewUserdata | src/lstring.c:236-247 | A new full userdata has no metatable |
| Metamethods.State.NewFunction | src/lfunc.c:25-40 | A new closure is a function from then on |
| Metamethods.State.EqualTm | src/lvm.c:427-442 | The handler for equality, of the first operand or else of the second |
| Metamethods.OverwriteKeepsCache | src/lvm.h:80-87 | A name with a value has no bit, so storing over it wrongs none |
| Metamethods.OtherKeysKeepCache | src/lapi.c:816-842 | Storing under a key that is no string wrongs none either |
| Metamethods.NewIndexTarget | src/lvm.c:203-238 | An assignment changes a table exactly if it is a store, and then the key is neither nil nor NaN; a bad key is one of these |
| Utf8.RoundTrip | src/lutf8lib.c:100-153 | codepoint over the string made by char gives the code points back, len their number |
| Utf8.Utf8Esc | src/lobject.c:346-361 | The shortest form at the end of the buffer, the rest of which is untouched |
| Utf8.Decode | src/lutf8lib.c:40-63 | A code point and the position behind it exactly if the shortest form of a code point up to 10FFFF stands there |
| Utf8.Codepoint | src/lutf8lib.c:100-125 | The code points whose forms start in the range, an error exactly if the range cannot be read that way, and then from the first place where it cannot |
| Utf8.UtfLen | src/lutf8lib.c:71-93 | How many they are, or the position of the first byte where no form starts |
| Utf8.UtfChar | src/lutf8lib.c:138-153 | The forms one after the other; the error names an argument out of range |
| Utf8.FormUnique | src/lutf8lib.c:40-63 | No form begins with another |
| Utf8.ReadsUnique | src/lutf8lib.c:100-125 | A range of bytes has at most one reading |
| Utf8.WholeString | src/lutf8lib.c:100-125 | The readings of a whole string are exactly the sequences it encodes |
| Utf8.FormShape | src/lobject.c:346-361 | A form of several bytes has the first byte and continuation bytes of its length and is no longer than needed |
| Utf8.ShapeForm | src/lutf8lib.c:40-63 | Bytes of that shape within the limits are the form of their value |

## Left out

- Lexer, statements, blocks, goto, calls, varargs, table constructors, indexing, arithmetic, concatenation, upvalues and method calls in the code generator; Precedence groups all operators, the code is for `not`, `and`, `or` and comparisons.
- Precedence.CompileTokens: reads the whole expression before it compiles it, while the parser calls the code generator as it reads; the calls come in the same order. The limit of nested C calls is not modelled.
- Precedence.LexState.SimpleExp: operands are constants, locals and parentheses, without fields, indices and calls behind them.
- CodeGenerator.FuncState.Compile: starts from a tree of operators that the code generator covers.
- CodeGenerator.FuncState.CompileToNextReg: starts from such a tree, too.
- CodeGenerator.FuncState.CompileList: puts the last expression in its register as well, which `explist` leaves to its caller.
- CodeGenerator.FuncState.Simple: knows no varargs, table constructors and function bodies.
- CodeGenerator.FuncState.Code: keeps no line information.
- CodeGenerator.FuncState.DischargeVars: knows locals only, no upvalues, indexed variables, calls and varargs.
- Register and jump limits: CodeGenerator.FuncState requires that the registers suffice, the range of sBx is not checked, and `luaK_patchclose` is not modelled.
- Metamethods called by comparisons: a comparison in the machine is a total function without side effects.
- Tables of 2^30 or more entries, memory errors, and dead keys, which the collector leaves in nodes; the dummy node is a node of its own for each table; a shrinking array part is cut off before its vanishing slice is put back from the old one, in the C code afterwards.
- HybridTable.Table.Put: requires fewer than 2^30 live keys, the limit beyond which the C code reports an overflow.
- HybridTable.Table.Resize: requires that the new hash part can take the keys left to it, as all callers see to; with a smaller one the reinsertions would rehash while the old parts are still being put back.
- HybridTable.Table.ResizeArray: requires that the array part does not shrink, as its only caller sees to.
- TableLength.GetN: the integer keys of the model are not bounded above by the machine; the guard at the largest int is the one in the code.
- Hash functions are any functions of the stored key; `l_hashfloat`, `luaS_hash` and seeds are not modelled.
- Both float zeros are one value and all NaNs are one, so the sign of a zero and NaN payloads in constants are seen in chunks only, where a float is its bits.
- Finalizers, resurrection, emergency collections, the debt and pause arithmetic, errors and the allocator in the collector; the lists of objects with finalizers are empty, their two sweeps only change the state.
- Weak tables in the main collector: tables there are strong, and Ephemerons.Marker is a collector of its own that has only tables, strings and plain objects.
- The links `next`, `gclist` and `twups` are sequences; `grayagain` has no meaning after the atomic step; reference counts of closed upvalues are not kept, a closed upvalue stays in the map as long as nothing looks at it.
- Collector.GlobalState.TraverseThread: the part of the stack above the top is not modelled, so neither is its clearing nor the shrinking of stacks.
- Collector.GlobalState.Traverse: knows no weak tables.
- Collector.GlobalState.AtomicMark: has no weak tables, ephemerons and finalizers.
- Collector.GlobalState.FinishSweep: the string table, which may shrink here, is a model of its own.
- Collector.GlobalState.MarkUdata: the jump back to the start of `reallymarkobject` is a call.
- Collector.GlobalState.SweepStep: the number of objects to a step is the one for 8-byte pointers.
- Collector.GlobalState.Fix: requires a string and the pause: only names and messages are fixed, while the state is being built and the collector stands still. A fixed object is never traversed, so fixing one with references would not be safe.
- Mutator.PushClosure: upvalues are collected before the closure is allocated, as no step of the collector can come between.
- Mutator.StoreSlot: a table in the collector is a sequence of slots, keys and values alike; where they are is what the model of tables says.
- Mutator.SetMetatable: the check for a finalizer is left out; metatables of basic types are Mutator.SetTypeMetatable.
- `lua_upvaluejoin`, prototypes and closures that are only partly built.
- Ephemerons.Marker.TraverseEphemeron: is the traversal in the atomic step; before it such a table is only listed.
- QuickSort.Sorter.Sort: the order function does not touch the table, which is an array from index 1; metamethods of the table are not called.
- NumberOrder.LTnumExact: doubles are integers times powers of two with a 53-bit significand, infinities and NaN; the rounding of a conversion is not needed by the code and is not modelled.
- Undump.LoadState.LoadNames: more upvalue names than upvalues are an error here; the C code would write past the array, for chunks that no dump makes.
- Undump.LoadState.LoadConstant: a string constant of size 0 is an error here; the C code would store a null string, for chunks that no dump makes.
- Undump.LoadState.LoadCount: a negative size is an error here, as the allocation of it would be.
- Dump.DumpState.DumpHead: the source of a function is compared with that of its parent by contents, in the C code by address.
- Chunks have the sizes of a 64-bit little-endian machine; the recursion limit of C, `luaU_undump`'s name and the text mode check are not modelled.
- StringTable.Strt.Intern: long strings, the cache of API strings and the marking of a resurrected string beyond leaving the set of dead ones are not modelled.
- Metamethods.State.GetTable: calls of handlers end the lookup with the function to be called; tables are maps here, as HybridTable proves them to be, with non-nil values only.
- Metamethods.State.RawSet: barriers are in the model of the collector.
- Utf8.Decode: shifts and masks are arithmetic, their parts do not overlap; `offset`, `codes` and the character pattern are not modelled.
- Sandboxing, debugging, the standard libraries other than sort and UTF-8, the IDE and the interpreters.
