# A verified model of the chara compiler's lowering stage

This project models the core of a small compiler. The compiler reads a
program of top-level functions and translates it into an LLVM module. A
function body is either a chain of calls or one assignment, and each
function returns an integer literal. The compiler then writes an object
file and links it with `clang`.

The imperative C has imperative Dafny counterparts:

- `src/codegen.c` is modelled by the class `Codegen.CodeGen`. Its fields are
  the C globals: the module, the builder position, `saved_block`,
  `function_table`, `var_table`, and a register counter standing for the
  values LLVM hands out.
- `src/main.c`'s `remove_extension` is modelled by methods over a
  NUL-terminated `array<char>`, and `main` by the method `Driver.RunMain`.

The lowering methods of `Codegen.CodeGen` are proved against a pure
specification in module `Lowering`: the functions `LowerExpr`, `LowerStmts`,
`DeclareOut`, `Pass1`, `Pass2` and `Compile` over a `State` value. The
table walks `SymtabLookup`, `SymtabLookupEntry` and `VarLookup` are proved
against `Symtab.FindEntry` and `Symtab.FindSlot`, and `GetNamedFunction`
against `Ir.FindFunction`. The table and builder primitives state their new
state directly. The properties the compiler promises are proved about the
`Lowering` functions in `LoweringFacts` and `ProgramFacts`. In module `Driver`, the buffer methods behind
`RemoveExtension` are proved against the function `StripExtension`. The
method `RunMain` states `main`'s exit decisions directly in its contract.

The LLVM C API is replaced by an abstract IR (module `Ir`):

- A module is a sequence of functions, and a function handle is its position.
- A block is a sequence of `Call`, `Alloca`, `Store`, `Load` and `Ret`
  instructions.
- The builder is a cursor at the end of one block.

A call to `exit(1)` after a diagnostic is an `Err` result. So is a NULL
dereference, which is marked as a crash by `Lowering.IsCrash`.

The `args[10]` buffer of a call is a real array of `MaxArgs` slots. The
predicates `ExprFits`, `StmtsFit` and `ProgramFits` state that no call has
more than ten arguments. That is the precondition the C code silently relies
on.

Where the code and its documentation disagree, the model follows the code:

- An unknown callee is dereferenced at `src/codegen.c:181`, before the
  "undefined function" check at lines 187-190. So an unknown callee crashes,
  and the diagnostic can never be printed.
- The comment at `src/main.c:108` promises a guard for hidden paths, but
  there is none.
- The slot table is shared by all functions of the program (`src/codegen.c:30`)
  and never reset.

## Model

| member | source | states |
|---|---|---|
| Ast.CreateNode | src/ast.c:7-16 | the node has the given kind, name and children, a zero literal and no sibling |
| Ir.FindFunction | src/codegen.c:82-85 | the result is the first function of the module with that name, or none when no function has it |
| Symtab.FindEntry | src/codegen.c:53-61 | the entry found is in the table and carries the name; none is found exactly when no entry has the name |
| Symtab.FindSlot | src/codegen.c:71-77 | the slot found belongs to an entry with the name; none is found exactly when no entry has the name |
| Symtab.FindEntryIsFirst | src/codegen.c:53-61 | the lookup returns the entry nearest the head, so a newer entry shadows older ones |
| Symtab.LookupAfterInsert | src/codegen.c:33-61 | after a prepend, both lookups of that name return the new handle and arity; other names look up as before |
| Symtab.FindRef | src/codegen.c:43-51 | a handle found belongs to an entry with the name |
| Symtab.FindRefAgrees | src/codegen.c:43-61 | the two separate walks agree: `symtab_lookup` is NULL exactly when `symtab_lookup_entry` is NULL, and otherwise returns that entry's handle |
| Symtab.SlotAfterInsert | src/codegen.c:63-77 | after a prepend, the new slot answers for its name and other names look up as before |
| Symtab.InsertFreshKeepsNoDup | src/codegen.c:63-69 | prepending a name with no slot keeps one slot per name |
| Lowering.LowerExpr | src/codegen.c:157-213 | registers only increase, and a call's or load's value is a register this lowering created |
| Lowering.LowerArgs | src/codegen.c:171-176 | the argument loop keeps the values already collected, in order, and adds exactly one value per argument |
| Lowering.LowerCallChain | src/codegen.c:220-227 | the call-statement loop only appends code after what was already emitted |
| Lowering.LowerAssign | src/codegen.c:228-237 | an assignment keeps the slot table free of duplicate names |
| Lowering.LowerStmts | src/codegen.c:216-239 | lowering a body keeps the slot table free of duplicate names |
| Lowering.DeclarePrintf | src/codegen.c:82-95 | the handle returned names a function called printf; at most one function is added, and the rest of the state is unchanged |
| Lowering.DefineShim | src/codegen.c:104-138 | one function `name(i8*)` is appended and registered under its name with arity 1, and the builder is in its block |
| Lowering.DeclareOut | src/codegen.c:97-143 | the built-ins keep every table handle inside the module and the cursor on a block |
| Lowering.Pass1 | src/codegen.c:244-255 | pass 1 keeps the state well formed |
| Lowering.OpenBlock | src/codegen.c:262-263 | function i gains one empty block at its end, the builder is on that block, and nothing else changes |
| Lowering.DefineFunction | src/codegen.c:259-271 | defining a function leaves the function table, the function count and `saved_block` unchanged |
| Lowering.Pass2 | src/codegen.c:257-273 | pass 2 leaves the function table unchanged, so every body sees pass 1's table |
| Lowering.Compile | src/codegen.c:241-274 | a successful compilation leaves the state well formed |
| Codegen.CodeGen.constructor | src/codegen.c:13-30 | the module is empty, the builder has no block, and both tables are empty |
| Codegen.CodeGen.SymtabInsert | src/codegen.c:33-40 | the new entry is the head of `function_table`; nothing else changes |
| Codegen.CodeGen.SymtabLookup | src/codegen.c:43-51 | the loop returns NULL exactly when no entry has the name, and otherwise the handle of the first entry with it |
| Codegen.CodeGen.SymtabLookupEntry | src/codegen.c:53-61 | the loop returns the first entry with the name, or NULL |
| Codegen.CodeGen.VarInsert | src/codegen.c:63-69 | the new slot is the head of `var_table`; nothing else changes |
| Codegen.CodeGen.VarLookup | src/codegen.c:71-77 | the loop returns the slot of the first entry with the name, or NULL |
| Codegen.CodeGen.AddFunction | src/codegen.c:249 | a function without blocks is appended and its handle returned |
| Codegen.CodeGen.GetNamedFunction | src/codegen.c:83 | the loop returns the handle of the first function with the name, or NULL |
| Codegen.CodeGen.AppendBasicBlock | src/codegen.c:262 | one empty block is appended to the function |
| Codegen.CodeGen.PositionBuilderAtEnd | src/codegen.c:263 | only the cursor moves |
| Codegen.CodeGen.GetInsertBlock | src/codegen.c:102 | the result is the present cursor, or NULL |
| Codegen.CodeGen.BuildCall | src/codegen.c:192-193 | one call with a fresh register is appended at the cursor |
| Codegen.CodeGen.BuildAlloca | src/codegen.c:234 | one alloca with a fresh register is appended at the cursor |
| Codegen.CodeGen.BuildLoad | src/codegen.c:203-207 | one load with a fresh register is appended at the cursor |
| Codegen.CodeGen.BuildStore | src/codegen.c:237 | one store is appended at the cursor |
| Codegen.CodeGen.BuildRet | src/codegen.c:270 | one `ret` is appended at the cursor |
| Codegen.CodeGen.BuildGlobalStringPtr | src/codegen.c:168 | the string is added to the module's globals and a pointer to it is returned |
| Codegen.CodeGen.GetOrDeclarePrintf | src/codegen.c:82-95 | the existing `printf` is returned, or a variadic `i32 (i8*, ...)` declaration is added |
| Codegen.CodeGen.DefineOutShim | src/codegen.c:104-138 | one built-in: a new `i32 (i8*)` function calls printf with its format and parameter and returns 0; it is registered with arity 1 and the builder is left in its block |
| Codegen.CodeGen.DeclareOutFunctions | src/codegen.c:97-143 | the new state is `DeclareOut` of the old one |
| Codegen.CodeGen.GenerateExpr | src/codegen.c:157-214 | the recursion and the argument loop produce what `LowerExpr` specifies: the same code at the cursor, the same value, the same fatal conditions |
| Codegen.CodeGen.GenerateLlvm | src/codegen.c:216-239 | the call-chain loop and the assignment produce what `LowerStmts` specifies, including the new slot table |
| Codegen.CodeGen.DefineFunctionBody | src/codegen.c:259-271 | one step of pass 2 produces what `DefineFunction` specifies |
| Codegen.CodeGen.CompileProgram | src/codegen.c:241-274 | the two loops produce what `Compile` specifies: the module on success, or the first fatal condition |
| LoweringFacts.LowerExprSucceedsIff | src/codegen.c:157-213 | an expression lowers without error exactly when every string and variable is named, every variable has a slot, every callee is registered with a matching arity, and only literals, variables and calls occur |
| LoweringFacts.LowerArgsSucceedsIff | src/codegen.c:171-176 | the argument loop succeeds exactly when every argument resolves, and it yields one value per argument |
| LoweringFacts.ExprShape | src/codegen.c:157-213 | an expression emits only calls and loads with consecutive fresh registers; literals emit nothing; a call's or load's value is the last register emitted |
| LoweringFacts.ArgsShape | src/codegen.c:171-176 | arguments are lowered left to right: a number gives its 32-bit constant, a string its global, and any other argument a register above those to its left |
| LoweringFacts.CallLowering | src/codegen.c:170-193 | an unknown callee crashes; a count unequal to the arity is "expected %d arguments, got %d" with both numbers; otherwise the last instruction calls the entry's handle with the arguments in source order |
| LoweringFacts.CallChainLowering | src/codegen.c:220-227 | the call chain succeeds exactly when every call along `right` resolves, whatever the other nodes are; only calls and loads are appended, after the code already emitted |
| LoweringFacts.CallFreeChainEmitsNothing | src/codegen.c:220-227 | a `right` chain with no call node emits no code and leaves the register counter unchanged |
| LoweringFacts.AssignmentLowering | src/codegen.c:228-237 | the right-hand side is lowered first and the last instruction stores into the name's slot; an existing slot is reused with a single store; a new name gets exactly one `i32` alloca under a fresh register, and that slot is registered |
| LoweringFacts.StmtsLowering | src/codegen.c:216-239 | a body never emits `ret`; every existing slot keeps its name; the table grows by at most one new name |
| LoweringFacts.BodyIgnoresNext | src/codegen.c:216-239 | a body ignores its head's `next` link, and a head that is neither a call nor an assignment emits nothing |
| ProgramFacts.PrintfDeclaredOnce | src/codegen.c:82-95 | the result is a function named printf; asking again returns the same handle and changes nothing; a new declaration is variadic `i32 (i8*, ...)` |
| ProgramFacts.BuiltinsDeclared | src/codegen.c:97-143 | `outs` and `out` follow printf, each with one block that calls printf with "%s" or "%s\n" and the parameter and then returns 0; the builder returns to the saved block when there was one |
| ProgramFacts.BuiltinsRegistered | src/codegen.c:104-125 | both built-ins are registered with arity 1, and every other name looks up as before |
| ProgramFacts.Pass1Registers | src/codegen.c:244-255 | pass 1 fails only on a nameless function; it appends exactly one bodiless `i32 name()` declaration per function node, in chain order; each declared name then resolves with arity 0 to a new declaration of that name; other names are unchanged |
| ProgramFacts.ForwardCallResolves | src/codegen.c:241-274 | a call without arguments to any function the program defines resolves in every body, whatever the order of definition, because every body is lowered under pass 1's final table |
| ProgramFacts.BuiltinShadowing | src/codegen.c:242-255 | a user function named `out` or `outs` shadows the built-in with arity 0; without one, the built-in keeps arity 1 |
| ProgramFacts.DefineFunctionAppendsBlock | src/codegen.c:259-271 | each function node adds one block to its function: the lowered body, then exactly one `ret` of `right`'s literal, or of 0 |
| ProgramFacts.DeclareOutKeepsTerminated | src/codegen.c:109-138 | each built-in block ends with its only `ret` |
| ProgramFacts.Pass1KeepsTerminated | src/codegen.c:244-255 | pass 1 keeps every block of the module terminated by one final `ret` |
| ProgramFacts.DefineFunctionKeepsTerminated | src/codegen.c:259-271 | a defined block ends with its only `ret` |
| ProgramFacts.Pass2KeepsTerminated | src/codegen.c:257-273 | after pass 2 every block still ends with its only `ret` |
| ProgramFacts.CompileTerminatesBlocks | src/codegen.c:241-274 | compilation keeps every block terminated by exactly one final `ret` |
| ProgramFacts.CompiledModuleIsTerminated | src/codegen.c:241-274 | every block of a module compiled from scratch ends with its only `ret` |
| ProgramFacts.Pass2KeepsSlots | src/codegen.c:257-273 | the slot table is not reset between functions: a slot outlives the function that created it |
| Driver.LastDot | src/main.c:106 | the position found holds the last '.', and none is found only when there is no '.' |
| Driver.LastDotIs | src/main.c:106 | a '.' with no '.' after it is the one found |
| Driver.StripExtension | src/main.c:100-114 | the result is a prefix of the input, and equals the input when there is no '.' |
| Driver.ReadCString | src/main.c:113 | the result is the buffer's contents up to its first NUL |
| Driver.Duplicate | src/main.c:101 | a fresh buffer holds the string and then a NUL |
| Driver.FindLastDot | src/main.c:106 | the scan finds the last '.' of the C string |
| Driver.RemoveExtension | src/main.c:100-114 | the copy, the scan and the overwrite return the name cut at its last '.' |
| Driver.StripWithoutDot | src/main.c:101-113 | a name without '.' comes back unchanged |
| Driver.StripAtLastDot | src/main.c:106-111 | the input is the result, then a '.', then a tail without '.' |
| Driver.StripIsPrefix | src/main.c:100-114 | the result is a prefix of the input, strictly shorter exactly when the input has a '.' |
| Driver.StripExamples | src/main.c:106-111 | "a.b.c" gives "a.b" and stripping twice gives "a", so it is not idempotent; "./prog" gives "" and "dir.d/prog" gives "dir" |
| Driver.Snprintf | src/main.c:61-62 | at most `size - 1` characters of the formatted text are kept, as a prefix, and all of it when it fits |
| Driver.ObjectName | src/main.c:61 | the object name is a prefix of base + ".o" of at most 255 characters |
| Driver.ExecutableName | src/main.c:62 | the executable name is a prefix of the base of at most 255 characters |
| Driver.LinkCommand | src/main.c:77-78 | the command is a prefix of `clang <obj> -o <exe>` of at most 511 characters |
| Driver.NameBounds | src/main.c:59-62 | both names have at most 255 characters; the object name is base + ".o" up to 253 characters of base, and equals the executable name from 255 on |
| Driver.LinkCommandOfShortBase | src/main.c:77-78 | with a base of at most 249 characters, the command is `clang <base>.o -o <base>` |
| Driver.RunMain | src/main.c:23-98 | fewer than two arguments or an unopenable file give 1; a failed parse gives 0; a fatal compile condition gives exit 1 or a crash; otherwise the module and both names go to the back end; a non-zero object or link status is returned unchanged; `-llvm` dumps the module |
| Driver.LinkFailureObservedAsSuccess | src/main.c:80-84 | a linker that exits normally with any code from 1 to 255 takes the failure branch, yet the parent observes status 0 |
| Driver.LinkFailureStatus | src/main.c:80-84 | the corrected status after a failed link lies between 1 and 255 |
| Driver.LinkFailureStatusIsFailure | src/main.c:80-84 | with the corrected status, a failed link is never observed as 0 |
| Driver.LinkFailureStatusRoundTrip | src/main.c:80-84 | the corrected status passes the linker's own exit code through unchanged |

## Left out

- `compile_to_object` (`src/codegen.c:276-302`) wraps LLVM's target machinery, which is not visible. `RunMain` takes its result as a parameter.
- The LLVM API itself is not modelled: types, pointers, names and verification are replaced by the abstract IR of module `Ir`.
- LLVM renames a function added under a name already taken. The model keeps the requested name, and `FindFunction` returns the first holder.
- Driver I/O is not modelled: `fopen`, `yyparse`, `LLVMDumpModule`, `system`, `fclose` and every message printed. Their outcomes are parameters of `RunMain`, and the dump is the `dumped` flag.
- `print_ast` (`src/ast.c:18-52`) only prints.
- `collect_args` (`src/codegen.c:145-155`) is not called by any code shown.
- Memory management is not modelled: `malloc`, `strdup`, `free`, allocations never freed, and the NULL returned when `strdup` fails.
- `Lowering.LowerExpr`: a NULL name is modelled as a crash. In C, `var_lookup` on an empty slot table returns NULL for a NULL name, which prints "variable (null) not defined" before `exit(1)`.
- `Lowering.LowerExpr`: the load type is the slot's pointer type, because the code uses `LLVMTypeOf(alloca_ref)`. Its LLVM meaning is not modelled.
- The "undefined function" diagnostic (`src/codegen.c:187-190`) has no model. It cannot be reached: a missing callee has already been dereferenced at line 181.
- `Codegen.CodeGen.GenerateExpr`, `GenerateLlvm`, `CompileProgram` and `Driver.RunMain` require every call to have at most ten arguments. More would overflow `args[10]`, which is undefined behaviour. `RunMain` needs this only when it reaches `compile_program`.
- Driver.Snprintf: a `char` stands for one byte, but the 256- and 512-byte buffers bound UTF-8 bytes. A multi-byte character cut in half is not captured.
- Driver.NameBounds: its 253- and 255-character limits are byte limits only when every character is one byte. With multi-byte characters, C truncates earlier than the model.
- Driver.LinkCommandOfShortBase: its 249-character limit assumes one byte per character, in the same way.
- Driver.RunMain: the object and executable names inherit the one-byte-per-character reading of `Snprintf`.
- The parser and lexer are not part of this model; `RunMain` receives the tree they produce.

## Findings

| source | as written | input that shows it | evidently intended | confidence | as-written member | corrected member |
|---|---|---|---|---|---|---|
| src/main.c:80-84 | `main` returns `system`'s result, a wait status whose exit code sits in bits 8-15, so the process exit status is its low byte | the linker exits 1, `system` returns 256, "could not compile object file" is printed, and the compiler exits with status 0 | exit with the linker's exit code (WEXITSTATUS), or 1 | not executed; assumes the usual glibc/BSD encoding of `system`'s result, exit code << 8 (POSIX only names WEXITSTATUS) | Driver.LinkFailureObservedAsSuccess | Driver.LinkFailureStatus |
