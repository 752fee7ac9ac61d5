/**
 * What the lowering stage of src/codegen.c computes, written as functions.
 *
 * Expression and statement lowering read the two tables and produce the
 * instructions they append at the builder's cursor (`Emitted`); the
 * program-level passes transform the whole compilation `State`: the module,
 * the builder cursor, `saved_block`, both tables and the register counter.
 * A fatal condition is an `Err`: the diagnostics followed by `exit(1)`, and
 * the NULL dereferences that crash the process instead.
 */
module Lowering {
  import opened Wrappers
  import opened Ast
  import opened Ir
  import opened Symtab

  /** Capacity of the `LLVMValueRef args[10]` buffer of a call. */
  const MaxArgs: nat := 10

  datatype Fatal =
    | ArityMismatch(expected: int, got: int)  // "expected %d arguments, got %d"
    | UndefinedVariable(name: string)         // "Error: variable %s not defined"
    | UnsupportedExpr(kind: NodeKind)         // "Error: unsupported expression node type %d"
    | NullFunction(name: string)              // crash: NULL table entry or function handle dereferenced
    | NullName(kind: NodeKind)                // crash: a node's NULL name reaches strcmp, strdup or LLVM

  /** The conditions that crash the process rather than print a diagnostic and exit with 1. */
  predicate IsCrash(f: Fatal) {
    f.NullFunction? || f.NullName?
  }

  datatype Result<T> = Ok(value: T) | Err(fatal: Fatal)

  /** Instructions appended at the cursor, global strings created, and the next free register. */
  datatype Emitted = Emitted(code: seq<Instr>, strings: seq<string>, nextReg: nat)

  function Then(a: Emitted, b: Emitted): Emitted {
    Emitted(a.code + b.code, a.strings + b.strings, b.nextReg)
  }

  datatype Lowered = Lowered(emitted: Emitted, value: Value)

  datatype ArgList = ArgList(emitted: Emitted, values: seq<Value>)

  datatype StmtOut = StmtOut(emitted: Emitted, varTable: seq<VarEntry>)

  // ---------------------------------------------------------------------
  // Expressions: generate_llvm_expr

  /**
   * Lowering of one (non-NULL) expression node, with registers numbered
   * from `reg`.  A call lowers its arguments first (left to right along
   * `left` and then `next`), then looks the callee up; a callee with no
   * entry is dereferenced at line 181 and crashes; a wrong argument count
   * is a diagnostic.  The "undefined function" branch after it cannot be
   * reached: an entry always carries a function handle.
   */
  function LowerExpr(ft: seq<FunctionEntry>, vt: seq<VarEntry>, e: Node, reg: nat): (r: Result<Lowered>)
    ensures r.Ok? ==> reg <= r.value.emitted.nextReg
    ensures r.Ok? && r.value.value.Reg? ==> reg <= r.value.value.id < r.value.emitted.nextReg
    decreases Size(e), 0
  {
    match e.kind
    case NodeNum => Ok(Lowered(Emitted([], [], reg), ConstI32(e.intValue)))
    case NodeStr =>
      if e.value.None? then Err(NullName(NodeStr))
      else Ok(Lowered(Emitted([], [e.value.value], reg), GlobalStr(e.value.value)))
    case NodeCall =>
      (match LowerArgs(ft, vt, e.left, ArgList(Emitted([], [], reg), []))
       case Err(f) => Err(f)
       case Ok(al) =>
         if e.value.None? then Err(NullName(NodeCall))
         else match FindEntry(ft, e.value.value)
           case None => Err(NullFunction(e.value.value))
           case Some(entry) =>
             if |al.values| != entry.arity then Err(ArityMismatch(entry.arity, |al.values|))
             else
               var id := al.emitted.nextReg;
               Ok(Lowered(Then(al.emitted, Emitted([Call(entry.funcRef, al.values, id)], [], id + 1)), Reg(id))))
    case NodeVar =>
      if e.value.None? then Err(NullName(NodeVar))
      else (match FindSlot(vt, e.value.value)
        case None => Err(UndefinedVariable(e.value.value))
        case Some(slot) =>
          Ok(Lowered(Emitted([Load(Pointer(I32), slot, e.value.value, reg)], [], reg + 1), Reg(reg))))
    case _ => Err(UnsupportedExpr(e.kind))
  }

  /** The argument loop, from argument `a` on, after the arguments already lowered into `acc`. */
  function LowerArgs(ft: seq<FunctionEntry>, vt: seq<VarEntry>, a: Option<Node>, acc: ArgList): (r: Result<ArgList>)
    ensures r.Ok? ==> acc.emitted.nextReg <= r.value.emitted.nextReg
    ensures r.Ok? ==> |r.value.values| == |acc.values| + |Chain(a)| && r.value.values[..|acc.values|] == acc.values
    decreases OptSize(a), 1
  {
    match a
    case None => Ok(acc)
    case Some(n) =>
      match LowerExpr(ft, vt, n, acc.emitted.nextReg)
      case Err(f) => Err(f)
      case Ok(l) => LowerArgs(ft, vt, n.next, ArgList(Then(acc.emitted, l.emitted), acc.values + [l.value]))
  }

  /** Every call reached by the lowering has at most `MaxArgs` arguments, so `args[argc++]` stays in bounds. */
  predicate ExprFits(e: Node)
    decreases Size(e), 0
  {
    e.kind == NodeCall ==> |Chain(e.left)| <= MaxArgs && ArgsFit(e.left)
  }

  predicate ArgsFit(a: Option<Node>)
    decreases OptSize(a), 1
  {
    match a
    case None => true
    case Some(n) => ExprFits(n) && ArgsFit(n.next)
  }

  // ---------------------------------------------------------------------
  // Statements: generate_llvm

  /** The call-statement loop, from `c` on along `right`: calls are lowered, other kinds skipped. */
  function LowerCallChain(ft: seq<FunctionEntry>, vt: seq<VarEntry>, c: Option<Node>, acc: Emitted): (r: Result<Emitted>)
    ensures r.Ok? ==> |acc.code| <= |r.value.code| && r.value.code[..|acc.code|] == acc.code
    ensures r.Ok? ==> acc.nextReg <= r.value.nextReg
    decreases c
  {
    match c
    case None => Ok(acc)
    case Some(n) =>
      if n.kind == NodeCall then
        match LowerExpr(ft, vt, n, acc.nextReg)
        case Err(f) => Err(f)
        case Ok(l) => LowerCallChain(ft, vt, n.right, Then(acc, l.emitted))
      else LowerCallChain(ft, vt, n.right, acc)
  }

  /**
   * One assignment: lower the right-hand side, then reuse the name's slot
   * or allocate an `i32` slot and register it, then store.
   */
  function LowerAssign(ft: seq<FunctionEntry>, vt: seq<VarEntry>, n: Node, reg: nat): (r: Result<StmtOut>)
    requires n.left.Some?
    ensures r.Ok? ==> (NoDupNames(vt) ==> NoDupNames(r.value.varTable))
  {
    match LowerExpr(ft, vt, n.left.value, reg)
    case Err(f) => Err(f)
    case Ok(l) =>
      if n.value.None? then Err(NullName(NodeVar))
      else
        var name := n.value.value;
        match FindSlot(vt, name)
        case Some(slot) =>
          Ok(StmtOut(Then(l.emitted, Emitted([Store(l.value, slot)], [], l.emitted.nextReg)), vt))
        case None =>
          var id := l.emitted.nextReg;
          InsertFreshKeepsNoDup(vt, VarEntry(name, Reg(id)));
          Ok(StmtOut(Then(l.emitted, Emitted([Alloca(I32, name, id), Store(l.value, Reg(id))], [], id + 1)),
                     [VarEntry(name, Reg(id))] + vt))
  }

  /** A function body: a chain of calls, one assignment, or nothing. */
  function LowerStmts(ft: seq<FunctionEntry>, vt: seq<VarEntry>, s: Option<Node>, reg: nat): (r: Result<StmtOut>)
    ensures r.Ok? ==> (NoDupNames(vt) ==> NoDupNames(r.value.varTable))
  {
    match s
    case None => Ok(StmtOut(Emitted([], [], reg), vt))
    case Some(n) =>
      if n.kind == NodeCall then
        match LowerCallChain(ft, vt, s, Emitted([], [], reg))
        case Err(f) => Err(f)
        case Ok(em) => Ok(StmtOut(em, vt))
      else if n.kind == NodeVar && n.left.Some? then LowerAssign(ft, vt, n, reg)
      else Ok(StmtOut(Emitted([], [], reg), vt))
  }

  predicate CallChainFits(c: Option<Node>)
    decreases c
  {
    match c
    case None => true
    case Some(n) => (n.kind == NodeCall ==> ExprFits(n)) && CallChainFits(n.right)
  }

  predicate StmtsFit(s: Option<Node>) {
    match s
    case None => true
    case Some(n) =>
      if n.kind == NodeCall then CallChainFits(s)
      else if n.kind == NodeVar && n.left.Some? then ExprFits(n.left.value)
      else true
  }

  /** Every function body on the top-level chain fits the argument buffer. */
  predicate ProgramFits(root: Option<Node>)
    decreases root
  {
    match root
    case None => true
    case Some(n) => (n.kind == NodeFunc ==> StmtsFit(n.left)) && ProgramFits(n.next)
  }

  // ---------------------------------------------------------------------
  // The compilation state and the program-level passes

  datatype State = State(
    functions: seq<Function>,             // the module
    strings: seq<string>,                 // the module's global strings
    cursor: Option<Cursor>,               // the builder's insertion block
    savedBlock: Option<Cursor>,           // saved_block
    functionTable: seq<FunctionEntry>,    // function_table
    varTable: seq<VarEntry>,              // var_table
    nextReg: nat)

  /** A fresh module and builder, and the C globals' initial NULLs. */
  const Initial := State([], [], None, None, [], [], 0)

  predicate Positioned(st: State) {
    st.cursor.Some? && ValidCursor(st.functions, st.cursor.value)
  }

  /**
   * The invariant of the lowering state: every table entry holds a handle
   * of a function of the module, the cursor (if any) names a block, and no
   * name has two slots.
   */
  predicate WellFormed(st: State) {
    && (forall e :: e in st.functionTable ==> e.funcRef.FuncRef? && e.funcRef.index < |st.functions|)
    && (st.cursor.Some? ==> ValidCursor(st.functions, st.cursor.value))
    && NoDupNames(st.varTable)
  }

  /** The state after appending what `em` describes at the cursor. */
  function Absorb(st: State, em: Emitted): (r: State)
    requires Positioned(st)
    ensures Positioned(r) && r.cursor == st.cursor && |r.functions| == |st.functions|
  {
    st.(functions := Extend(st.functions, st.cursor.value, em.code),
        strings := st.strings + em.strings,
        nextReg := em.nextReg)
  }

  /** Appending two pieces one after the other is appending their concatenation. */
  lemma AbsorbThen(st: State, a: Emitted, b: Emitted)
    requires Positioned(st)
    ensures Absorb(Absorb(st, a), b) == Absorb(st, Then(a, b))
  {
    ExtendTwice(st.functions, st.cursor.value, a.code, b.code);
    assert st.strings + a.strings + b.strings == st.strings + (a.strings + b.strings);
  }

  lemma AbsorbNothing(st: State)
    requires Positioned(st)
    ensures Absorb(st, Emitted([], [], st.nextReg)) == st
  {
    ExtendNothing(st.functions, st.cursor.value);
    assert st.strings + [] == st.strings;
  }

  /** `LLVMAddFunction`: a new function without blocks at the end of the module. */
  function AddFunction(st: State, name: string, params: seq<IrType>, varArg: bool): State {
    st.(functions := st.functions + [Function(name, params, varArg, [])])
  }

  /** `get_or_declare_printf`: the existing `printf`, or a new `i32 (i8*, ...)` declaration. */
  function DeclarePrintf(st: State): (r: (State, Value))
    ensures r.1.FuncRef? && r.1.index < |r.0.functions| && r.0.functions[r.1.index].name == "printf"
    ensures |st.functions| <= |r.0.functions| <= |st.functions| + 1 && r.0.functions[..|st.functions|] == st.functions
    ensures r.0.(functions := st.functions) == st
  {
    match FindFunction(st.functions, "printf")
    case Some(i) => (st, FuncRef(i))
    case None => (AddFunction(st, "printf", [Pointer(I8)], true), FuncRef(|st.functions|))
  }

  /** One built-in: `i32 name(i8*)` whose entry block calls printf(fmt, arg) and returns 0. */
  function DefineShim(st: State, name: string, fmt: string, printf: Value): (r: State)
    ensures |r.functions| == |st.functions| + 1 && r.functions[..|st.functions|] == st.functions
    ensures r.functions[|st.functions|].name == name && r.functions[|st.functions|].params == [Pointer(I8)]
    ensures FindEntry(r.functionTable, name) == Some(FunctionEntry(name, FuncRef(|st.functions|), 1))
    ensures Positioned(r) && r.cursor == Some(AtEnd(|st.functions|, 0))
  {
    var k := |st.functions|;
    var id := st.nextReg;
    var body := [Call(printf, [GlobalStr(fmt), Param(k, 0)], id), Ret(ConstI32(0))];
    st.(functions := st.functions + [Function(name, [Pointer(I8)], false, [body])],
        functionTable := [FunctionEntry(name, FuncRef(k), 1)] + st.functionTable,
        strings := st.strings + [fmt],
        cursor := Some(AtEnd(k, 0)),
        nextReg := id + 1)
  }

  /** `declare_out_functions`. */
  function DeclareOut(st: State): (r: State)
    ensures WellFormed(st) ==> WellFormed(r)
  {
    var (st1, printf) := DeclarePrintf(st);
    var st2 := st1.(savedBlock := st1.cursor);
    var st3 := DefineShim(st2, "outs", "%s", printf);
    var st4 := DefineShim(st3, "out", "%s\n", printf);
    if st4.savedBlock.Some? then st4.(cursor := st4.savedBlock) else st4
  }

  /** Pass 1 from `curr` on: declare `i32 name()` for each function node and register it with arity 0. */
  function Pass1(st: State, curr: Option<Node>): (r: Result<State>)
    requires WellFormed(st)
    ensures r.Ok? ==> WellFormed(r.value)
    decreases curr
  {
    match curr
    case None => Ok(st)
    case Some(n) =>
      if n.kind != NodeFunc then Pass1(st, n.next)
      else if n.value.None? then Err(NullName(NodeFunc))
      else
        var k := |st.functions|;
        var st1 := AddFunction(st, n.value.value, [], false);
        Pass1(st1.(functionTable := [FunctionEntry(n.value.value, FuncRef(k), 0)] + st1.functionTable), n.next)
  }

  /** `LLVMAppendBasicBlock` to function `i` followed by `LLVMPositionBuilderAtEnd` on the new block. */
  function OpenBlock(st: State, i: nat): (r: State)
    requires i < |st.functions|
    ensures Positioned(r) && |r.functions| == |st.functions|
    ensures r.cursor == Some(AtEnd(i, |st.functions[i].blocks|))
    ensures r.functions[i] == st.functions[i].(blocks := st.functions[i].blocks + [[]])
    ensures forall j :: 0 <= j < |st.functions| && j != i ==> r.functions[j] == st.functions[j]
    ensures r.(functions := st.functions, cursor := st.cursor) == st
  {
    var f := st.functions[i];
    st.(functions := st.functions[i := f.(blocks := f.blocks + [[]])],
        cursor := Some(AtEnd(i, |f.blocks|)))
  }

  /** The value of the `ret` closing a function node's body: `right->int_value`, or 0. */
  function ReturnLiteral(n: Node): int32 {
    if n.right.Some? then n.right.value.intValue else 0
  }

  /**
   * One step of pass 2, for a function node: look up its handle, open a
   * fresh block in that function, lower the body there and append the
   * `ret`.
   */
  function DefineFunction(st: State, n: Node): (r: Result<State>)
    requires WellFormed(st)
    ensures r.Ok? ==> WellFormed(r.value) && r.value.functionTable == st.functionTable
    ensures r.Ok? ==> |r.value.functions| == |st.functions| && r.value.savedBlock == st.savedBlock
  {
    if n.value.None? then Err(NullName(NodeFunc))
    else match FindEntry(st.functionTable, n.value.value)
      case None => Err(NullFunction(n.value.value))
      case Some(entry) =>
        var st1 := OpenBlock(st, entry.funcRef.index);
        match LowerStmts(st1.functionTable, st1.varTable, n.left, st1.nextReg)
        case Err(f) => Err(f)
        case Ok(o) =>
          var ret := Emitted([Ret(ConstI32(ReturnLiteral(n)))], [], o.emitted.nextReg);
          Ok(Absorb(st1, Then(o.emitted, ret)).(varTable := o.varTable))
  }

  /** Pass 2 from `curr` on. */
  function Pass2(st: State, curr: Option<Node>): (r: Result<State>)
    requires WellFormed(st)
    ensures r.Ok? ==> WellFormed(r.value) && r.value.functionTable == st.functionTable
    ensures r.Ok? ==> |r.value.functions| == |st.functions| && r.value.savedBlock == st.savedBlock
    decreases curr
  {
    match curr
    case None => Ok(st)
    case Some(n) =>
      if n.kind != NodeFunc then Pass2(st, n.next)
      else match DefineFunction(st, n)
        case Err(f) => Err(f)
        case Ok(st1) => Pass2(st1, n.next)
  }

  /** `compile_program`: the built-ins, then pass 1 over the whole chain, then pass 2. */
  function Compile(st: State, root: Option<Node>): (r: Result<State>)
    requires WellFormed(st)
    ensures r.Ok? ==> WellFormed(r.value)
  {
    var st1 := DeclareOut(st);
    match Pass1(st1, root)
    case Err(f) => Err(f)
    case Ok(st2) => Pass2(st2, root)
  }
}
