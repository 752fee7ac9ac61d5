/**
 * Whole-program properties of `compile_program` (src/codegen.c): the
 * built-ins, pass 1's registrations and their shadowing, the block pass 2
 * opens for each function node, and the termination of every block.
 */
module ProgramFacts {
  import opened Wrappers
  import opened Ast
  import opened Ir
  import opened Symtab
  import opened Lowering
  import opened LoweringFacts

  // ---------------------------------------------------------------------
  // printf and the two built-ins

  /**
   * `printf` is declared at most once: once `get_or_declare_printf` has
   * run, the module holds a function named `printf` at the handle it
   * returned, and asking again changes nothing and returns the same handle.
   */
  lemma PrintfDeclaredOnce(st: State)
    ensures var (st1, p) := DeclarePrintf(st);
      && p.FuncRef? && FindFunction(st1.functions, "printf") == Some(p.index)
      && st1.functions[p.index].name == "printf"
      && DeclarePrintf(st1) == (st1, p)
      && st1.functions[..|st.functions|] == st.functions
      && (FindFunction(st.functions, "printf").None? ==>
            st1.functions[p.index] == Function("printf", [Pointer(I8)], true, []))
  {
    if FindFunction(st.functions, "printf").None? {
      FindFunctionAppend(st.functions, Function("printf", [Pointer(I8)], true, []), "printf");
    }
  }

  /** The body of a built-in at handle `k`: call printf with `fmt` and the parameter, return 0. */
  function ShimBody(printf: Value, fmt: string, k: nat, id: nat): Block {
    [Call(printf, [GlobalStr(fmt), Param(k, 0)], id), Ret(ConstI32(0))]
  }

  /**
   * `declare_out_functions` appends `outs` and then `out` after printf,
   * each `i32 (i8*)` with one block that calls printf with "%s" or "%s\n"
   * and its parameter and returns 0, and adds their two strings; the
   * builder goes back to the block it was in, if it was in one, and
   * otherwise stays in `out`'s block.
   */
  lemma BuiltinsDeclared(st: State)
    ensures var (st1, p) := DeclarePrintf(st);
      var k := |st1.functions|;
      var r := DeclareOut(st);
      && r.functions == st1.functions + [
           Function("outs", [Pointer(I8)], false, [ShimBody(p, "%s", k, st.nextReg)]),
           Function("out", [Pointer(I8)], false, [ShimBody(p, "%s\n", k + 1, st.nextReg + 1)])]
      && r.cursor == (if st.cursor.Some? then st.cursor else Some(AtEnd(k + 1, 0)))
      && r.savedBlock == st.cursor && r.varTable == st.varTable
      && r.strings == st.strings + ["%s", "%s\n"] && r.nextReg == st.nextReg + 2
  {
  }

  /**
   * Both built-ins are registered with arity 1, `out` nearer the head;
   * every other name resolves as before.
   */
  lemma BuiltinsRegistered(st: State)
    ensures var k := |DeclarePrintf(st).0.functions|;
      var t := DeclareOut(st).functionTable;
      && t == [FunctionEntry("out", FuncRef(k + 1), 1), FunctionEntry("outs", FuncRef(k), 1)] + st.functionTable
      && FindEntry(t, "outs") == Some(FunctionEntry("outs", FuncRef(k), 1))
      && FindEntry(t, "out") == Some(FunctionEntry("out", FuncRef(k + 1), 1))
      && (forall g :: g != "out" && g != "outs" ==> FindEntry(t, g) == FindEntry(st.functionTable, g))
  {
    var k := |DeclarePrintf(st).0.functions|;
    var t1 := [FunctionEntry("outs", FuncRef(k), 1)] + st.functionTable;
    var t := DeclareOut(st).functionTable;
    assert t == [FunctionEntry("out", FuncRef(k + 1), 1)] + t1;
    assert [FunctionEntry("out", FuncRef(k + 1), 1)] + t1
        == [FunctionEntry("out", FuncRef(k + 1), 1), FunctionEntry("outs", FuncRef(k), 1)] + st.functionTable;
    forall g ensures FindEntry(t, g) == if g == "out" then Some(FunctionEntry("out", FuncRef(k + 1), 1))
                     else if g == "outs" then Some(FunctionEntry("outs", FuncRef(k), 1))
                     else FindEntry(st.functionTable, g) {
      LookupAfterInsert(st.functionTable, FunctionEntry("outs", FuncRef(k), 1), g);
      LookupAfterInsert(t1, FunctionEntry("out", FuncRef(k + 1), 1), g);
    }
  }

  // ---------------------------------------------------------------------
  // Pass 1

  /** Some function node on the `next` chain from `curr` is named `g`. */
  predicate Declares(curr: Option<Node>, g: string)
    decreases curr
  {
    match curr
    case None => false
    case Some(n) => (n.kind == NodeFunc && n.value == Some(g)) || Declares(n.next, g)
  }

  /** Every function node on the `next` chain from `curr` has a name. */
  predicate FunctionsNamed(curr: Option<Node>)
    decreases curr
  {
    match curr
    case None => true
    case Some(n) => (n.kind == NodeFunc ==> n.value.Some?) && FunctionsNamed(n.next)
  }

  /** The declarations pass 1 appends: one bodiless `i32 name()` per function node, in chain order. */
  function Declarations(curr: Option<Node>): (ds: seq<Function>)
    requires FunctionsNamed(curr)
    decreases curr
  {
    match curr
    case None => []
    case Some(n) =>
      if n.kind == NodeFunc then [Function(n.value.value, [], false, [])] + Declarations(n.next)
      else Declarations(n.next)
  }

  /**
   * Pass 1 fails only on a nameless function node.  When it succeeds it
   * has appended one declaration per function node, in order, and touched nothing
   * else but the function table, where every declared name now resolves,
   * with arity 0, to one of the new declarations carrying that name (the
   * last function node with the name wins), and every other name resolves
   * as before.  So a program's own `out` or `outs` shadows the built-in.
   */
  lemma {:induction false} Pass1Registers(st: State, curr: Option<Node>)
    requires WellFormed(st)
    ensures Pass1(st, curr).Ok? <==> FunctionsNamed(curr)
    ensures Pass1(st, curr).Ok? ==>
              var r := Pass1(st, curr).value;
              && r.functions == st.functions + Declarations(curr)
              && (forall g :: Declares(curr, g) ==>
                    && FindEntry(r.functionTable, g).Some?
                    && FindEntry(r.functionTable, g).value.arity == 0
                    && FindEntry(r.functionTable, g).value.funcRef.FuncRef?
                    && |st.functions| <= FindEntry(r.functionTable, g).value.funcRef.index < |r.functions|
                    && r.functions[FindEntry(r.functionTable, g).value.funcRef.index] == Function(g, [], false, []))
              && (forall g :: !Declares(curr, g) ==> FindEntry(r.functionTable, g) == FindEntry(st.functionTable, g))
              && r.(functions := st.functions, functionTable := st.functionTable) == st
    decreases curr
  {
    match curr
    case None =>
    case Some(n) =>
      if n.kind != NodeFunc {
        Pass1Registers(st, n.next);
      } else if n.value.Some? {
        var h := n.value.value;
        var k := |st.functions|;
        var e := FunctionEntry(h, FuncRef(k), 0);
        var st1 := AddFunction(st, h, [], false).(functionTable := [e] + st.functionTable);
        Pass1Registers(st1, n.next);
        if Pass1(st, curr).Ok? {
          var r := Pass1(st, curr).value;
          assert r == Pass1(st1, n.next).value;
          assert r.functions == st.functions + ([Function(h, [], false, [])] + Declarations(n.next));
          assert r.functions[k] == Function(h, [], false, []);
          forall g ensures FindEntry(st1.functionTable, g) == if h == g then Some(e) else FindEntry(st.functionTable, g) {
            LookupAfterInsert(st.functionTable, e, g);
          }
        }
      }
  }

  /**
   * Forward references: pass 2 lowers every body under the table pass 1
   * left, which does not change while pass 2 runs; so a call with no
   * arguments to any function the program defines resolves in every body,
   * whichever comes first in the source.
   */
  lemma ForwardCallResolves(st: State, root: Option<Node>, e: Node, vt: seq<VarEntry>)
    requires WellFormed(st) && Pass1(DeclareOut(st), root).Ok?
    requires e.kind == NodeCall && e.left.None? && e.value.Some? && Declares(root, e.value.value)
    ensures Resolves(Pass1(DeclareOut(st), root).value.functionTable, vt, e)
    ensures Compile(st, root).Ok? ==> Compile(st, root).value.functionTable == Pass1(DeclareOut(st), root).value.functionTable
  {
    Pass1Registers(DeclareOut(st), root);
  }

  /**
   * Which `out`/`outs` a body calls: the program's own zero-argument
   * function when it defines one under that name, otherwise the one-
   * argument built-in.
   */
  lemma BuiltinShadowing(st: State, root: Option<Node>, g: string)
    requires WellFormed(st) && Pass1(DeclareOut(st), root).Ok?
    requires g == "out" || g == "outs"
    ensures var t := Pass1(DeclareOut(st), root).value.functionTable;
      var k := |DeclarePrintf(st).0.functions|;
      && FindEntry(t, g).Some?
      && (Declares(root, g) ==> FindEntry(t, g).value.arity == 0 && FindEntry(t, g).value.funcRef.index >= k + 2)
      && (!Declares(root, g) ==>
            FindEntry(t, g) == Some(FunctionEntry(g, FuncRef(if g == "outs" then k else k + 1), 1)))
  {
    BuiltinsRegistered(st);
    Pass1Registers(DeclareOut(st), root);
  }

  // ---------------------------------------------------------------------
  // Pass 2

  /**
   * Defining one function node appends exactly one block to the function
   * its name resolves to: the lowered body followed by one `ret` of the
   * node's return literal (0 without one).  No other function changes,
   * the builder is left at that block, and the body's slots are kept.
   */
  lemma DefineFunctionAppendsBlock(st: State, n: Node)
    requires WellFormed(st) && DefineFunction(st, n).Ok?
    ensures n.value.Some? && FindEntry(st.functionTable, n.value.value).Some?
    ensures var i := FindEntry(st.functionTable, n.value.value).value.funcRef.index;
      var o := LowerStmts(st.functionTable, st.varTable, n.left, st.nextReg).value;
      var r := DefineFunction(st, n).value;
      && i < |st.functions| && LowerStmts(st.functionTable, st.varTable, n.left, st.nextReg).Ok?
      && r.functions[i] ==
           st.functions[i].(blocks := st.functions[i].blocks + [o.emitted.code + [Ret(ConstI32(ReturnLiteral(n)))]])
      && (forall j :: 0 <= j < |st.functions| && j != i ==> r.functions[j] == st.functions[j])
      && r.cursor == Some(AtEnd(i, |st.functions[i].blocks|))
      && r.varTable == o.varTable && r.strings == st.strings + o.emitted.strings
      && r.nextReg == o.emitted.nextReg
  {
    var entry := FindEntry(st.functionTable, n.value.value).value;
    assert entry in st.functionTable;
    var i := entry.funcRef.index;
    var st1 := OpenBlock(st, i);
    var o := LowerStmts(st1.functionTable, st1.varTable, n.left, st1.nextReg).value;
    var code := o.emitted.code + [Ret(ConstI32(ReturnLiteral(n)))];
    var r := DefineFunction(st, n).value;
    var f := st.functions[i];
    var fr := r.functions[i];
    assert st1.functions[i].blocks == f.blocks + [[]];
    assert fr.blocks == f.blocks + [code] by {
      assert |fr.blocks| == |f.blocks| + 1;
      forall b | 0 <= b < |fr.blocks| ensures fr.blocks[b] == (f.blocks + [code])[b] {
        if b < |f.blocks| {
          assert st1.functions[i].blocks[b] == f.blocks[b];
        } else {
          assert st1.functions[i].blocks[b] == [];
          assert [] + code == code;
        }
      }
    }
  }

  /** A block ends with its only `ret`. */
  predicate Terminated(b: Block) {
    |b| > 0 && b[|b| - 1].Ret? && RetFree(b[..|b| - 1])
  }

  predicate AllTerminated(fs: seq<Function>) {
    forall i, j :: 0 <= i < |fs| && 0 <= j < |fs[i].blocks| ==> Terminated(fs[i].blocks[j])
  }

  lemma PrintfKeepsTerminated(st: State)
    requires AllTerminated(st.functions)
    ensures AllTerminated(DeclarePrintf(st).0.functions)
  {
    if FindFunction(st.functions, "printf").None? {
      var fs := DeclarePrintf(st).0.functions;
      assert forall i :: 0 <= i < |st.functions| ==> fs[i] == st.functions[i];
      assert fs[|st.functions|].blocks == [];
    }
  }

  lemma DeclareOutKeepsTerminated(st: State)
    requires AllTerminated(st.functions)
    ensures AllTerminated(DeclareOut(st).functions)
  {
    var (st1, p) := DeclarePrintf(st);
    var k := |st1.functions|;
    PrintfKeepsTerminated(st);
    BuiltinsDeclared(st);
    var b1 := ShimBody(p, "%s", k, st.nextReg);
    var b2 := ShimBody(p, "%s\n", k + 1, st.nextReg + 1);
    assert b1[..1] == [b1[0]] && b2[..1] == [b2[0]];
    assert Terminated(b1) && Terminated(b2);
    var fs := DeclareOut(st).functions;
    assert forall i :: 0 <= i < k ==> fs[i] == st1.functions[i];
  }

  lemma {:induction false} Pass1KeepsTerminated(st: State, curr: Option<Node>)
    requires WellFormed(st) && AllTerminated(st.functions) && Pass1(st, curr).Ok?
    ensures AllTerminated(Pass1(st, curr).value.functions)
    decreases curr
  {
    match curr
    case None =>
    case Some(n) =>
      if n.kind != NodeFunc {
        Pass1KeepsTerminated(st, n.next);
      } else {
        var st1 := AddFunction(st, n.value.value, [], false);
        Pass1KeepsTerminated(st1.(functionTable := [FunctionEntry(n.value.value, FuncRef(|st.functions|), 0)] + st1.functionTable), n.next);
      }
  }

  lemma DefineFunctionKeepsTerminated(st: State, n: Node)
    requires WellFormed(st) && AllTerminated(st.functions) && DefineFunction(st, n).Ok?
    ensures AllTerminated(DefineFunction(st, n).value.functions)
  {
    DefineFunctionAppendsBlock(st, n);
    var i := FindEntry(st.functionTable, n.value.value).value.funcRef.index;
    var o := LowerStmts(st.functionTable, st.varTable, n.left, st.nextReg).value;
    StmtsLowering(st.functionTable, st.varTable, n.left, st.nextReg);
    var b := o.emitted.code + [Ret(ConstI32(ReturnLiteral(n)))];
    assert b[..|b| - 1] == o.emitted.code;
    var r := DefineFunction(st, n).value;
    forall j | 0 <= j < |r.functions[i].blocks| ensures Terminated(r.functions[i].blocks[j]) {
      if j < |st.functions[i].blocks| {
        assert r.functions[i].blocks[j] == st.functions[i].blocks[j];
      }
    }
  }

  lemma {:induction false} Pass2KeepsTerminated(st: State, curr: Option<Node>)
    requires WellFormed(st) && AllTerminated(st.functions) && Pass2(st, curr).Ok?
    ensures AllTerminated(Pass2(st, curr).value.functions)
    decreases curr
  {
    match curr
    case None =>
    case Some(n) =>
      if n.kind != NodeFunc {
        Pass2KeepsTerminated(st, n.next);
      } else {
        DefineFunctionKeepsTerminated(st, n);
        Pass2KeepsTerminated(DefineFunction(st, n).value, n.next);
      }
  }

  /**
   * Every block of a compiled module ends with exactly one `ret`, its
   * last instruction, provided every block it started with did; in
   * particular for a compilation from the empty module.
   */
  lemma CompileTerminatesBlocks(st: State, root: Option<Node>)
    requires WellFormed(st) && AllTerminated(st.functions) && Compile(st, root).Ok?
    ensures AllTerminated(Compile(st, root).value.functions)
  {
    DeclareOutKeepsTerminated(st);
    Pass1KeepsTerminated(DeclareOut(st), root);
    Pass2KeepsTerminated(Pass1(DeclareOut(st), root).value, root);
  }

  lemma CompiledModuleIsTerminated(root: Option<Node>)
    ensures WellFormed(Initial)
    ensures Compile(Initial, root).Ok? ==> AllTerminated(Compile(Initial, root).value.functions)
  {
    if Compile(Initial, root).Ok? {
      CompileTerminatesBlocks(Initial, root);
    }
  }

  /**
   * The slot table is never reset between function nodes: a slot
   * registered before pass 2 reaches a function node is still the one its
   * name resolves to after the whole pass.
   */
  lemma {:induction false} Pass2KeepsSlots(st: State, curr: Option<Node>)
    requires WellFormed(st) && Pass2(st, curr).Ok?
    ensures forall x :: FindSlot(st.varTable, x).Some? ==> FindSlot(Pass2(st, curr).value.varTable, x) == FindSlot(st.varTable, x)
    decreases curr
  {
    match curr
    case None =>
    case Some(n) =>
      if n.kind != NodeFunc {
        Pass2KeepsSlots(st, n.next);
      } else {
        DefineFunctionAppendsBlock(st, n);
        StmtsLowering(st.functionTable, st.varTable, n.left, st.nextReg);
        Pass2KeepsSlots(DefineFunction(st, n).value, n.next);
      }
  }
}
