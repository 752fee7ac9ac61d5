/**
 * The lowering stage of src/codegen.c as the imperative program it is: the
 * global list heads, the module, the builder and `saved_block` are the
 * fields of one object, and each C function is a method that updates them
 * step by step.  The lowering methods are proved to leave exactly the
 * state that the corresponding function of module `Lowering` describes;
 * the table walks are proved against `Symtab.FindEntry` and `FindSlot`,
 * `GetNamedFunction` against `Ir.FindFunction`, and the table and builder
 * primitives state their new state directly.  What the lowering promises
 * is proved about those functions (modules `LoweringFacts` and `ProgramFacts`).
 */
module Codegen {
  import opened Wrappers
  import opened Ast
  import opened Ir
  import opened Symtab
  import opened Lowering

  /** How a routine that returns `void` in C ends: normally, or through a fatal condition. */
  datatype Status = Completed | Aborted(fatal: Fatal)

  class CodeGen {
    var functions: seq<Function>
    var strings: seq<string>
    var cursor: Option<Cursor>
    var savedBlock: Option<Cursor>
    var functionTable: seq<FunctionEntry>
    var varTable: seq<VarEntry>
    var nextReg: nat

    function Snap(): State
      reads this
    {
      State(functions, strings, cursor, savedBlock, functionTable, varTable, nextReg)
    }

    /** A fresh module and builder; both tables and `saved_block` NULL. */
    constructor ()
      ensures Snap() == Initial
    {
      functions, strings, cursor, savedBlock := [], [], None, None;
      functionTable, varTable, nextReg := [], [], 0;
    }

    // -------------------------------------------------------------------
    // The two tables (codegen.c:33-77)

    /** `symtab_insert`: a new entry at the head. */
    method SymtabInsert(name: string, func: Value, arity: int)
      modifies this
      ensures Snap() == old(Snap()).(functionTable := [FunctionEntry(name, func, arity)] + old(functionTable))
    {
      functionTable := [FunctionEntry(name, func, arity)] + functionTable;
    }

    /** `symtab_lookup`: the handle of the entry nearest the head named `name`, or NULL. */
    method SymtabLookup(name: string) returns (r: Option<Value>)
      ensures r.None? <==> FindEntry(functionTable, name).None?
      ensures r.Some? ==> r.value == FindEntry(functionTable, name).value.funcRef
    {
      var i := 0;
      while i < |functionTable|
        invariant 0 <= i <= |functionTable|
        invariant FindEntry(functionTable, name) == FindEntry(functionTable[i..], name)
      {
        if functionTable[i].name == name {
          return Some(functionTable[i].funcRef);
        }
        assert functionTable[i..][1..] == functionTable[i + 1..];
        i := i + 1;
      }
      return None;
    }

    /** `symtab_lookup_entry`: the entry nearest the head named `name`, or NULL. */
    method SymtabLookupEntry(name: string) returns (r: Option<FunctionEntry>)
      ensures r == FindEntry(functionTable, name)
    {
      var i := 0;
      while i < |functionTable|
        invariant 0 <= i <= |functionTable|
        invariant FindEntry(functionTable, name) == FindEntry(functionTable[i..], name)
      {
        if functionTable[i].name == name {
          return Some(functionTable[i]);
        }
        assert functionTable[i..][1..] == functionTable[i + 1..];
        i := i + 1;
      }
      return None;
    }

    /** `var_insert`: a new slot entry at the head. */
    method VarInsert(name: string, allocaRef: Value)
      modifies this
      ensures Snap() == old(Snap()).(varTable := [VarEntry(name, allocaRef)] + old(varTable))
    {
      varTable := [VarEntry(name, allocaRef)] + varTable;
    }

    /** `var_lookup`: the slot of the entry nearest the head named `name`, or NULL. */
    method VarLookup(name: string) returns (r: Option<Value>)
      ensures r == FindSlot(varTable, name)
    {
      var i := 0;
      while i < |varTable|
        invariant 0 <= i <= |varTable|
        invariant FindSlot(varTable, name) == FindSlot(varTable[i..], name)
      {
        if varTable[i].name == name {
          return Some(varTable[i].allocaRef);
        }
        assert varTable[i..][1..] == varTable[i + 1..];
        i := i + 1;
      }
      return None;
    }

    // -------------------------------------------------------------------
    // The builder and module calls the lowering makes

    method AddFunction(name: string, params: seq<IrType>, varArg: bool) returns (f: Value)
      modifies this
      ensures Snap() == Lowering.AddFunction(old(Snap()), name, params, varArg)
      ensures f == FuncRef(|old(functions)|)
    {
      f := FuncRef(|functions|);
      functions := functions + [Function(name, params, varArg, [])];
    }

    method GetNamedFunction(name: string) returns (r: Option<Value>)
      ensures r == match FindFunction(functions, name) case None => None case Some(i) => Some(FuncRef(i))
    {
      var i := 0;
      while i < |functions|
        invariant 0 <= i <= |functions|
        invariant forall j :: 0 <= j < i ==> functions[j].name != name
      {
        if functions[i].name == name {
          return Some(FuncRef(i));
        }
        i := i + 1;
      }
      return None;
    }

    /** `LLVMAppendBasicBlock`: a new empty block at the end of function `f`. */
    method AppendBasicBlock(f: Value) returns (b: Cursor)
      requires f.FuncRef? && f.index < |functions|
      modifies this
      ensures b == AtEnd(f.index, |old(functions)[f.index].blocks|) && ValidCursor(functions, b)
      ensures Snap() == old(Snap()).(functions := old(functions)[f.index := old(functions)[f.index].(
                          blocks := old(functions)[f.index].blocks + [[]])])
    {
      var fn := functions[f.index];
      b := AtEnd(f.index, |fn.blocks|);
      functions := functions[f.index := fn.(blocks := fn.blocks + [[]])];
    }

    method PositionBuilderAtEnd(b: Cursor)
      requires ValidCursor(functions, b)
      modifies this
      ensures Snap() == old(Snap()).(cursor := Some(b))
    {
      cursor := Some(b);
    }

    method GetInsertBlock() returns (b: Option<Cursor>)
      ensures b == cursor
    {
      b := cursor;
    }

    /** Appends one instruction at the cursor. */
    method Insert(ins: Instr)
      requires Positioned(Snap())
      modifies this
      ensures Snap() == old(Snap()).(functions := Extend(old(functions), old(cursor).value, [ins]))
    {
      functions := Extend(functions, cursor.value, [ins]);
    }

    /** Appends an instruction numbered with the next register; returns that register. */
    method InsertNumbered(ins: nat -> Instr) returns (v: Value)
      requires Positioned(Snap())
      modifies this
      ensures Snap() == Absorb(old(Snap()), Emitted([ins(old(nextReg))], [], old(nextReg) + 1))
      ensures v == Reg(old(nextReg))
    {
      var id := nextReg;
      nextReg := nextReg + 1;
      Insert(ins(id));
      v := Reg(id);
      assert old(strings) + [] == old(strings);
    }

    method BuildCall(callee: Value, args: seq<Value>) returns (v: Value)
      requires Positioned(Snap())
      modifies this
      ensures Snap() == Absorb(old(Snap()), Emitted([Call(callee, args, old(nextReg))], [], old(nextReg) + 1))
      ensures v == Reg(old(nextReg))
    {
      v := InsertNumbered((id: nat) => Call(callee, args, id));
    }

    method BuildAlloca(ty: IrType, name: string) returns (v: Value)
      requires Positioned(Snap())
      modifies this
      ensures Snap() == Absorb(old(Snap()), Emitted([Alloca(ty, name, old(nextReg))], [], old(nextReg) + 1))
      ensures v == Reg(old(nextReg))
    {
      v := InsertNumbered((id: nat) => Alloca(ty, name, id));
    }

    method BuildLoad(ty: IrType, slot: Value, name: string) returns (v: Value)
      requires Positioned(Snap())
      modifies this
      ensures Snap() == Absorb(old(Snap()), Emitted([Load(ty, slot, name, old(nextReg))], [], old(nextReg) + 1))
      ensures v == Reg(old(nextReg))
    {
      v := InsertNumbered((id: nat) => Load(ty, slot, name, id));
    }

    method BuildStore(val: Value, slot: Value)
      requires Positioned(Snap())
      modifies this
      ensures Snap() == Absorb(old(Snap()), Emitted([Store(val, slot)], [], old(nextReg)))
    {
      Insert(Store(val, slot));
      assert old(strings) + [] == old(strings);
    }

    method BuildRet(val: Value)
      requires Positioned(Snap())
      modifies this
      ensures Snap() == Absorb(old(Snap()), Emitted([Ret(val)], [], old(nextReg)))
    {
      Insert(Ret(val));
      assert old(strings) + [] == old(strings);
    }

    /** `LLVMBuildGlobalStringPtr`: a new global string; no instruction. */
    method BuildGlobalStringPtr(text: string) returns (v: Value)
      requires Positioned(Snap())
      modifies this
      ensures Snap() == Absorb(old(Snap()), Emitted([], [text], old(nextReg)))
      ensures v == GlobalStr(text)
    {
      ExtendNothing(functions, cursor.value);
      strings := strings + [text];
      v := GlobalStr(text);
    }

    // -------------------------------------------------------------------
    // The built-ins (codegen.c:82-143)

    /** `get_or_declare_printf`. */
    method GetOrDeclarePrintf() returns (printf: Value)
      modifies this
      ensures (Snap(), printf) == DeclarePrintf(old(Snap()))
    {
      var existing := GetNamedFunction("printf");
      if existing.Some? {
        return existing.value;
      }
      printf := AddFunction("printf", [Pointer(I8)], true);
    }

    /** One of the two blocks of `declare_out_functions` that define `outs` and `out`. */
    method DefineOutShim(name: string, fmt: string, printf: Value)
      modifies this
      ensures Snap() == Lowering.DefineShim(old(Snap()), name, fmt, printf)
    {
      ghost var fs := functions;
      ghost var k := |fs|;
      ghost var id := nextReg;
      var func := AddFunction(name, [Pointer(I8)], false);
      SymtabInsert(name, func, 1);
      ghost var shim := Function(name, [Pointer(I8)], false, []);
      assert functions == fs + [shim];
      var entry := AppendBasicBlock(func);
      assert shim.blocks + [[]] == [[]];
      assert (fs + [shim])[k := shim.(blocks := [[]])] == fs + [shim.(blocks := [[]])];
      assert functions == fs + [Function(name, [Pointer(I8)], false, [[]])];
      PositionBuilderAtEnd(entry);
      var arg := Param(func.index, 0);
      var fmtValue := BuildGlobalStringPtr(fmt);
      ExtendLast(fs, shim.(blocks := [[]]), [], []);
      ghost var empty: Block := [];
      assert empty + [] == empty;
      assert functions == fs + [shim.(blocks := [[]])];
      assert entry == AtEnd(k, 0) && cursor == Some(entry) && nextReg == id;
      var _ := BuildCall(printf, [fmtValue, arg]);
      assert empty + [Call(printf, [GlobalStr(fmt), Param(k, 0)], id)] == [Call(printf, [GlobalStr(fmt), Param(k, 0)], id)];
      ExtendLast(fs, shim.(blocks := [[]]), [], [Call(printf, [GlobalStr(fmt), Param(k, 0)], id)]);
      assert functions == fs + [Function(name, [Pointer(I8)], false, [[Call(printf, [GlobalStr(fmt), Param(k, 0)], id)]])];
      ExtendLast(fs, shim.(blocks := [[Call(printf, [GlobalStr(fmt), Param(k, 0)], id)]]),
                 [Call(printf, [GlobalStr(fmt), Param(k, 0)], id)], [Ret(ConstI32(0))]);
      ghost var call := Call(printf, [GlobalStr(fmt), Param(k, 0)], id);
      assert functions == fs + [shim.(blocks := [[call]])] && cursor == Some(AtEnd(k, 0));
      BuildRet(ConstI32(0));
      assert [call] + [Ret(ConstI32(0))] == [call, Ret(ConstI32(0))];
      assert functions == fs + [Function(name, [Pointer(I8)], false,
                                         [[Call(printf, [GlobalStr(fmt), Param(k, 0)], id), Ret(ConstI32(0))]])];
    }

    /** `declare_out_functions`. */
    method DeclareOutFunctions()
      requires WellFormed(Snap())
      modifies this
      ensures Snap() == DeclareOut(old(Snap()))
    {
      var printf := GetOrDeclarePrintf();
      savedBlock := GetInsertBlock();
      DefineOutShim("outs", "%s", printf);
      DefineOutShim("out", "%s\n", printf);
      if savedBlock.Some? {
        PositionBuilderAtEnd(savedBlock.value);
      }
    }

    // -------------------------------------------------------------------
    // Expressions (codegen.c:157-214)

    /**
     * `generate_llvm_expr` on a non-NULL node (its callers never pass NULL).
     * Arguments of a call are collected in a ten-slot buffer, as in the
     * source; `ExprFits` is what keeps `args[argc++]` in bounds.
     */
    method GenerateExpr(e: Node) returns (r: Result<Value>)
      requires Positioned(Snap()) && ExprFits(e)
      modifies this
      ensures match LowerExpr(old(functionTable), old(varTable), e, old(nextReg))
              case Err(f) => r == Err(f)
              case Ok(l) => r == Ok(l.value) && Snap() == Absorb(old(Snap()), l.emitted)
      decreases Size(e)
    {
      match e.kind
      case NodeNum =>
        AbsorbNothing(Snap());
        r := Ok(ConstI32(e.intValue));
      case NodeStr =>
        if e.value.None? {
          return Err(NullName(NodeStr));
        }
        var v := BuildGlobalStringPtr(e.value.value);
        r := Ok(v);
      case NodeCall =>
        var args := new Value[MaxArgs](_ => ConstI32(0));
        var argc := 0;
        var a := e.left;
        ghost var acc := ArgList(Emitted([], [], nextReg), []);
        AbsorbNothing(Snap());
        while a.Some?
          invariant Positioned(Snap()) && cursor == old(cursor)
          invariant functionTable == old(functionTable) && varTable == old(varTable)
          invariant Snap() == Absorb(old(Snap()), acc.emitted)
          invariant 0 <= argc <= MaxArgs && args[..argc] == acc.values
          invariant argc + |Chain(a)| == |Chain(e.left)| && ArgsFit(a)
          invariant OptSize(a) <= OptSize(e.left)
          invariant LowerArgs(functionTable, varTable, e.left, ArgList(Emitted([], [], old(nextReg)), []))
                 == LowerArgs(functionTable, varTable, a, acc)
          decreases OptSize(a)
        {
          var n := a.value;
          ghost var before := Snap();
          var v := GenerateExpr(n);
          if v.Err? {
            return v;
          }
          ghost var l := LowerExpr(functionTable, varTable, n, before.nextReg).value;
          AbsorbThen(old(Snap()), acc.emitted, l.emitted);
          acc := ArgList(Then(acc.emitted, l.emitted), acc.values + [l.value]);
          args[argc] := v.value;
          argc := argc + 1;
          a := n.next;
        }
        if e.value.None? {
          return Err(NullName(NodeCall));
        }
        var func := SymtabLookup(e.value.value);
        var entry := SymtabLookupEntry(e.value.value);
        if entry.None? {
          // line 181 reads `func_entry->arity` through a NULL pointer
          return Err(NullFunction(e.value.value));
        }
        if argc != entry.value.arity {
          return Err(ArityMismatch(entry.value.arity, argc));
        }
        // `func` is NULL exactly when `func_entry` is, so the "undefined function" test that follows in the source never fires
        var call := BuildCall(func.value, args[..argc]);
        AbsorbThen(old(Snap()), acc.emitted, Emitted([Call(func.value, args[..argc], acc.emitted.nextReg)], [], acc.emitted.nextReg + 1));
        r := Ok(call);
      case NodeVar =>
        if e.value.None? {
          return Err(NullName(NodeVar));
        }
        var slot := VarLookup(e.value.value);
        if slot.None? {
          return Err(UndefinedVariable(e.value.value));
        }
        // the load's type is `LLVMTypeOf(alloca_ref)`, the type of the slot itself: i32*
        var v := BuildLoad(Pointer(I32), slot.value, e.value.value);
        r := Ok(v);
      case _ =>
        r := Err(UnsupportedExpr(e.kind));
    }

    // -------------------------------------------------------------------
    // Statements and the program (codegen.c:216-274)

    /**
     * `generate_llvm`: a head call starts a chain of call statements linked
     * through `right`; a head variable node with a right-hand side is one
     * assignment; anything else emits nothing.
     */
    method GenerateLlvm(s: Option<Node>) returns (r: Status)
      requires Positioned(Snap()) && StmtsFit(s)
      modifies this
      ensures match LowerStmts(old(functionTable), old(varTable), s, old(nextReg))
              case Err(f) => r == Aborted(f)
              case Ok(o) => r == Completed && Snap() == Absorb(old(Snap()), o.emitted).(varTable := o.varTable)
    {
      AbsorbNothing(Snap());
      if s.None? {
        return Completed;
      }
      var node := s.value;
      if node.kind == NodeCall {
        var c := s;
        ghost var acc := Emitted([], [], nextReg);
        while c.Some?
          invariant Positioned(Snap()) && cursor == old(cursor)
          invariant functionTable == old(functionTable) && varTable == old(varTable)
          invariant Snap() == Absorb(old(Snap()), acc)
          invariant CallChainFits(c)
          invariant LowerCallChain(functionTable, varTable, s, Emitted([], [], old(nextReg)))
                 == LowerCallChain(functionTable, varTable, c, acc)
          decreases c
        {
          var n := c.value;
          if n.kind == NodeCall {
            ghost var before := Snap();
            var v := GenerateExpr(n);
            if v.Err? {
              return Aborted(v.fatal);
            }
            ghost var l := LowerExpr(functionTable, varTable, n, before.nextReg).value;
            AbsorbThen(old(Snap()), acc, l.emitted);
            acc := Then(acc, l.emitted);
          }
          c := n.right;
        }
        return Completed;
      } else if node.kind == NodeVar && node.left.Some? {
        var val := GenerateExpr(node.left.value);
        if val.Err? {
          return Aborted(val.fatal);
        }
        ghost var l := LowerExpr(old(functionTable), old(varTable), node.left.value, old(nextReg)).value;
        if node.value.None? {
          return Aborted(NullName(NodeVar));
        }
        var slot := VarLookup(node.value.value);
        if slot.None? {
          var alloca := BuildAlloca(I32, node.value.value);
          VarInsert(node.value.value, alloca);
          ghost var mid := Snap();
          BuildStore(val.value, alloca);
          ghost var tail := Emitted([Alloca(I32, node.value.value, l.emitted.nextReg), Store(val.value, alloca)], [], l.emitted.nextReg + 1);
          AbsorbThen(old(Snap()), l.emitted, Emitted([Alloca(I32, node.value.value, l.emitted.nextReg)], [], l.emitted.nextReg + 1));
          AbsorbThen(old(Snap()), Then(l.emitted, Emitted([Alloca(I32, node.value.value, l.emitted.nextReg)], [], l.emitted.nextReg + 1)),
                     Emitted([Store(val.value, alloca)], [], l.emitted.nextReg + 1));
          assert Then(Then(l.emitted, Emitted([Alloca(I32, node.value.value, l.emitted.nextReg)], [], l.emitted.nextReg + 1)),
                      Emitted([Store(val.value, alloca)], [], l.emitted.nextReg + 1)) == Then(l.emitted, tail);
        } else {
          BuildStore(val.value, slot.value);
          AbsorbThen(old(Snap()), l.emitted, Emitted([Store(val.value, slot.value)], [], l.emitted.nextReg));
        }
        return Completed;
      }
      return Completed;
    }

    /** The body of the pass-2 loop of `compile_program`, for one function node. */
    method DefineFunctionBody(n: Node) returns (r: Status)
      requires WellFormed(Snap()) && n.kind == NodeFunc && StmtsFit(n.left)
      modifies this
      ensures match DefineFunction(old(Snap()), n)
              case Err(f) => r == Aborted(f)
              case Ok(st) => r == Completed && Snap() == st
    {
      if n.value.None? {
        return Aborted(NullName(NodeFunc));
      }
      var func := SymtabLookup(n.value.value);
      if func.None? {
        // LLVMAppendBasicBlock would be handed a NULL function
        return Aborted(NullFunction(n.value.value));
      }
      var entry := AppendBasicBlock(func.value);
      PositionBuilderAtEnd(entry);
      ghost var inBlock := OpenBlock(old(Snap()), func.value.index);
      assert Snap() == inBlock;
      var body := GenerateLlvm(n.left);
      if body.Aborted? {
        return body;
      }
      var rv := if n.right.Some? then n.right.value.intValue else 0;
      ghost var o := LowerStmts(inBlock.functionTable, inBlock.varTable, n.left, inBlock.nextReg).value;
      BuildRet(ConstI32(rv));
      AbsorbThen(inBlock, o.emitted, Emitted([Ret(ConstI32(rv))], [], o.emitted.nextReg));
      return Completed;
    }

    /**
     * `compile_program`: the built-ins, then pass 1 (declare and register
     * every function node of the top-level chain), then pass 2 (a fresh
     * block per function node, its body, and the closing `ret`).
     */
    method CompileProgram(root: Option<Node>) returns (r: Status)
      requires WellFormed(Snap()) && ProgramFits(root)
      modifies this
      ensures match Compile(old(Snap()), root)
              case Err(f) => r == Aborted(f)
              case Ok(st) => r == Completed && Snap() == st
    {
      DeclareOutFunctions();

      // pass 1
      ghost var st1 := Snap();
      var curr := root;
      while curr.Some?
        invariant WellFormed(Snap())
        invariant Pass1(st1, root) == Pass1(Snap(), curr)
        decreases curr
      {
        var n := curr.value;
        if n.kind == NodeFunc {
          if n.value.None? {
            return Aborted(NullName(NodeFunc));
          }
          var func := AddFunction(n.value.value, [], false);
          SymtabInsert(n.value.value, func, 0);
        }
        curr := n.next;
      }

      // pass 2
      ghost var st2 := Snap();
      curr := root;
      while curr.Some?
        invariant WellFormed(Snap()) && ProgramFits(curr)
        invariant Pass2(st2, root) == Pass2(Snap(), curr)
        decreases curr
      {
        var n := curr.value;
        if n.kind == NodeFunc {
          var step := DefineFunctionBody(n);
          if step.Aborted? {
            return step;
          }
        }
        curr := n.next;
      }
      return Completed;
    }
  }
}
