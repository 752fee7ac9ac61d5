/**
 * What the lowering of src/codegen.c guarantees, proved about the
 * functions of module `Lowering` (and so, through the methods' contracts,
 * about the imperative model in module `Codegen`).
 */
module LoweringFacts {
  import opened Wrappers
  import opened Ast
  import opened Ir
  import opened Symtab
  import opened Lowering

  // ---------------------------------------------------------------------
  // When expression lowering succeeds

  /**
   * An expression lowers without a fatal condition exactly when every
   * name it uses is present, every variable has a slot, every callee is
   * registered with an arity equal to its argument count, and it uses
   * only literals, variables and calls.
   */
  predicate Resolves(ft: seq<FunctionEntry>, vt: seq<VarEntry>, e: Node)
    decreases Size(e), 0
  {
    match e.kind
    case NodeNum => true
    case NodeStr => e.value.Some?
    case NodeCall =>
      && ArgsResolve(ft, vt, e.left)
      && e.value.Some?
      && FindEntry(ft, e.value.value).Some?
      && FindEntry(ft, e.value.value).value.arity == |Chain(e.left)|
    case NodeVar => e.value.Some? && FindSlot(vt, e.value.value).Some?
    case _ => false
  }

  predicate ArgsResolve(ft: seq<FunctionEntry>, vt: seq<VarEntry>, a: Option<Node>)
    decreases OptSize(a), 1
  {
    match a
    case None => true
    case Some(n) => Resolves(ft, vt, n) && ArgsResolve(ft, vt, n.next)
  }

  lemma {:induction false} LowerExprSucceedsIff(ft: seq<FunctionEntry>, vt: seq<VarEntry>, e: Node, reg: nat)
    ensures LowerExpr(ft, vt, e, reg).Ok? <==> Resolves(ft, vt, e)
    decreases Size(e), 0
  {
    if e.kind == NodeCall {
      LowerArgsSucceedsIff(ft, vt, e.left, ArgList(Emitted([], [], reg), []));
    }
  }

  lemma {:induction false} LowerArgsSucceedsIff(ft: seq<FunctionEntry>, vt: seq<VarEntry>, a: Option<Node>, acc: ArgList)
    ensures LowerArgs(ft, vt, a, acc).Ok? <==> ArgsResolve(ft, vt, a)
    ensures LowerArgs(ft, vt, a, acc).Ok? ==> |LowerArgs(ft, vt, a, acc).value.values| == |acc.values| + |Chain(a)|
    decreases OptSize(a), 1
  {
    match a
    case None =>
    case Some(n) =>
      LowerExprSucceedsIff(ft, vt, n, acc.emitted.nextReg);
      match LowerExpr(ft, vt, n, acc.emitted.nextReg)
      case Err(_) =>
      case Ok(l) =>
        LowerArgsSucceedsIff(ft, vt, n.next, ArgList(Then(acc.emitted, l.emitted), acc.values + [l.value]));
  }

  // ---------------------------------------------------------------------
  // What expression lowering emits

  /**
   * `code` consists of value-producing instructions (calls and loads)
   * carrying consecutive register numbers from `reg` on: every result is
   * defined exactly once.
   */
  predicate Numbered(code: seq<Instr>, reg: nat) {
    forall i :: 0 <= i < |code| ==> (code[i].Call? || code[i].Load?) && code[i].id == reg + i
  }

  /** The value an argument node lowers to: its literal, its string, or the register of its call or load. */
  predicate ProducedBy(n: Node, v: Value) {
    match n.kind
    case NodeNum => v == ConstI32(n.intValue)
    case NodeStr => n.value.Some? && v == GlobalStr(n.value.value)
    case _ => v.Reg?
  }

  /** Registers among `vs` are below `bound` and strictly increase from left to right. */
  predicate RegsIncreasing(vs: seq<Value>, bound: nat) {
    && (forall i :: 0 <= i < |vs| && vs[i].Reg? ==> vs[i].id < bound)
    && (forall i, j :: 0 <= i < j < |vs| && vs[i].Reg? && vs[j].Reg? ==> vs[i].id < vs[j].id)
  }

  lemma NumberedConcat(a: seq<Instr>, b: seq<Instr>, reg: nat)
    requires Numbered(a, reg) && Numbered(b, reg + |a|)
    ensures Numbered(a + b, reg)
  {
    forall i | 0 <= i < |a + b| ensures ((a + b)[i].Call? || (a + b)[i].Load?) && (a + b)[i].id == reg + i {
      if i >= |a| {
        assert (a + b)[i] == b[i - |a|];
      }
    }
  }

  /**
   * A successful expression lowering emits only calls and loads, numbered
   * consecutively from `reg`; literals emit nothing; the value of a call
   * or a variable is the register of the last instruction emitted.
   */
  lemma {:induction false} ExprShape(ft: seq<FunctionEntry>, vt: seq<VarEntry>, e: Node, reg: nat)
    requires LowerExpr(ft, vt, e, reg).Ok?
    ensures var l := LowerExpr(ft, vt, e, reg).value;
      && Numbered(l.emitted.code, reg)
      && l.emitted.nextReg == reg + |l.emitted.code|
      && ProducedBy(e, l.value)
      && (e.kind == NodeNum || e.kind == NodeStr ==> l.emitted.code == [])
      && (l.value.Reg? ==> l.value.id + 1 == l.emitted.nextReg && reg <= l.value.id)
    decreases Size(e), 0
  {
    if e.kind == NodeCall {
      var acc := ArgList(Emitted([], [], reg), []);
      ArgsShape(ft, vt, e.left, acc, reg);
      var al := LowerArgs(ft, vt, e.left, acc).value;
      var id := al.emitted.nextReg;
      NumberedConcat(al.emitted.code, [Call(FindEntry(ft, e.value.value).value.funcRef, al.values, id)], reg);
    }
  }

  /**
   * The argument loop keeps the numbering consecutive and produces one
   * value per argument, in order: literal arguments give their constants
   * and every other argument a register above those of the arguments to
   * its left.
   */
  lemma {:induction false} ArgsShape(ft: seq<FunctionEntry>, vt: seq<VarEntry>, a: Option<Node>, acc: ArgList, base: nat)
    requires Numbered(acc.emitted.code, base) && acc.emitted.nextReg == base + |acc.emitted.code|
    requires RegsIncreasing(acc.values, acc.emitted.nextReg)
    requires LowerArgs(ft, vt, a, acc).Ok?
    ensures var r := LowerArgs(ft, vt, a, acc).value;
      && Numbered(r.emitted.code, base) && r.emitted.nextReg == base + |r.emitted.code|
      && RegsIncreasing(r.values, r.emitted.nextReg)
      && |r.values| == |acc.values| + |Chain(a)| && r.values[..|acc.values|] == acc.values
      && (forall k :: 0 <= k < |Chain(a)| ==> ProducedBy(Chain(a)[k], r.values[|acc.values| + k]))
    decreases OptSize(a), 1
  {
    match a
    case None =>
    case Some(n) =>
      var l := LowerExpr(ft, vt, n, acc.emitted.nextReg).value;
      ExprShape(ft, vt, n, acc.emitted.nextReg);
      NumberedConcat(acc.emitted.code, l.emitted.code, base);
      var acc' := ArgList(Then(acc.emitted, l.emitted), acc.values + [l.value]);
      assert RegsIncreasing(acc'.values, acc'.emitted.nextReg) by {
        forall i, j | 0 <= i < j < |acc'.values| && acc'.values[i].Reg? && acc'.values[j].Reg?
          ensures acc'.values[i].id < acc'.values[j].id
        {
          if j == |acc.values| {
            assert acc'.values[i] == acc.values[i];
          } else {
            assert acc'.values[i] == acc.values[i] && acc'.values[j] == acc.values[j];
          }
        }
      }
      ArgsShape(ft, vt, n.next, acc', base);
      var r := LowerArgs(ft, vt, n.next, acc').value;
      assert r == LowerArgs(ft, vt, a, acc).value;
      assert r.values[..|acc'.values|] == acc'.values;
      assert r.values[..|acc.values|] == acc.values by {
        assert r.values[..|acc.values|] == r.values[..|acc'.values|][..|acc.values|];
      }
      forall k | 0 <= k < |Chain(a)| ensures ProducedBy(Chain(a)[k], r.values[|acc.values| + k]) {
        if k == 0 {
          assert r.values[|acc.values|] == r.values[..|acc'.values|][|acc.values|];
        } else {
          assert Chain(a)[k] == Chain(n.next)[k - 1];
        }
      }
  }

  /**
   * Call lowering: once the arguments lower, a callee with no entry is
   * dereferenced and crashes, a count different from the registered arity
   * is the "expected %d arguments, got %d" diagnostic, and otherwise the
   * call instruction is the last one emitted, takes the entry's handle and
   * one value per argument in source order, and yields the call's value.
   */
  lemma CallLowering(ft: seq<FunctionEntry>, vt: seq<VarEntry>, e: Node, reg: nat)
    requires e.kind == NodeCall && e.value.Some? && ArgsResolve(ft, vt, e.left)
    ensures FindEntry(ft, e.value.value).None? ==> LowerExpr(ft, vt, e, reg) == Err(NullFunction(e.value.value))
    ensures FindEntry(ft, e.value.value).Some? && FindEntry(ft, e.value.value).value.arity != |Chain(e.left)| ==>
              LowerExpr(ft, vt, e, reg) == Err(ArityMismatch(FindEntry(ft, e.value.value).value.arity, |Chain(e.left)|))
    ensures FindEntry(ft, e.value.value).Some? && FindEntry(ft, e.value.value).value.arity == |Chain(e.left)| ==>
              LowerExpr(ft, vt, e, reg).Ok? &&
              var l := LowerExpr(ft, vt, e, reg).value;
              var code := l.emitted.code;
              && |code| > 0 && l.value == Reg(l.emitted.nextReg - 1)
              && code[|code| - 1] == Call(FindEntry(ft, e.value.value).value.funcRef, code[|code| - 1].args, l.emitted.nextReg - 1)
              && |code[|code| - 1].args| == |Chain(e.left)|
              && RegsIncreasing(code[|code| - 1].args, l.emitted.nextReg - 1)
              && (forall k :: 0 <= k < |Chain(e.left)| ==> ProducedBy(Chain(e.left)[k], code[|code| - 1].args[k]))
  {
    var acc := ArgList(Emitted([], [], reg), []);
    LowerArgsSucceedsIff(ft, vt, e.left, acc);
    ArgsShape(ft, vt, e.left, acc, reg);
    var al := LowerArgs(ft, vt, e.left, acc).value;
    var name := e.value.value;
    if FindEntry(ft, name).Some? && FindEntry(ft, name).value.arity == |Chain(e.left)| {
      var entry := FindEntry(ft, name).value;
      var id := al.emitted.nextReg;
      var em := Then(al.emitted, Emitted([Call(entry.funcRef, al.values, id)], [], id + 1));
      assert LowerExpr(ft, vt, e, reg) == Ok(Lowered(em, Reg(id)));
      assert em.code[|em.code| - 1] == Call(entry.funcRef, al.values, id);
    }
  }

  // ---------------------------------------------------------------------
  // Statements

  /** No instruction of `code` is a `ret`: only the function epilogue terminates a block. */
  predicate RetFree(code: seq<Instr>) {
    forall i :: 0 <= i < |code| ==> !code[i].Ret?
  }

  /** Every call node met along the `right` links from `c` resolves. */
  predicate CallsResolve(ft: seq<FunctionEntry>, vt: seq<VarEntry>, c: Option<Node>) {
    forall k :: 0 <= k < |RightChain(c)| && RightChain(c)[k].kind == NodeCall ==> Resolves(ft, vt, RightChain(c)[k])
  }

  /**
   * The call-statement loop succeeds exactly when every call on the
   * `right` chain resolves (nodes of other kinds are skipped), and appends
   * calls and loads numbered on from the accumulator's counter.
   */
  lemma {:induction false} CallChainLowering(ft: seq<FunctionEntry>, vt: seq<VarEntry>, c: Option<Node>, acc: Emitted)
    ensures LowerCallChain(ft, vt, c, acc).Ok? <==> CallsResolve(ft, vt, c)
    ensures LowerCallChain(ft, vt, c, acc).Ok? ==>
              var r := LowerCallChain(ft, vt, c, acc).value;
              && |acc.code| <= |r.code| && r.code[..|acc.code|] == acc.code
              && Numbered(r.code[|acc.code|..], acc.nextReg)
              && r.nextReg == acc.nextReg + (|r.code| - |acc.code|)
    decreases c
  {
    match c
    case None =>
    case Some(n) =>
      assert RightChain(c)[0] == n;
      assert forall k :: 0 <= k < |RightChain(n.right)| ==> RightChain(c)[k + 1] == RightChain(n.right)[k];
      var acc' := acc;
      if n.kind == NodeCall {
        LowerExprSucceedsIff(ft, vt, n, acc.nextReg);
        if LowerExpr(ft, vt, n, acc.nextReg).Ok? {
          var l := LowerExpr(ft, vt, n, acc.nextReg).value;
          ExprShape(ft, vt, n, acc.nextReg);
          acc' := Then(acc, l.emitted);
          CallChainLowering(ft, vt, n.right, acc');
          if LowerCallChain(ft, vt, c, acc).Ok? {
            var r := LowerCallChain(ft, vt, c, acc).value;
            assert r.code[..|acc'.code|][..|acc.code|] == r.code[..|acc.code|];
            assert r.code[|acc.code|..] == l.emitted.code + r.code[|acc'.code|..];
            NumberedConcat(l.emitted.code, r.code[|acc'.code|..], acc.nextReg);
          }
        }
      } else {
        CallChainLowering(ft, vt, n.right, acc);
      }
  }

  /**
   * Only call nodes are lowered, so a `right` chain without a call node
   * emits nothing and leaves the register counter alone.
   */
  lemma {:induction false} CallFreeChainEmitsNothing(ft: seq<FunctionEntry>, vt: seq<VarEntry>, c: Option<Node>, acc: Emitted)
    requires forall k :: 0 <= k < |RightChain(c)| ==> RightChain(c)[k].kind != NodeCall
    ensures LowerCallChain(ft, vt, c, acc) == Ok(acc)
    decreases c
  {
    match c
    case None =>
    case Some(n) =>
      assert RightChain(c)[0] == n;
      assert forall k :: 0 <= k < |RightChain(n.right)| ==> RightChain(c)[k + 1] == RightChain(n.right)[k];
      CallFreeChainEmitsNothing(ft, vt, n.right, acc);
  }

  /**
   * An assignment lowers its right-hand side first and ends with a store
   * of its value into the slot the table holds for the name afterwards.
   * A name that already has a slot reuses it and adds only that store; a
   * new name gets exactly one `alloca` of an `i32`, under a register no
   * instruction of the right-hand side uses, and this slot is registered.
   */
  lemma AssignmentLowering(ft: seq<FunctionEntry>, vt: seq<VarEntry>, n: Node, reg: nat)
    requires n.kind == NodeVar && n.left.Some? && n.value.Some?
    ensures LowerStmts(ft, vt, Some(n), reg).Ok? <==> Resolves(ft, vt, n.left.value)
    ensures LowerStmts(ft, vt, Some(n), reg).Ok? ==>
              var l := LowerExpr(ft, vt, n.left.value, reg).value;
              var o := LowerStmts(ft, vt, Some(n), reg).value;
              var name := n.value.value;
              && |l.emitted.code| < |o.emitted.code| && o.emitted.code[..|l.emitted.code|] == l.emitted.code
              && FindSlot(o.varTable, name).Some?
              && o.emitted.code[|o.emitted.code| - 1] == Store(l.value, FindSlot(o.varTable, name).value)
              && (FindSlot(vt, name).Some? ==>
                    o.varTable == vt && |o.emitted.code| == |l.emitted.code| + 1)
              && (FindSlot(vt, name).None? ==>
                    && |o.emitted.code| == |l.emitted.code| + 2
                    && o.emitted.code[|l.emitted.code|] == Alloca(I32, name, l.emitted.nextReg)
                    && o.varTable == [VarEntry(name, Reg(l.emitted.nextReg))] + vt
                    && Numbered(l.emitted.code, reg) && l.emitted.nextReg == reg + |l.emitted.code|)
  {
    LowerExprSucceedsIff(ft, vt, n.left.value, reg);
    if Resolves(ft, vt, n.left.value) {
      ExprShape(ft, vt, n.left.value, reg);
      SlotAfterInsert(vt, VarEntry(n.value.value, Reg(LowerExpr(ft, vt, n.left.value, reg).value.emitted.nextReg)), n.value.value);
    }
  }

  /**
   * A function body never emits a `ret`, and its lowering keeps every
   * existing slot: the table grows at most by one fresh name at the head.
   */
  lemma StmtsLowering(ft: seq<FunctionEntry>, vt: seq<VarEntry>, s: Option<Node>, reg: nat)
    requires LowerStmts(ft, vt, s, reg).Ok?
    ensures var o := LowerStmts(ft, vt, s, reg).value;
      && RetFree(o.emitted.code)
      && reg <= o.emitted.nextReg
      && (forall x :: FindSlot(vt, x).Some? ==> FindSlot(o.varTable, x) == FindSlot(vt, x))
      && (o.varTable == vt ||
          (|o.varTable| == |vt| + 1 && o.varTable[1..] == vt && FindSlot(vt, o.varTable[0].name).None?))
  {
    if s.Some? && s.value.kind == NodeCall {
      CallChainLowering(ft, vt, s, Emitted([], [], reg));
      var r := LowerCallChain(ft, vt, s, Emitted([], [], reg)).value;
      assert r.code[0..] == r.code;
    } else if s.Some? && s.value.kind == NodeVar && s.value.left.Some? {
      var n := s.value;
      var l := LowerExpr(ft, vt, n.left.value, reg).value;
      ExprShape(ft, vt, n.left.value, reg);
      var o := LowerStmts(ft, vt, s, reg).value;
      if FindSlot(vt, n.value.value).None? {
        var e := VarEntry(n.value.value, Reg(l.emitted.nextReg));
        assert o.varTable == [e] + vt;
        forall x | FindSlot(vt, x).Some? ensures FindSlot(o.varTable, x) == FindSlot(vt, x) {
          SlotAfterInsert(vt, e, x);
        }
        assert ([e] + vt)[1..] == vt;
      }
    }
  }

  /**
   * The head of a body decides what is lowered: a call head follows the
   * `right` chain, an assignment is lowered alone, and neither looks at
   * the head's `next` link; any other head emits nothing.
   */
  lemma BodyIgnoresNext(ft: seq<FunctionEntry>, vt: seq<VarEntry>, n: Node, other: Option<Node>, reg: nat)
    ensures LowerStmts(ft, vt, Some(n), reg) == LowerStmts(ft, vt, Some(n.(next := other)), reg)
    ensures n.kind != NodeCall && !(n.kind == NodeVar && n.left.Some?) ==>
              LowerStmts(ft, vt, Some(n), reg) == Ok(StmtOut(Emitted([], [], reg), vt))
  {
    var m := n.(next := other);
    if n.kind == NodeCall {
      assert LowerExpr(ft, vt, n, reg) == LowerExpr(ft, vt, m, reg);
    }
  }
}
