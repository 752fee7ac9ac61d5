/**
 * An abstract stand-in for the parts of the LLVM C API that the lowering
 * stage uses.  A module is a sequence of functions; a function handle is
 * the function's position in that sequence; a basic block is a sequence of
 * instructions; the builder is a cursor naming one block, and instructions
 * are always appended at its end (the only way the source positions it).
 * Every value-producing instruction carries a fresh register number that
 * stands for the `LLVMValueRef` the C API returns for it.
 */
module Ir {
  import opened Wrappers
  import opened Ast

  datatype IrType = I8 | I32 | Pointer(pointee: IrType)

  datatype Value =
    | ConstI32(k: int32)           // LLVMConstInt(LLVMInt32Type(), k, 0)
    | GlobalStr(text: string)      // LLVMBuildGlobalStringPtr: a NUL-terminated global
    | FuncRef(index: nat)          // the handle of the function at `index`
    | Param(func: nat, pos: nat)   // LLVMGetParam
    | Reg(id: nat)                 // the result of the instruction numbered `id`

  datatype Instr =
    | Call(callee: Value, args: seq<Value>, id: nat)
    | Alloca(ty: IrType, name: string, id: nat)
    | Store(val: Value, slot: Value)
    | Load(ty: IrType, slot: Value, name: string, id: nat)
    | Ret(val: Value)

  type Block = seq<Instr>

  /** Every function returns `i32`; `params` are its parameter types. */
  datatype Function = Function(name: string, params: seq<IrType>, varArg: bool, blocks: seq<Block>)

  /** The builder positioned at the end of block `block` of function `func`. */
  datatype Cursor = AtEnd(func: nat, block: nat)

  predicate ValidCursor(fs: seq<Function>, c: Cursor) {
    c.func < |fs| && c.block < |fs[c.func].blocks|
  }

  /**
   * `LLVMGetNamedFunction`: the first function carrying `name`.  When a
   * later `LLVMAddFunction` asks for a name already taken, LLVM gives the
   * newcomer a fresh name, so the first holder is the one found.
   */
  function FindFunction(fs: seq<Function>, name: string): (r: Option<nat>)
    ensures r.Some? ==> r.value < |fs| && fs[r.value].name == name
    ensures r.Some? ==> forall i :: 0 <= i < r.value ==> fs[i].name != name
    ensures r.None? ==> forall i :: 0 <= i < |fs| ==> fs[i].name != name
  {
    if fs == [] then None
    else if fs[0].name == name then Some(0)
    else match FindFunction(fs[1..], name)
      case None => None
      case Some(i) => Some(i + 1)
  }

  /** The module after appending `code` at the end of the block `c` names. */
  function Extend(fs: seq<Function>, c: Cursor, code: seq<Instr>): (r: seq<Function>)
    requires ValidCursor(fs, c)
    ensures |r| == |fs| && ValidCursor(r, c)
    ensures forall i :: 0 <= i < |fs| && i != c.func ==> r[i] == fs[i]
    ensures r[c.func].name == fs[c.func].name && r[c.func].params == fs[c.func].params
    ensures r[c.func].varArg == fs[c.func].varArg
    ensures |r[c.func].blocks| == |fs[c.func].blocks|
    ensures forall b :: 0 <= b < |fs[c.func].blocks| && b != c.block ==>
              r[c.func].blocks[b] == fs[c.func].blocks[b]
    ensures r[c.func].blocks[c.block] == fs[c.func].blocks[c.block] + code
  {
    var f := fs[c.func];
    fs[c.func := f.(blocks := f.blocks[c.block := f.blocks[c.block] + code])]
  }

  lemma ExtendTwice(fs: seq<Function>, c: Cursor, a: seq<Instr>, b: seq<Instr>)
    requires ValidCursor(fs, c)
    ensures Extend(Extend(fs, c, a), c, b) == Extend(fs, c, a + b)
  {
    var f := fs[c.func];
    var fa := f.(blocks := f.blocks[c.block := f.blocks[c.block] + a]);
    var gs := fs[c.func := fa];
    assert Extend(fs, c, a) == gs;
    assert gs[c.func] == fa;
    assert fa.blocks[c.block] + b == f.blocks[c.block] + (a + b);
    assert fa.blocks[c.block := fa.blocks[c.block] + b] == f.blocks[c.block := f.blocks[c.block] + (a + b)];
    assert gs[c.func := fa.(blocks := fa.blocks[c.block := fa.blocks[c.block] + b])]
        == fs[c.func := f.(blocks := f.blocks[c.block := f.blocks[c.block] + (a + b)])];
  }

  lemma ExtendNothing(fs: seq<Function>, c: Cursor)
    requires ValidCursor(fs, c)
    ensures Extend(fs, c, []) == fs
  {
    var f := fs[c.func];
    assert f.blocks[c.block] + [] == f.blocks[c.block];
    assert f.blocks[c.block := f.blocks[c.block]] == f.blocks;
  }

  /** Appending to the only block of the last function of the module. */
  lemma ExtendLast(fs: seq<Function>, f: Function, b: Block, code: seq<Instr>)
    requires f.blocks == [b]
    ensures ValidCursor(fs + [f], AtEnd(|fs|, 0))
    ensures Extend(fs + [f], AtEnd(|fs|, 0), code) == fs + [f.(blocks := [b + code])]
  {
    assert (fs + [f])[|fs|] == f;
    assert f.blocks[0 := b + code] == [b + code];
    assert (fs + [f])[|fs| := f.(blocks := [b + code])] == fs + [f.(blocks := [b + code])];
  }

  /** A function added at the end of the module is found only when no earlier one has its name. */
  lemma FindFunctionAppend(fs: seq<Function>, f: Function, name: string)
    ensures FindFunction(fs + [f], name) ==
            if FindFunction(fs, name).Some? then FindFunction(fs, name)
            else if f.name == name then Some(|fs|) else None
  {
    var r := FindFunction(fs + [f], name);
    assert forall i :: 0 <= i < |fs| ==> (fs + [f])[i] == fs[i];
    assert (fs + [f])[|fs|] == f;
    match FindFunction(fs, name)
    case Some(i) =>
      assert (fs + [f])[i].name == name;
    case None =>
  }
}
