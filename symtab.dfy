/**
 * The two association lists of src/codegen.c: `function_table` (name to
 * function handle and arity) and `var_table` (name to stack slot).  Both
 * are singly linked lists that grow at the head; here a list is a
 * sequence whose element 0 is the head.
 */
module Symtab {
  import opened Wrappers
  import opened Ir

  datatype FunctionEntry = FunctionEntry(name: string, funcRef: Value, arity: int)

  datatype VarEntry = VarEntry(name: string, allocaRef: Value)

  /** What `symtab_lookup_entry` returns: the entry nearest the head carrying `name`. */
  function FindEntry(t: seq<FunctionEntry>, name: string): (r: Option<FunctionEntry>)
    ensures r.Some? ==> r.value in t && r.value.name == name
    ensures r.None? <==> forall i :: 0 <= i < |t| ==> t[i].name != name
  {
    if t == [] then None
    else if t[0].name == name then Some(t[0])
    else FindEntry(t[1..], name)
  }

  /** What `symtab_lookup` returns: its own walk from the head, giving the first matching handle, or NULL. */
  function FindRef(t: seq<FunctionEntry>, name: string): (r: Option<Value>)
    ensures r.Some? ==> exists i :: 0 <= i < |t| && t[i].name == name && t[i].funcRef == r.value
  {
    if t == [] then None
    else if t[0].name == name then Some(t[0].funcRef)
    else
      var r := FindRef(t[1..], name);
      assert r.Some? ==> exists i :: 1 <= i < |t| && t[i].name == name && t[i].funcRef == r.value by {
        if r.Some? {
          var i :| 0 <= i < |t[1..]| && t[1..][i].name == name && t[1..][i].funcRef == r.value;
          assert t[i + 1] == t[1..][i];
        }
      }
      r
  }

  /** What `var_lookup` returns: the slot of the entry nearest the head carrying `name`, or NULL. */
  function FindSlot(t: seq<VarEntry>, name: string): (r: Option<Value>)
    ensures r.Some? ==> exists i :: 0 <= i < |t| && t[i].name == name && t[i].allocaRef == r.value
    ensures r.None? <==> forall i :: 0 <= i < |t| ==> t[i].name != name
  {
    if t == [] then None
    else if t[0].name == name then Some(t[0].allocaRef)
    else
      var r := FindSlot(t[1..], name);
      assert r.Some? ==> exists i :: 1 <= i < |t| && t[i].name == name && t[i].allocaRef == r.value by {
        if r.Some? {
          var i :| 0 <= i < |t[1..]| && t[1..][i].name == name && t[1..][i].allocaRef == r.value;
          assert t[i + 1] == t[1..][i];
        }
      }
      r
  }

  /** No two slots are registered under one name. */
  predicate NoDupNames(t: seq<VarEntry>) {
    forall i, j :: 0 <= i < j < |t| ==> t[i].name != t[j].name
  }

  /**
   * The entry found is the first one named `name`, so lookups are
   * determined by position: an entry shadows every later one with its name.
   */
  lemma {:induction false} FindEntryIsFirst(t: seq<FunctionEntry>, name: string, i: nat)
    requires i < |t| && t[i].name == name
    requires forall j :: 0 <= j < i ==> t[j].name != name
    ensures FindEntry(t, name) == Some(t[i])
  {
    if i > 0 {
      assert t[0].name != name;
      forall j | 0 <= j < i - 1 ensures t[1..][j].name != name {
        assert t[1..][j] == t[j + 1];
      }
      FindEntryIsFirst(t[1..], name, i - 1);
    }
  }

  /**
   * `symtab_insert` prepends: afterwards the new entry answers every lookup
   * of its name, and every other name is answered as before.
   */
  lemma LookupAfterInsert(t: seq<FunctionEntry>, e: FunctionEntry, name: string)
    ensures FindEntry([e] + t, name) == if e.name == name then Some(e) else FindEntry(t, name)
    ensures FindRef([e] + t, name) == if e.name == name then Some(e.funcRef) else FindRef(t, name)
  {
    assert ([e] + t)[1..] == t;
  }

  /** `symtab_lookup` is NULL exactly when `symtab_lookup_entry` is, and otherwise is that entry's handle. */
  lemma {:induction false} FindRefAgrees(t: seq<FunctionEntry>, name: string)
    ensures FindRef(t, name).None? <==> FindEntry(t, name).None?
    ensures FindEntry(t, name).Some? ==> FindRef(t, name) == Some(FindEntry(t, name).value.funcRef)
    decreases |t|
  {
    if t != [] && t[0].name != name {
      FindRefAgrees(t[1..], name);
    }
  }

  /** `var_insert` prepends in the same way. */
  lemma SlotAfterInsert(t: seq<VarEntry>, e: VarEntry, name: string)
    ensures FindSlot([e] + t, name) == if e.name == name then Some(e.allocaRef) else FindSlot(t, name)
  {
    assert ([e] + t)[1..] == t;
  }

  /** Inserting a name that has no slot yet keeps the names distinct. */
  lemma InsertFreshKeepsNoDup(t: seq<VarEntry>, e: VarEntry)
    requires FindSlot(t, e.name).None?
    ensures NoDupNames(t) ==> NoDupNames([e] + t)
  {
    var t' := [e] + t;
    forall i, j | NoDupNames(t) && 0 <= i < j < |t'| ensures t'[i].name != t'[j].name {
      if i == 0 {
        assert t'[j] == t[j - 1];
      } else {
        assert t'[i] == t[i - 1] && t'[j] == t[j - 1];
      }
    }
  }
}
