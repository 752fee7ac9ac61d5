/**
 * The driver of src/main.c: `remove_extension`, the names of the object
 * file, the executable and the link command, and the exit decisions of
 * `main`.  Opening the input, parsing, `compile_to_object` and the linker
 * run by `system` are not modelled; `main` receives their outcomes as
 * parameters.
 */
module Driver {
  import opened Wrappers
  import opened Ast
  import opened Ir
  import opened Lowering
  import opened Codegen

  // ---------------------------------------------------------------------
  // remove_extension

  /** The position of the last '.' of `s`, if any. */
  function LastDot(s: string): (r: Option<nat>)
    ensures r.Some? ==> r.value < |s| && s[r.value] == '.' && '.' !in s[r.value + 1..]
    ensures r.None? ==> '.' !in s
  {
    if |s| == 0 then None
    else if s[|s| - 1] == '.' then Some(|s| - 1)
    else
      var r := LastDot(s[..|s| - 1]);
      assert r.Some? ==> s[r.value + 1..] == s[..|s| - 1][r.value + 1..] + [s[|s| - 1]];
      assert r.None? ==> s == s[..|s| - 1] + [s[|s| - 1]];
      r
  }

  /** What `remove_extension` returns: the name cut at its last '.', or the whole name without one. */
  function StripExtension(s: string): (r: string)
    ensures |r| <= |s| && r == s[..|r|]
    ensures '.' !in s ==> r == s
  {
    match LastDot(s)
    case None => s
    case Some(i) => s[..i]
  }

  lemma LastDotAppend(s: string, c: char)
    ensures LastDot(s + [c]) == if c == '.' then Some(|s|) else LastDot(s)
  {
    assert (s + [c])[..|s|] == s;
  }

  /**
   * The characters of a NUL-terminated buffer up to its first NUL: the
   * string a C caller sees.
   */
  method ReadCString(buf: array<char>) returns (r: string)
    requires '\0' in buf[..]
    ensures |r| < buf.Length && buf[|r|] == '\0' && r == buf[..|r|] && '\0' !in r
  {
    var i := 0;
    while buf[i] != '\0'
      invariant 0 <= i < buf.Length
      invariant '\0' in buf[i..] && '\0' !in buf[..i]
      decreases buf.Length - i
    {
      assert buf[i..] == [buf[i]] + buf[i + 1..];
      assert buf[..i + 1] == buf[..i] + [buf[i]];
      i := i + 1;
    }
    r := buf[..i];
  }

  /** `strdup`: a fresh buffer holding the string and its terminating NUL. */
  method Duplicate(s: string) returns (buf: array<char>)
    ensures fresh(buf) && buf.Length == |s| + 1 && buf[..|s|] == s && buf[|s|] == '\0'
  {
    buf := new char[|s| + 1];
    var i := 0;
    while i < |s|
      invariant 0 <= i <= |s|
      invariant buf[..i] == s[..i]
    {
      buf[i] := s[i];
      i := i + 1;
    }
    buf[|s|] := '\0';
  }

  /** `strrchr(buf, '.')` on a buffer holding the C string `s`: the position of its last '.'. */
  method FindLastDot(buf: array<char>, ghost s: string) returns (r: Option<nat>)
    requires '\0' !in s && buf.Length == |s| + 1 && buf[..|s|] == s && buf[|s|] == '\0'
    ensures r == LastDot(s)
  {
    r := None;
    var i := 0;
    assert forall j :: 0 <= j < |s| ==> buf[j] == s[j] && buf[j] != '\0';
    while buf[i] != '\0'
      invariant 0 <= i <= |s|
      invariant r == LastDot(s[..i])
      decreases |s| - i
    {
      LastDotAppend(s[..i], s[i]);
      assert s[..i + 1] == s[..i] + [s[i]];
      if buf[i] == '.' {
        r := Some(i);
      }
      i := i + 1;
    }
    assert s[..i] == s;
  }

  /**
   * `remove_extension`: copy the name into a fresh NUL-terminated buffer,
   * find its last '.', overwrite that '.' with a NUL, and hand back the
   * buffer's string.  A C string holds no NUL.
   */
  method RemoveExtension(filename: string) returns (r: string)
    requires '\0' !in filename
    ensures r == StripExtension(filename)
  {
    var buf := Duplicate(filename);
    var lastDot := FindLastDot(buf, filename);
    if lastDot.Some? {
      buf[lastDot.value] := '\0';
    }
    var m := if lastDot.Some? then lastDot.value else |filename|;
    assert buf[..m] == filename[..m] && buf[m] == '\0';
    assert '\0' in buf[..] by {
      assert buf[..][m] == '\0';
    }
    r := ReadCString(buf);
    assert forall j :: 0 <= j < m ==> buf[j] != '\0';
    assert forall j :: 0 <= j < |r| ==> r[j] == buf[j] && r[j] != '\0';
  }

  /** Without a '.', the name comes back unchanged. */
  lemma StripWithoutDot(s: string)
    requires '.' !in s
    ensures StripExtension(s) == s
  {
  }

  /**
   * With a '.', the result is exactly what precedes the last '.': the
   * input is the result, a '.', and a tail without '.'.
   */
  lemma {:induction false} StripAtLastDot(s: string)
    requires '.' in s
    ensures var r := StripExtension(s);
      |r| < |s| && s == r + ['.'] + s[|r| + 1..] && '.' !in s[|r| + 1..]
  {
    var r := StripExtension(s);
    match LastDot(s)
    case None =>
    case Some(i) =>
      assert s == s[..i] + [s[i]] + s[i + 1..];
  }

  /** The result is a prefix of the input, strictly shorter exactly when the input has a '.'. */
  lemma StripIsPrefix(s: string)
    ensures var r := StripExtension(s);
      |r| <= |s| && r == s[..|r|] && (|r| < |s| <==> '.' in s)
  {
  }

  /** The last '.' is determined by its two defining facts. */
  lemma LastDotIs(s: string, i: nat)
    requires i < |s| && s[i] == '.' && '.' !in s[i + 1..]
    ensures LastDot(s) == Some(i)
  {
  }

  /**
   * Only the last '.' goes, so the function is not idempotent; and the
   * '.' of a relative path or of a directory name counts like any other.
   */
  lemma StripExamples()
    ensures StripExtension("a.b.c") == "a.b"
    ensures StripExtension(StripExtension("a.b.c")) == "a" != StripExtension("a.b.c")
    ensures StripExtension("./prog") == ""
    ensures StripExtension("dir.d/prog") == "dir"
    ensures StripExtension("examples/main.chr") == "examples/main"
  {
    LastDotIs("a.b.c", 3);
    assert "a.b.c"[..3] == "a.b";
    LastDotIs("a.b", 1);
    assert "a.b"[..1] == "a";
    LastDotIs("./prog", 0);
    LastDotIs("dir.d/prog", 3);
    assert "dir.d/prog"[..3] == "dir";
    LastDotIs("examples/main.chr", 13);
    assert "examples/main.chr"[..13] == "examples/main";
  }


  // ---------------------------------------------------------------------
  // Names

  /** `char obj_name[256]`, `char exe_name[256]` and `char link_cmd[512]`. */
  const NameBufferSize: nat := 256
  const LinkBufferSize: nat := 512

  /** What `snprintf` leaves in a buffer of `size` bytes: at most `size - 1` characters of `s`. */
  function Snprintf(s: string, size: nat): (r: string)
    requires size > 0
    ensures |r| <= size - 1 && |r| <= |s| && r == s[..|r|]
    ensures |s| < size ==> r == s
  {
    if |s| < size then s else s[..size - 1]
  }

  function ObjectName(base: string): (r: string)
    ensures |r| <= NameBufferSize - 1 && |r| <= |base| + 2 && r == (base + ".o")[..|r|]
  {
    Snprintf(base + ".o", NameBufferSize)
  }

  function ExecutableName(base: string): (r: string)
    ensures |r| <= NameBufferSize - 1 && |r| <= |base| && r == base[..|r|]
  {
    Snprintf(base, NameBufferSize)
  }

  function LinkCommand(obj: string, exe: string): (r: string)
    ensures |r| <= LinkBufferSize - 1 && |r| <= |"clang " + obj + " -o " + exe| && r == ("clang " + obj + " -o " + exe)[..|r|]
  {
    Snprintf("clang " + obj + " -o " + exe, LinkBufferSize)
  }

  /**
   * The buffers bound the names: the object name is the base followed by
   * ".o" and the executable name the base itself only while they fit; from
   * 255 characters of base on, both are the same 255 characters.
   */
  lemma NameBounds(base: string)
    ensures |ObjectName(base)| <= NameBufferSize - 1 && |ExecutableName(base)| <= NameBufferSize - 1
    ensures ObjectName(base) == (base + ".o")[..|ObjectName(base)|]
    ensures |base| <= NameBufferSize - 3 ==> ObjectName(base) == base + ".o"
    ensures |base| <= NameBufferSize - 1 ==> ExecutableName(base) == base
    ensures |base| >= NameBufferSize - 1 ==> ObjectName(base) == ExecutableName(base)
  {
    if |base| >= NameBufferSize - 1 {
      assert (base + ".o")[..NameBufferSize - 1] == base[..NameBufferSize - 1];
    }
  }

  /** The link command is spelled out in full while the base has at most 249 characters. */
  lemma LinkCommandOfShortBase(base: string)
    requires |base| <= 249
    ensures LinkCommand(ObjectName(base), ExecutableName(base)) == "clang " + base + ".o -o " + base
  {
    assert "clang " + (base + ".o") + " -o " + base == "clang " + base + ".o -o " + base;
  }

  // ---------------------------------------------------------------------
  // main

  /** How the process ends: `main` returns or `exit` is called with a status, or a NULL dereference kills it. */
  datatype Termination = Exited(status: int) | Crashed

  /** What the driver hands to the back end: the module, and the two names built from the input's name. */
  datatype Artifacts = Artifacts(ir: seq<Function>, objectName: string, executableName: string)

  /**
   * `main`.  `argv` holds the arguments (program name first); `fileOpens`
   * is whether `fopen` succeeds, `parsed` whether `yyparse` returns 0 and
   * `root` the tree it leaves; `objectStatus` is what `compile_to_object`
   * returns and `linkStatus` what `system` returns for the link command.
   * `dumped` is whether the module is dumped, `built` what is given to
   * `compile_to_object` and `linked` the command given to `system`.
   */
  method RunMain(argv: seq<string>, fileOpens: bool, parsed: bool, root: Option<Node>, objectStatus: int, linkStatus: int)
    returns (t: Termination, dumped: bool, built: Option<Artifacts>, linked: Option<string>)
    requires forall k :: 0 <= k < |argv| ==> '\0' !in argv[k]
    requires |argv| >= 2 && fileOpens && parsed ==> ProgramFits(root)
    ensures |argv| < 2 ==> t == Exited(1) && !dumped && built.None? && linked.None?
    ensures |argv| >= 2 && !fileOpens ==> t == Exited(1) && !dumped && built.None? && linked.None?
    ensures |argv| >= 2 && fileOpens && !parsed ==> t == Exited(0) && !dumped && built.None? && linked.None?
    ensures |argv| >= 2 && fileOpens && parsed && Compile(Initial, root).Err? ==>
              && t == (if IsCrash(Compile(Initial, root).fatal) then Crashed else Exited(1))
              && !dumped && built.None? && linked.None?
    ensures |argv| >= 2 && fileOpens && parsed && Compile(Initial, root).Ok? ==>
              var base := StripExtension(argv[1]);
              && built == Some(Artifacts(Compile(Initial, root).value.functions, ObjectName(base), ExecutableName(base)))
              && (dumped <==> |argv| > 2 && argv[2] == "-llvm")
              && (objectStatus != 0 ==> t == Exited(objectStatus) && linked.None?)
              && (objectStatus == 0 ==> linked == Some(LinkCommand(ObjectName(base), ExecutableName(base))))
              && (objectStatus == 0 && linkStatus != 0 ==> t == Exited(linkStatus))
              && (objectStatus == 0 && linkStatus == 0 ==> t == Exited(0))
  {
    dumped, built, linked := false, None, None;
    if |argv| < 2 {
      return Exited(1), dumped, built, linked;
    }
    if !fileOpens {
      return Exited(1), dumped, built, linked;
    }
    if parsed {
      var cg := new CodeGen();
      var status := cg.CompileProgram(root);
      if status.Aborted? {
        t := if IsCrash(status.fatal) then Crashed else Exited(1);
        return;
      }
      var base := RemoveExtension(argv[1]);
      var objName := Snprintf(base + ".o", NameBufferSize);
      var exeName := Snprintf(base, NameBufferSize);
      if |argv| > 2 && argv[2] == "-llvm" {
        dumped := true;
      }
      built := Some(Artifacts(cg.functions, objName, exeName));
      if objectStatus != 0 {
        return Exited(objectStatus), dumped, built, linked;
      }
      var linkCmd := Snprintf("clang " + objName + " -o " + exeName, LinkBufferSize);
      linked := Some(linkCmd);
      if linkStatus != 0 {
        return Exited(linkStatus), dumped, built, linked;
      }
    }
    t := Exited(0);
  }

  // ---------------------------------------------------------------------
  // The exit status the parent process sees

  /** The status a parent observes: the low eight bits of the value returned or passed to `exit`. */
  function ObservedStatus(t: Termination): Option<int> {
    match t
    case Exited(s) => Some(s % 256)
    case Crashed => None
  }

  /** What `system` returns when the shell running the command exits normally with `code`. */
  function WaitStatus(code: int): int
    requires 0 <= code < 256
  {
    code * 256
  }

  /**
   * As written, `main` returns `system`'s result itself.  A linker that
   * fails with any exit code makes `main` take its failure branch, yet the
   * parent sees status 0: the failed build reports success.
   */
  lemma LinkFailureObservedAsSuccess(code: int)
    requires 0 < code < 256
    ensures WaitStatus(code) != 0
    ensures ObservedStatus(Exited(WaitStatus(code))) == Some(0)
  {
  }

  /**
   * The status evidently meant after a failed link: the linker's own exit
   * code (WEXITSTATUS), or 1 when the command did not exit normally with
   * a non-zero code.
   */
  function LinkFailureStatus(wait: int): (r: int)
    requires wait != 0
    ensures 0 < r < 256
  {
    var code := (wait / 256) % 256;
    if wait % 256 == 0 && code != 0 then code else 1
  }

  /**
   * With the corrected status, every failed link is observed as a
   * failure, and a linker's exit code reaches the parent unchanged.
   */
  lemma LinkFailureStatusIsFailure(wait: int)
    requires wait != 0
    ensures ObservedStatus(Exited(LinkFailureStatus(wait))) != Some(0)
    ensures 0 < wait && wait % 256 == 0 && wait < 0x1_0000 ==> LinkFailureStatus(wait) == wait / 256
  {
  }

  lemma LinkFailureStatusRoundTrip(code: int)
    requires 0 < code < 256
    ensures LinkFailureStatus(WaitStatus(code)) == code
  {
  }
}
