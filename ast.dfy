/**
 * The syntax tree handed to the lowering stage (src/ast.h) and its
 * constructor (src/ast.c).
 *
 * A node carries a kind, an optional name (`value`, NULL in C), a 32-bit
 * integer literal and three optional links.  Which link means what depends
 * on the kind: a function keeps its statements in `left` and its return
 * literal in `right`; a call keeps its first argument in `left`, the next
 * argument of an argument list in `next`, and the next call statement of a
 * body in `right`; an assignment keeps its right-hand side in `left`;
 * top-level declarations are chained through `next`.
 */
module Ast {
  import opened Wrappers

  /** C `int`, the type of `int_value`. */
  newtype int32 = x: int | -0x8000_0000 <= x < 0x8000_0000

  /** `NodeType`, in declaration order. */
  datatype NodeKind = NodeProg | NodeFunc | NodeCall | NodeStr | NodeNum | NodeIdent | NodeVar

  datatype Node = Node(
    kind: NodeKind,
    value: Option<string>,
    intValue: int32,
    left: Option<Node>,
    right: Option<Node>,
    next: Option<Node>)

  /** Number of nodes reachable from `n` through all three links. */
  function Size(n: Node): nat
    decreases n, 1
  {
    1 + OptSize(n.left) + OptSize(n.right) + OptSize(n.next)
  }

  function OptSize(o: Option<Node>): nat
    decreases o, 0
  {
    match o
    case None => 0
    case Some(n) => Size(n)
  }

  /** The sequence reached by following `next` from `o` (argument lists, declarations). */
  function Chain(o: Option<Node>): (s: seq<Node>)
    decreases o
  {
    match o
    case None => []
    case Some(n) => [n] + Chain(n.next)
  }

  /** The sequence reached by following `right` from `o` (call statements of a body). */
  function RightChain(o: Option<Node>): (s: seq<Node>)
    decreases o
  {
    match o
    case None => []
    case Some(n) => [n] + RightChain(n.right)
  }

  /**
   * `create_node`: a node of the given kind whose name is a copy of `val`
   * (or NULL), whose literal is 0 and whose children are `l` and `r`; it is
   * not yet linked to a sibling.
   */
  function CreateNode(kind: NodeKind, val: Option<string>, l: Option<Node>, r: Option<Node>): (n: Node)
    ensures n.kind == kind && n.value == val
    ensures n.intValue == 0
    ensures n.left == l && n.right == r && n.next == None
    ensures Size(n) == 1 + OptSize(l) + OptSize(r)
  {
    Node(kind, val, 0, l, r, None)
  }
}
