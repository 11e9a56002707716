/** The abstract syntax tree that Python's `ast.parse` produces, reduced to the
    node kinds the code-safety gate inspects, and the breadth-first order in
    which `ast.walk` visits it. The parser itself is not modelled: its outcome
    is an input (`ParseOutcome`). */
module PySyntax {

  /** One syntax-tree node. Every node kind the gate does not look into is
      `Other`, which keeps its children so that the walk still reaches the
      nodes below it. Children are listed in the order `ast.iter_child_nodes`
      yields them. */
  datatype Node =
      /** `import m` (its alias children are never inspected). */
    | Import
      /** `from m import n`. */
    | ImportFrom
      /** A call: the callee expression, then the argument and keyword nodes. */
    | Call(func: Node, args: seq<Node>)
      /** A bare name, such as `open`. */
    | Name(id: string)
      /** `value.attr`. */
    | Attribute(value: Node, attr: string)
      /** `def name(...)`: `params` are the names in the positional parameter
          list `args.args`; `children` are the arguments node, the body
          statements, the decorators and the return annotation. */
    | FunctionDef(name: string, params: seq<string>, children: seq<Node>)
      /** Any other node, with its child nodes. */
    | Other(children: seq<Node>)

  /** The root node of a parsed text: its top-level statements. */
  datatype Module = Module(body: seq<Node>)

  /** What `ast.parse(code)` gives: a tree, a `SyntaxError`, or some other
      exception raised by the parser, with its text. */
  datatype ParseOutcome =
    | Parsed(tree: Module)
    | SyntaxError
    | ParserFault(message: string)

  /** The child nodes of `n`, in `ast.iter_child_nodes` order. */
  function Children(n: Node): seq<Node> {
    match n
    case Call(f, args) => [f] + args
    case Attribute(v, _) => [v]
    case FunctionDef(_, _, c) => c
    case Other(c) => c
    case _ => []
  }

  /** Every node of the subtree rooted at `n`, in depth-first pre-order: an
      independent definition of "the nodes of the tree". */
  function Nodes(n: Node): seq<Node> {
    [n] + match n
      case Call(f, args) => Nodes(f) + NodesOf(args)
      case Attribute(v, _) => Nodes(v)
      case FunctionDef(_, _, c) => NodesOf(c)
      case Other(c) => NodesOf(c)
      case _ => []
  }

  /** Every node of every subtree rooted in `q`. */
  function NodesOf(q: seq<Node>): seq<Node> {
    if q == [] then [] else Nodes(q[0]) + NodesOf(q[1..])
  }

  lemma {:induction false} NodesOfAppend(a: seq<Node>, b: seq<Node>)
    ensures NodesOf(a + b) == NodesOf(a) + NodesOf(b)
  {
    if a != [] {
      assert (a + b)[0] == a[0];
      assert (a + b)[1..] == a[1..] + b;
      NodesOfAppend(a[1..], b);
    } else {
      assert a + b == b;
    }
  }

  /** Below a node lie exactly the nodes of its children's subtrees. */
  lemma NodesOfChildren(n: Node)
    ensures NodesOf(Children(n)) == Nodes(n)[1..]
  {
    match n
    case Call(f, args) =>
      assert ([f] + args)[0] == f;
      assert ([f] + args)[1..] == args;
    case Attribute(v, _) =>
      assert [v][1..] == [];
    case _ =>
  }

  /** `ast.walk` over a queue of pending nodes: take the first, append its
      children at the back, go on. */
  function Walk(queue: seq<Node>): (visited: seq<Node>)
    ensures |visited| == |NodesOf(queue)|
    decreases |NodesOf(queue)|
  {
    if queue == [] then []
    else
      var n := queue[0];
      WalkMeasure(queue);
      [n] + Walk(queue[1..] + Children(n))
  }

  /** The pending nodes after one step of the walk are one fewer than before. */
  lemma WalkMeasure(queue: seq<Node>)
    requires queue != []
    ensures NodesOf(queue[1..] + Children(queue[0])) == NodesOf(queue[1..]) + Nodes(queue[0])[1..]
    ensures |NodesOf(queue[1..] + Children(queue[0]))| == |NodesOf(queue)| - 1
  {
    var n := queue[0];
    NodesOfAppend(queue[1..], Children(n));
    NodesOfChildren(n);
    assert NodesOf(queue) == Nodes(n) + NodesOf(queue[1..]);
  }

  /** The walk visits every node of the trees in its queue exactly once: it
      yields the same multiset of nodes as the pre-order listing. */
  lemma {:induction false} WalkVisitsEachNodeOnce(queue: seq<Node>)
    ensures multiset(Walk(queue)) == multiset(NodesOf(queue))
    decreases |NodesOf(queue)|
  {
    if queue != [] {
      var n := queue[0];
      var rest := queue[1..] + Children(n);
      WalkMeasure(queue);
      WalkVisitsEachNodeOnce(rest);
      assert NodesOf(queue) == Nodes(n) + NodesOf(queue[1..]);
      assert Nodes(n) == [n] + Nodes(n)[1..];
    }
  }

  /** The nodes `ast.walk(tree)` yields after the root `Module` node, which the
      gate never rejects. */
  function WalkModule(tree: Module): seq<Node> {
    Walk(tree.body)
  }

  /** `x` is a node somewhere in the tree. */
  predicate InTree(x: Node, tree: Module) {
    x in NodesOf(tree.body)
  }

  /** The walk reaches a node exactly when it lies in the tree. */
  lemma WalkReachesExactlyTheTree(tree: Module, x: Node)
    ensures x in WalkModule(tree) <==> InTree(x, tree)
  {
    WalkVisitsEachNodeOnce(tree.body);
    assert x in WalkModule(tree) <==> x in multiset(WalkModule(tree));
    assert InTree(x, tree) <==> x in multiset(NodesOf(tree.body));
  }
}
