/**
 * An abstract Python syntax tree, reduced to what the analyzer looks at,
 * and the traversal order of Python's `ast.walk`.
 *
 * The parser itself (`ast.parse`) is not modelled: a tree is given. Every
 * node kind the analyzer does not inspect (module, `if`, `for`, `try`,
 * `async def`, expressions, ...) is an `OtherNode` that keeps its children,
 * so the walk order of the nodes that matter is preserved.
 */
module SyntaxTree {

  /** An assignment target: a bare name, or anything else (attribute, subscript, tuple, ...). */
  datatype Target = Name(id: string) | OtherTarget

  /** The right-hand side of an assignment: a literal constant, or any other expression. */
  datatype Expr = Constant | OtherExpr

  datatype Node =
      /** `def name(posOnlyArgs, /, args)` with `defaultCount` default values
          (for the position-only and ordinary parameters together) and the
          cleaned docstring (`ast.get_docstring(node) or ''`). */
    | FunctionDef(name: string, posOnlyArgs: seq<string>, args: seq<string>, defaultCount: nat,
                  docstring: string, body: seq<Node>)
    | ClassDef(name: string, docstring: string, body: seq<Node>)
    | Assign(targets: seq<Target>, value: Expr)
    | OtherNode(children: seq<Node>)

  /** The nodes `ast.iter_child_nodes` yields that can contain definitions. */
  function Children(n: Node): seq<Node> {
    match n
    case FunctionDef(_, _, _, _, _, body) => body
    case ClassDef(_, _, body) => body
    case Assign(_, _) => []
    case OtherNode(children) => children
  }

  /** The number of nodes in a tree. */
  function Size(n: Node): nat
    decreases n
  {
    match n
    case FunctionDef(_, _, _, _, _, body) => 1 + SizeSum(body)
    case ClassDef(_, _, body) => 1 + SizeSum(body)
    case Assign(_, _) => 1
    case OtherNode(children) => 1 + SizeSum(children)
  }

  /** The number of nodes in a forest. */
  function SizeSum(ns: seq<Node>): nat
    decreases ns
  {
    if ns == [] then 0 else Size(ns[0]) + SizeSum(ns[1..])
  }

  lemma {:induction false} SizeSumAppend(a: seq<Node>, b: seq<Node>)
    ensures SizeSum(a + b) == SizeSum(a) + SizeSum(b)
  {
    if a == [] {
      assert a + b == b;
    } else {
      assert (a + b)[1..] == a[1..] + b;
      SizeSumAppend(a[1..], b);
    }
  }

  /** One step of the walk shrinks the work left: the first pending node is replaced by its children. */
  lemma WalkStepShrinks(todo: seq<Node>)
    requires todo != []
    ensures SizeSum(todo[1..] + Children(todo[0])) + 1 == SizeSum(todo)
  {
    SizeSumAppend(todo[1..], Children(todo[0]));
    match todo[0]
    case Assign(_, _) => assert Children(todo[0]) == [];
    case _ =>
  }

  /**
   * `ast.walk` on a queue of pending nodes: take the first, enqueue its
   * children at the back, yield it. This is breadth-first order.
   */
  function WalkQueue(todo: seq<Node>): (order: seq<Node>)
    decreases SizeSum(todo)
  {
    if todo == [] then []
    else
      var next := todo[1..] + Children(todo[0]);
      WalkStepShrinks(todo);
      [todo[0]] + WalkQueue(next)
  }

  /** `ast.walk(root)`. */
  function Walk(root: Node): seq<Node> {
    WalkQueue([root])
  }

  /** The walk yields each pending node and each of their descendants exactly once. */
  lemma {:induction false} WalkQueueLength(todo: seq<Node>)
    ensures |WalkQueue(todo)| == SizeSum(todo)
    decreases SizeSum(todo)
  {
    if todo != [] {
      var next := todo[1..] + Children(todo[0]);
      WalkStepShrinks(todo);
      WalkQueueLength(next);
    }
  }

  /** Every pending node is visited. */
  lemma {:induction false} WalkQueueVisitsPending(todo: seq<Node>, n: Node)
    requires n in todo
    ensures n in WalkQueue(todo)
    decreases SizeSum(todo)
  {
    if n != todo[0] {
      var next := todo[1..] + Children(todo[0]);
      WalkStepShrinks(todo);
      assert n in next;
      WalkQueueVisitsPending(next, n);
    }
  }

  /** The children of a visited node are visited too. */
  lemma {:induction false} WalkQueueVisitsChildren(todo: seq<Node>, n: Node, c: Node)
    requires n in WalkQueue(todo) && c in Children(n)
    ensures c in WalkQueue(todo)
    decreases SizeSum(todo)
  {
    var next := todo[1..] + Children(todo[0]);
    WalkStepShrinks(todo);
    if n == todo[0] {
      WalkQueueVisitsPending(next, c);
    } else {
      WalkQueueVisitsChildren(next, n, c);
    }
  }

  /**
   * `ast.walk(root)` starts at the root, visits every node of the tree once
   * (its length is the tree's size), and visits the children of every node
   * it visits, so nested definitions (methods inside classes, functions
   * inside functions) are visited as well.
   */
  lemma WalkVisitsTree(root: Node)
    ensures |Walk(root)| == Size(root) && Walk(root)[0] == root
    ensures forall n, c :: n in Walk(root) && c in Children(n) ==> c in Walk(root)
  {
    WalkQueueLength([root]);
    assert SizeSum([root]) == Size(root);
    forall n, c | n in Walk(root) && c in Children(n)
      ensures c in Walk(root)
    {
      WalkQueueVisitsChildren([root], n, c);
    }
  }

}
