/**
  The part of Python's abstract syntax tree that the Sense HAT call check
  looks at. Only three node kinds matter to the check: calls, bare names and
  attribute accesses. Every other kind of node (modules, statements,
  constants, subscripts, keywords, ...) is an `Other` node that carries its
  kind and its child nodes, so that a tree still holds every node a walk
  over it would visit.
 */
module PyAst {

  datatype Node =
    | Call(func: Node, args: seq<Node>)        // `func(args...)`; args holds the positional and keyword argument nodes
    | Name(id: string)                         // a bare identifier such as `set_pixel`
    | Attribute(value: Node, attr: string)     // `value.attr`, as in `img.load_image`
    | Other(kind: string, children: seq<Node>) // any other kind; `kind` is never "Call", "Name" or "Attribute"

  /** `hasattr(e, 'id')`: among the node kinds, only a bare name has an `id` field. */
  predicate HasId(e: Node)
    ensures HasId(e) <==> exists id :: e == Name(id)
  {
    e.Name?
  }

  /** The node occurrences of a tree: the root and those of every child, each once. */
  function Nodes(t: Node): (ns: multiset<Node>)
    decreases t
  {
    multiset{t} +
    match t
    case Call(f, args) => Nodes(f) + NodesOfSeq(args)
    case Name(_) => multiset{}
    case Attribute(v, _) => Nodes(v)
    case Other(_, cs) => NodesOfSeq(cs)
  }

  function NodesOfSeq(ts: seq<Node>): (ns: multiset<Node>)
    decreases ts
  {
    if ts == [] then multiset{} else Nodes(ts[0]) + NodesOfSeq(ts[1..])
  }

  /**
    A walk of `t` lists every node occurrence of `t` exactly once, in some
    order. Python's `ast.walk` is such a walk; its order is left open.
   */
  ghost predicate IsWalk(t: Node, walk: seq<Node>) {
    multiset(walk) == Nodes(t)
  }

  /** A walk in pre-order: the node first, then the walks of its children from left to right. */
  function PreOrder(t: Node): (walk: seq<Node>)
    decreases t
  {
    [t] +
    match t
    case Call(f, args) => PreOrder(f) + PreOrderOfSeq(args)
    case Name(_) => []
    case Attribute(v, _) => PreOrder(v)
    case Other(_, cs) => PreOrderOfSeq(cs)
  }

  function PreOrderOfSeq(ts: seq<Node>): (walk: seq<Node>)
    decreases ts
  {
    if ts == [] then [] else PreOrder(ts[0]) + PreOrderOfSeq(ts[1..])
  }

  /** Pre-order is a walk: it visits every node of the tree exactly once. */
  lemma {:induction false} PreOrderIsWalk(t: Node)
    ensures IsWalk(t, PreOrder(t))
    decreases t
  {
    match t
    case Call(f, args) =>
      PreOrderIsWalk(f);
      PreOrderOfSeqIsWalk(args);
    case Name(_) =>
    case Attribute(v, _) =>
      PreOrderIsWalk(v);
    case Other(_, cs) =>
      PreOrderOfSeqIsWalk(cs);
  }

  lemma {:induction false} PreOrderOfSeqIsWalk(ts: seq<Node>)
    ensures multiset(PreOrderOfSeq(ts)) == NodesOfSeq(ts)
    decreases ts
  {
    if ts != [] {
      PreOrderIsWalk(ts[0]);
      PreOrderOfSeqIsWalk(ts[1..]);
    }
  }

  /** The child nodes of a node, in field order (`ast.iter_child_nodes`). */
  function Children(n: Node): (cs: seq<Node>)
    ensures NodesOfSeq(cs) + multiset{n} == Nodes(n)
  {
    match n
    case Call(f, args) =>
      assert ([f] + args)[0] == f && ([f] + args)[1..] == args;
      [f] + args
    case Name(_) => []
    case Attribute(v, _) =>
      assert [v][1..] == [];
      [v]
    case Other(_, cs) => cs
  }

  lemma {:induction false} NodesOfSeqAppend(a: seq<Node>, b: seq<Node>)
    ensures NodesOfSeq(a + b) == NodesOfSeq(a) + NodesOfSeq(b)
    decreases |a|
  {
    if a == [] {
      assert a + b == b;
    } else {
      assert (a + b)[0] == a[0] && (a + b)[1..] == a[1..] + b;
      NodesOfSeqAppend(a[1..], b);
    }
  }

  /**
    Breadth-first walk from a queue of pending nodes: yield the head, queue
    its children at the back. This is the order of CPython's `ast.walk`.
   */
  function BreadthFirst(todo: seq<Node>): (walk: seq<Node>)
    decreases |NodesOfSeq(todo)|
  {
    if todo == [] then []
    else
      var next := todo[1..] + Children(todo[0]);
      NodesOfSeqAppend(todo[1..], Children(todo[0]));
      [todo[0]] + BreadthFirst(next)
  }

  /** Every node reachable from the queue is yielded exactly once. */
  lemma {:induction false} BreadthFirstVisitsAll(todo: seq<Node>)
    ensures multiset(BreadthFirst(todo)) == NodesOfSeq(todo)
    decreases |NodesOfSeq(todo)|
  {
    if todo != [] {
      var next := todo[1..] + Children(todo[0]);
      NodesOfSeqAppend(todo[1..], Children(todo[0]));
      BreadthFirstVisitsAll(next);
    }
  }

  /** One step of the breadth-first walk: the head is yielded and its children join the queue. */
  lemma BreadthFirstStep(todo: seq<Node>, next: seq<Node>)
    requires todo != [] && next == todo[1..] + Children(todo[0])
    ensures BreadthFirst(todo) == [todo[0]] + BreadthFirst(next)
  {
  }

  /** `ast.walk(t)` as CPython runs it: breadth-first from the root. */
  function Walk(t: Node): (walk: seq<Node>)
    ensures |walk| > 0 && walk[0] == t
  {
    BreadthFirstStep([t], Children(t));
    BreadthFirst([t])
  }

  /** CPython's breadth-first order is a walk: it visits every node of the tree exactly once. */
  lemma BreadthFirstIsWalk(t: Node)
    ensures IsWalk(t, Walk(t))
  {
    assert [t][1..] == [];
    assert NodesOfSeq([t]) == Nodes(t) + NodesOfSeq([]);
    BreadthFirstVisitsAll([t]);
  }
}
