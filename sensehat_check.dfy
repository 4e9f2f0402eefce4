/**
  The Sense HAT call check: scan the nodes of a Python module, in the order a
  tree walk yields them, and reject the module at the first call whose callee
  is a bare name on a fixed list of three display functions.

  The scan takes the walked node sequence as its input, so it holds for any
  walk order; the lemmas at the end relate that sequence back to the tree it
  was walked from.
 */
module SenseHatCheck {
  import opened PyAst

  datatype Option<T> = None | Some(value: T)

  /** The denylisted display functions, in the order the source lists them. */
  const SenseHatFunctions: seq<string> := ["set_pixel", "set_pixels", "load_image"]

  /** A call whose callee carries an `id` (a bare name) that is on the denylist. */
  predicate IsBannedCall(n: Node)
    ensures IsBannedCall(n) <==>
      n.Call? && n.func.Name? &&
      (n.func.id == "set_pixel" || n.func.id == "set_pixels" || n.func.id == "load_image")
  {
    n.Call? && HasId(n.func) && n.func.id in SenseHatFunctions
  }

  /** The line printed for a violation, naming the offending function. */
  function Diagnostic(name: string): (line: string)
    ensures |line| == |name| + 53
    ensures line[..8] == "Error: '"
    ensures line[8..8 + |name|] == name
    ensures line[8 + |name|..] == "' function from Sense HAT should not be used."
  {
    "Error: '" + name + "' function from Sense HAT should not be used."
  }

  /** No node of the walk is a banned call. */
  ghost predicate Clean(walk: seq<Node>) {
    forall i | 0 <= i < |walk| :: !IsBannedCall(walk[i])
  }

  /** Position `k` holds the first banned call of the walk. */
  ghost predicate IsFirstBanned(walk: seq<Node>, k: int) {
    0 <= k < |walk| && IsBannedCall(walk[k]) && Clean(walk[..k])
  }

  /**
    The name of the first banned call of the walk, or None when there is
    none: the verdict the scan reaches, as a function of the walk.
   */
  function FirstViolation(walk: seq<Node>): (r: Option<string>)
    ensures r.None? <==> Clean(walk)
    ensures r.Some? ==> exists k :: IsFirstBanned(walk, k) && r.value == walk[k].func.id
    ensures r.Some? ==> r.value in SenseHatFunctions
    decreases |walk|
  {
    if walk == [] then None
    else if IsBannedCall(walk[0]) then Some(walk[0].func.id)
    else
      var r := FirstViolation(walk[1..]);
      assert r.Some? ==> exists k :: IsFirstBanned(walk, k) && r.value == walk[k].func.id by {
        if r.Some? {
          var k :| IsFirstBanned(walk[1..], k) && r.value == walk[1..][k].func.id;
          assert walk[..k + 1] == [walk[0]] + walk[1..][..k];
          assert IsFirstBanned(walk, k + 1);
        }
      }
      assert r.None? <==> Clean(walk) by {
        if Clean(walk[1..]) {
          forall i | 0 <= i < |walk| ensures !IsBannedCall(walk[i]) {
            if i > 0 { assert walk[i] == walk[1..][i - 1]; }
          }
        }
      }
      r
  }

  /**
    The scan of `check_sensehat_functions_usage` over the walked nodes.
    `ok` is the function's return value and `printed` the lines it prints:
    one diagnostic naming the first banned call, or nothing when the walk is
    clean.
   */
  method CheckSensehatFunctionsUsage(walk: seq<Node>) returns (ok: bool, printed: seq<string>)
    ensures ok <==> Clean(walk)
    ensures ok ==> printed == []
    ensures !ok ==> exists k :: IsFirstBanned(walk, k) && printed == [Diagnostic(walk[k].func.id)]
    ensures !ok ==> FirstViolation(walk).Some? && printed == [Diagnostic(FirstViolation(walk).value)]
  {
    var i := 0;
    while i < |walk|
      invariant 0 <= i <= |walk|
      invariant Clean(walk[..i])
    {
      var node := walk[i];
      if node.Call? {
        if HasId(node.func) && node.func.id in SenseHatFunctions {
          assert IsFirstBanned(walk, i);
          FirstViolationIsFirst(walk, i);
          printed := [Diagnostic(node.func.id)];
          return false, printed;
        }
      }
      assert walk[..i + 1] == walk[..i] + [node];
      i := i + 1;
    }
    assert walk[..i] == walk;
    return true, [];
  }

  /** The first banned call is unique, so FirstViolation reports exactly its name. */
  lemma FirstViolationIsFirst(walk: seq<Node>, k: int)
    requires IsFirstBanned(walk, k)
    ensures FirstViolation(walk) == Some(walk[k].func.id)
  {
    var r := FirstViolation(walk);
    var j :| IsFirstBanned(walk, j) && r.value == walk[j].func.id;
  }

  /**
    Once a prefix of the walk holds a banned call, nodes walked after it
    change neither the verdict nor the reported name: the scan has returned.
   */
  lemma {:induction false} ViolationIsFinal(a: seq<Node>, b: seq<Node>)
    requires FirstViolation(a).Some?
    ensures FirstViolation(a + b) == FirstViolation(a)
    decreases |a|
  {
    if !IsBannedCall(a[0]) {
      assert (a + b)[1..] == a[1..] + b;
      ViolationIsFinal(a[1..], b);
    }
  }

  /**
    The scan stops at the first banned call: whatever follows it in the walk,
    the verdict is the one reached on the walk up to and including that call.
   */
  lemma StopsAtFirstMatch(walk: seq<Node>, k: int, later: seq<Node>)
    requires IsFirstBanned(walk, k)
    ensures FirstViolation(walk[..k + 1] + later) == FirstViolation(walk) == Some(walk[k].func.id)
  {
    var prefix := walk[..k + 1];
    assert prefix[k] == walk[k] && prefix[..k] == walk[..k];
    FirstViolationIsFirst(prefix, k);
    FirstViolationIsFirst(walk, k);
    ViolationIsFinal(prefix, later);
  }

  /**
    A node that is not a banned call never affects the scan, wherever it
    stands in the walk: a node that is not a call (a bare reference such as
    `x = set_pixels`), a call whose callee has no `id` (`img.load_image(...)`,
    a subscript, a call of a call), or a call of a name off the list.
   */
  lemma {:induction false} IgnoredNodeIsInvisible(a: seq<Node>, n: Node, b: seq<Node>)
    requires !n.Call? || !HasId(n.func) || n.func.id !in SenseHatFunctions
    ensures FirstViolation(a + [n] + b) == FirstViolation(a + b)
    decreases |a|
  {
    if a == [] {
      assert a + [n] + b == [n] + b && ([n] + b)[1..] == b && a + b == b;
    } else {
      assert (a + [n] + b)[1..] == a[1..] + [n] + b;
      assert (a + b)[1..] == a[1..] + b;
      IgnoredNodeIsInvisible(a[1..], n, b);
    }
  }

  /**
    Matching is exact equality with one of the three listed names: a call of
    a bare name is banned exactly when the name is one of them, so near misses
    such as `set_pixel2` or `Set_pixel` pass.
   */
  lemma BannedNamesAreExact(name: string, args: seq<Node>)
    ensures IsBannedCall(Call(Name(name), args)) <==>
            name == "set_pixel" || name == "set_pixels" || name == "load_image"
  {
  }

  /** Near misses of a listed name, by one character or by case, are not banned. */
  lemma NearMissesPass(args: seq<Node>)
    ensures !IsBannedCall(Call(Name("set_pixel2"), args))
    ensures !IsBannedCall(Call(Name("Set_pixel"), args))
    ensures !IsBannedCall(Call(Name("load_images"), args))
  {
    assert "Set_pixel"[0] != "set_pixel"[0];
    assert "set_pixel2"[..9] == "set_pixel";
  }

  /** Whether the verdict is clean does not depend on the order of the walk, only on which nodes it holds. */
  lemma VerdictIgnoresOrder(a: seq<Node>, b: seq<Node>)
    requires multiset(a) == multiset(b)
    ensures FirstViolation(a).None? <==> FirstViolation(b).None?
  {
    if !Clean(a) {
      var i :| 0 <= i < |a| && IsBannedCall(a[i]);
      assert a[i] in multiset(b);
      var j :| 0 <= j < |b| && b[j] == a[i];
    }
    if !Clean(b) {
      var j :| 0 <= j < |b| && IsBannedCall(b[j]);
      assert b[j] in multiset(a);
      var i :| 0 <= i < |a| && a[i] == b[j];
    }
  }

  /** Whether a tree holds a banned call anywhere, by structural recursion. */
  predicate ContainsBannedCall(t: Node)
    decreases t
  {
    IsBannedCall(t) ||
    match t
    case Call(f, args) => ContainsBannedCall(f) || SeqContainsBannedCall(args)
    case Name(_) => false
    case Attribute(v, _) => ContainsBannedCall(v)
    case Other(_, cs) => SeqContainsBannedCall(cs)
  }

  predicate SeqContainsBannedCall(ts: seq<Node>)
    decreases ts
  {
    ts != [] && (ContainsBannedCall(ts[0]) || SeqContainsBannedCall(ts[1..]))
  }

  /** Some occurrence in `m` is a banned call. */
  ghost predicate HasBannedNode(m: multiset<Node>) {
    exists x :: x in m && IsBannedCall(x)
  }

  lemma BannedNodeInUnion(m1: multiset<Node>, m2: multiset<Node>)
    ensures HasBannedNode(m1 + m2) <==> HasBannedNode(m1) || HasBannedNode(m2)
  {
    if HasBannedNode(m1 + m2) {
      var x :| x in m1 + m2 && IsBannedCall(x);
      assert x in m1 || x in m2;
    }
    if HasBannedNode(m1) {
      var x :| x in m1 && IsBannedCall(x);
      assert x in m1 + m2;
    }
    if HasBannedNode(m2) {
      var x :| x in m2 && IsBannedCall(x);
      assert x in m1 + m2;
    }
  }

  lemma BannedNodeInSingleton(n: Node)
    ensures HasBannedNode(multiset{n}) <==> IsBannedCall(n)
  {
    if IsBannedCall(n) {
      assert n in multiset{n};
    }
  }

  /** A tree holds a banned call exactly when one of its node occurrences is one. */
  lemma {:induction false} ContainsBannedCallIffSomeNode(t: Node)
    ensures ContainsBannedCall(t) <==> HasBannedNode(Nodes(t))
    decreases t
  {
    BannedNodeInSingleton(t);
    match t
    case Call(f, args) =>
      ContainsBannedCallIffSomeNode(f);
      SeqContainsBannedCallIffSomeNode(args);
      BannedNodeInUnion(Nodes(f), NodesOfSeq(args));
      BannedNodeInUnion(multiset{t}, Nodes(f) + NodesOfSeq(args));
    case Name(_) =>
      BannedNodeInUnion(multiset{t}, multiset{});
    case Attribute(v, _) =>
      ContainsBannedCallIffSomeNode(v);
      BannedNodeInUnion(multiset{t}, Nodes(v));
    case Other(_, cs) =>
      SeqContainsBannedCallIffSomeNode(cs);
      BannedNodeInUnion(multiset{t}, NodesOfSeq(cs));
  }

  lemma {:induction false} SeqContainsBannedCallIffSomeNode(ts: seq<Node>)
    ensures SeqContainsBannedCall(ts) <==> HasBannedNode(NodesOfSeq(ts))
    decreases ts
  {
    if ts != [] {
      ContainsBannedCallIffSomeNode(ts[0]);
      SeqContainsBannedCallIffSomeNode(ts[1..]);
      BannedNodeInUnion(Nodes(ts[0]), NodesOfSeq(ts[1..]));
    }
  }

  /**
    For every walk of a tree, whatever its order, the scan returns True
    exactly when the tree holds no banned call.
   */
  lemma WalkVerdictMatchesTree(t: Node, walk: seq<Node>)
    requires IsWalk(t, walk)
    ensures FirstViolation(walk).None? <==> !ContainsBannedCall(t)
  {
    ContainsBannedCallIffSomeNode(t);
    if !Clean(walk) {
      var i :| 0 <= i < |walk| && IsBannedCall(walk[i]);
      assert walk[i] in multiset(walk);
    }
    if ContainsBannedCall(t) {
      var x :| x in Nodes(t) && IsBannedCall(x);
      assert x in multiset(walk);
      var i :| 0 <= i < |walk| && walk[i] == x;
    }
  }
}
