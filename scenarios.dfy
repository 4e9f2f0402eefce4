/**
  Concrete modules checked against the model: clean code, a banned call, an
  attribute call, a bare reference, two banned calls, and a module whose
  reported name depends on the walk order.

  Trees leave out the `ctx` child of names and give constants no children;
  neither can be a call.
 */
module Scenarios {
  import opened PyAst
  import opened SenseHatCheck

  /**
    The module
      f(load_image('a.png'))
      set_pixel(0, 0, 255, 0, 0)
    with its constant arguments left out, and two walks of it.
   */
  const LoadImageCall: Node := Call(Name("load_image"), [])
  const OuterCall: Node := Call(Name("f"), [LoadImageCall])
  const SetPixelCall: Node := Call(Name("set_pixel"), [])
  const FirstStatement: Node := Other("Expr", [OuterCall])
  const SecondStatement: Node := Other("Expr", [SetPixelCall])
  const TwoViolations: Node := Other("Module", [FirstStatement, SecondStatement])

  /** The pre-order walk of the module. */
  const DepthFirstWalk: seq<Node> :=
    [TwoViolations, FirstStatement, OuterCall, Name("f"), LoadImageCall, Name("load_image"),
     SecondStatement, SetPixelCall, Name("set_pixel")]

  lemma PreOrderOfOne(n: Node)
    ensures PreOrderOfSeq([n]) == PreOrder(n)
  {
    assert [n][1..] == [];
  }

  lemma DepthFirstWalkIsPreOrder()
    ensures PreOrder(TwoViolations) == DepthFirstWalk
  {
    assert PreOrder(LoadImageCall) == [LoadImageCall, Name("load_image")];
    PreOrderOfOne(LoadImageCall);
    assert PreOrder(OuterCall) == [OuterCall, Name("f"), LoadImageCall, Name("load_image")];
    PreOrderOfOne(OuterCall);
    assert PreOrder(FirstStatement) == [FirstStatement] + PreOrder(OuterCall);
    assert PreOrder(SetPixelCall) == [SetPixelCall, Name("set_pixel")];
    PreOrderOfOne(SetPixelCall);
    assert PreOrder(SecondStatement) == [SecondStatement] + PreOrder(SetPixelCall);
    PreOrderOfOne(SecondStatement);
    assert [FirstStatement, SecondStatement][1..] == [SecondStatement];
    assert PreOrderOfSeq([FirstStatement, SecondStatement]) == PreOrder(FirstStatement) + PreOrder(SecondStatement);
  }

  /** The first nodes of CPython's breadth-first walk of the module: both statements come before either call. */
  lemma BreadthFirstFromSecondStatement()
    ensures BreadthFirst([SecondStatement, OuterCall]) ==
            [SecondStatement, OuterCall, SetPixelCall] + BreadthFirst([Name("f"), LoadImageCall, Name("set_pixel")])
  {
    BreadthFirstStep([SecondStatement, OuterCall], [OuterCall, SetPixelCall]);
    BreadthFirstStep([OuterCall, SetPixelCall], [SetPixelCall, Name("f"), LoadImageCall]);
    BreadthFirstStep([SetPixelCall, Name("f"), LoadImageCall], [Name("f"), LoadImageCall, Name("set_pixel")]);
  }

  lemma BreadthFirstFromFirstStatement()
    ensures BreadthFirst([FirstStatement, SecondStatement]) ==
            [FirstStatement, SecondStatement, OuterCall, SetPixelCall] +
            BreadthFirst([Name("f"), LoadImageCall, Name("set_pixel")])
  {
    BreadthFirstStep([FirstStatement, SecondStatement], [SecondStatement, OuterCall]);
    BreadthFirstFromSecondStatement();
  }

  lemma BreadthFirstWalkPrefix()
    ensures Walk(TwoViolations) ==
            [TwoViolations, FirstStatement, SecondStatement, OuterCall, SetPixelCall] +
            BreadthFirst([Name("f"), LoadImageCall, Name("set_pixel")])
  {
    BreadthFirstStep([TwoViolations], [FirstStatement, SecondStatement]);
    BreadthFirstFromFirstStatement();
  }

  lemma ExampleCalls()
    ensures IsBannedCall(LoadImageCall) && IsBannedCall(SetPixelCall) && !IsBannedCall(OuterCall)
  {
    assert "f" != "set_pixel" && "f" != "set_pixels" && "f" != "load_image" by {
      assert |"f"| == 1;
    }
  }

  lemma DepthFirstReportsLoadImage()
    ensures FirstViolation(DepthFirstWalk) == Some("load_image")
  {
    ExampleCalls();
    assert DepthFirstWalk[..4] == [TwoViolations, FirstStatement, OuterCall, Name("f")];
    assert IsFirstBanned(DepthFirstWalk, 4);
    FirstViolationIsFirst(DepthFirstWalk, 4);
  }

  lemma BreadthFirstReportsSetPixel()
    ensures FirstViolation(Walk(TwoViolations)) == Some("set_pixel")
  {
    ExampleCalls();
    BreadthFirstWalkPrefix();
    var prefix := [TwoViolations, FirstStatement, SecondStatement, OuterCall, SetPixelCall];
    assert prefix[..4] == [TwoViolations, FirstStatement, SecondStatement, OuterCall];
    assert IsFirstBanned(prefix, 4);
    FirstViolationIsFirst(prefix, 4);
    ViolationIsFinal(prefix, BreadthFirst([Name("f"), LoadImageCall, Name("set_pixel")]));
  }

  /**
    Which banned call is reported depends on the walk order. In the module
    above a pre-order walk meets `load_image` first, while CPython's
    breadth-first `ast.walk` meets `set_pixel` first, since that call sits one
    level higher in the tree. Both are walks of the module, and both find it
    in violation.
   */
  lemma ReportedNameDependsOnWalkOrder()
    ensures IsWalk(TwoViolations, PreOrder(TwoViolations)) && IsWalk(TwoViolations, Walk(TwoViolations))
    ensures FirstViolation(PreOrder(TwoViolations)) == Some("load_image")
    ensures FirstViolation(Walk(TwoViolations)) == Some("set_pixel")
  {
    DepthFirstWalkIsPreOrder();
    PreOrderIsWalk(TwoViolations);
    BreadthFirstIsWalk(TwoViolations);
    DepthFirstReportsLoadImage();
    BreadthFirstReportsSetPixel();
  }

  const Constant: Node := Other("Constant", [])

  /** `print('hello')` */
  const PrintHello: Node := Other("Module", [Other("Expr", [Call(Name("print"), [Constant])])])

  /** `img.load_image('x.png')` */
  const AttributeCall: Node :=
    Other("Module", [Other("Expr", [Call(Attribute(Name("img"), "load_image"), [Constant])])])

  /** `x = set_pixels` */
  const BareReference: Node := Other("Module", [Other("Assign", [Name("x"), Name("set_pixels")])])

  lemma OneChild(n: Node)
    ensures SeqContainsBannedCall([n]) == ContainsBannedCall(n)
  {
    assert [n][1..] == [];
  }

  /** Clean code is clean on every walk. */
  lemma PrintHelloIsClean(walk: seq<Node>)
    requires IsWalk(PrintHello, walk)
    ensures FirstViolation(walk) == None
  {
    var call := Call(Name("print"), [Constant]);
    assert "print" !in SenseHatFunctions by { assert |"print"| == 5; }
    OneChild(Constant);
    assert !ContainsBannedCall(Constant);
    assert !ContainsBannedCall(call);
    OneChild(call);
    OneChild(Other("Expr", [call]));
    WalkVerdictMatchesTree(PrintHello, walk);
  }

  /** A call through an attribute is never matched, so the module is clean on every walk. */
  lemma AttributeCallIsClean(walk: seq<Node>)
    requires IsWalk(AttributeCall, walk)
    ensures FirstViolation(walk) == None
  {
    var call := Call(Attribute(Name("img"), "load_image"), [Constant]);
    OneChild(Constant);
    assert !ContainsBannedCall(Attribute(Name("img"), "load_image"));
    assert !ContainsBannedCall(Constant);
    assert !ContainsBannedCall(call);
    OneChild(call);
    OneChild(Other("Expr", [call]));
    WalkVerdictMatchesTree(AttributeCall, walk);
  }

  /** Naming a denylisted function without calling it is no violation, on every walk. */
  lemma BareReferenceIsClean(walk: seq<Node>)
    requires IsWalk(BareReference, walk)
    ensures FirstViolation(walk) == None
  {
    OneChild(Name("set_pixels"));
    assert [Name("x"), Name("set_pixels")][1..] == [Name("set_pixels")];
    OneChild(Other("Assign", [Name("x"), Name("set_pixels")]));
    WalkVerdictMatchesTree(BareReference, walk);
  }

  /** `set_pixel(0, 0, 255, 0, 0)` */
  const SetPixelStatement: Node :=
    Other("Expr", [Call(Name("set_pixel"), [Constant, Constant, Constant, Constant, Constant])])
  const SetPixelModule: Node := Other("Module", [SetPixelStatement])

  /** The walk reports `set_pixel`; by the scan's contract one diagnostic naming it is printed. */
  lemma SetPixelIsReported()
    ensures FirstViolation(Walk(SetPixelModule)) == Some("set_pixel")
  {
    var call := SetPixelStatement.children[0];
    BreadthFirstStep([SetPixelModule], [SetPixelStatement]);
    BreadthFirstStep([SetPixelStatement], [call]);
    BreadthFirstStep([call], Children(call));
    var prefix := [SetPixelModule, SetPixelStatement, call];
    assert Walk(SetPixelModule) == prefix + BreadthFirst(Children(call));
    assert IsFirstBanned(prefix, 2);
    FirstViolationIsFirst(prefix, 2);
    ViolationIsFinal(prefix, BreadthFirst(Children(call)));
  }

  /** `set_pixel(1, 1, 0, 0, 0)` followed by `set_pixels(pixels)` */
  const FirstCall: Node := Call(Name("set_pixel"), [Constant, Constant, Constant, Constant, Constant])
  const SecondCall: Node := Call(Name("set_pixels"), [Name("pixels")])
  const FirstExpr: Node := Other("Expr", [FirstCall])
  const SecondExpr: Node := Other("Expr", [SecondCall])
  const TwoCalls: Node := Other("Module", [FirstExpr, SecondExpr])

  lemma TwoCallsWalkTail()
    ensures BreadthFirst([SecondExpr, FirstCall]) == [SecondExpr, FirstCall] + BreadthFirst([SecondCall] + Children(FirstCall))
  {
    BreadthFirstStep([SecondExpr, FirstCall], [FirstCall, SecondCall]);
    BreadthFirstStep([FirstCall, SecondCall], [SecondCall] + Children(FirstCall));
  }

  lemma TwoCallsFromFirstExpr()
    ensures BreadthFirst([FirstExpr, SecondExpr]) == [FirstExpr, SecondExpr, FirstCall] + BreadthFirst([SecondCall] + Children(FirstCall))
  {
    BreadthFirstStep([FirstExpr, SecondExpr], [SecondExpr, FirstCall]);
    TwoCallsWalkTail();
  }

  lemma TwoCallsWalkPrefix()
    ensures Walk(TwoCalls) == [TwoCalls, FirstExpr, SecondExpr, FirstCall] + BreadthFirst([SecondCall] + Children(FirstCall))
  {
    BreadthFirstStep([TwoCalls], [FirstExpr, SecondExpr]);
    TwoCallsFromFirstExpr();
  }

  /** Only the first of two banned calls is reported; the scan stops there. */
  lemma OnlyFirstCallIsReported()
    ensures FirstViolation(Walk(TwoCalls)) == Some("set_pixel")
  {
    TwoCallsWalkPrefix();
    var prefix := [TwoCalls, FirstExpr, SecondExpr, FirstCall];
    assert IsFirstBanned(prefix, 3);
    FirstViolationIsFirst(prefix, 3);
    ViolationIsFinal(prefix, BreadthFirst([SecondCall] + Children(FirstCall)));
  }
}
