# Sense HAT call check, modelled in Dafny

The checker in `check_sensehat_functions_usage.py` rejects a Python program
when the program calls one of three Sense HAT display functions directly:
`set_pixel`, `set_pixels` or `load_image`. It walks the nodes of the parsed
module. At the first call node whose callee is a bare name on that list, it
prints one diagnostic line naming the function and returns `False`. If no
node matches, it returns `True`.

The model has three modules:

- `PyAst` (`py_ast.dfy`) holds the slice of Python's syntax tree the check
  looks at. A node is a call, a bare name, an attribute access, or any other
  node with its children. `HasId` plays the part of `hasattr(node, 'id')`.
  A walk of a tree is any sequence that holds every node occurrence exactly
  once, stated as multiset equality with `Nodes(t)`. Two concrete walks are
  proved to be walks: a pre-order walk, and the breadth-first order that
  CPython's `ast.walk` follows.
- `SenseHatCheck` (`sensehat_check.dfy`) holds the check itself.
  `CheckSensehatFunctionsUsage` is the scan loop. It takes the walked node
  sequence and returns the function's boolean result and the lines it prints.
  `FirstViolation` is its specification function. The lemmas give the
  properties of the scan: it stops at the first match, ignored nodes are
  invisible, matching is exact, and on every walk of a tree the verdict is
  whether the tree holds a banned call.
- `Scenarios` (`scenarios.dfy`) applies the model to concrete modules:
  clean code, a banned call, an attribute call, a bare reference, two banned
  calls, and a module whose reported name depends on the walk order.

The scan takes the walk as an input, so every property of the scan holds
whatever order the walk uses. Only the breadth-first function `Walk` stands
for CPython's `ast.walk`, and only the scenarios use it.

## Model

| member | source | states |
|---|---|---|
| `SenseHatCheck.CheckSensehatFunctionsUsage` | check_sensehat_functions_usage.py:12-17 | Returns True exactly when no walked node is a call of a bare denylisted name, and then prints nothing. Otherwise it returns False and prints exactly one line, the diagnostic naming the callee of the first such call in walk order. That is the name `FirstViolation` reports. |
| `SenseHatCheck.FirstViolation` | check_sensehat_functions_usage.py:12-17 | None exactly when the walk is clean. Otherwise it is the `id` of the call at a position `k` that is banned with no banned node before it. That name is always one of the three denylisted names. |
| `SenseHatCheck.Diagnostic` | check_sensehat_functions_usage.py:15 | The printed line is `Error: '` + name + `' function from Sense HAT should not be used.`, and the name can be read back from the fixed positions between the prefix and the suffix. |
| `SenseHatCheck.FirstViolationIsFirst` | check_sensehat_functions_usage.py:14-16 | The first banned position is unique: when position `k` holds the first banned call, the reported name is that call's `id`. |
| `SenseHatCheck.ViolationIsFinal` | check_sensehat_functions_usage.py:15-16 | Appending nodes after a walk that already holds a banned call changes neither the verdict nor the reported name. |
| `SenseHatCheck.StopsAtFirstMatch` | check_sensehat_functions_usage.py:12-16 | The verdict on the whole walk equals the verdict on the walk cut just after the first match, whatever follows the cut. So nodes after the match are never examined. |
| `SenseHatCheck.IgnoredNodeIsInvisible` | check_sensehat_functions_usage.py:13-14 | Inserting a node anywhere in the walk leaves the result unchanged when the node is not a call, is a call whose callee has no `id` (an attribute, a subscript, a call of a call), or calls a name that is not on the list. |
| `SenseHatCheck.IsBannedCall` | check_sensehat_functions_usage.py:13-14 | A node counts as a violation exactly when it is a call, its callee is a bare name, and that name is one of the three literal strings `set_pixel`, `set_pixels` and `load_image`. |
| `PyAst.HasId` | check_sensehat_functions_usage.py:14 | A callee has an `id` exactly when it is a bare name node `Name(id)`. |
| `SenseHatCheck.BannedNamesAreExact` | check_sensehat_functions_usage.py:4 | A call of a bare name is banned exactly when the name equals `set_pixel`, `set_pixels` or `load_image`. |
| `SenseHatCheck.NearMissesPass` | check_sensehat_functions_usage.py:4 | Near misses are not banned: `set_pixel2`, `Set_pixel` and `load_images`. |
| `SenseHatCheck.VerdictIgnoresOrder` | check_sensehat_functions_usage.py:12-17 | Two walks that hold the same nodes in different orders get the same True/False result. |
| `SenseHatCheck.ContainsBannedCallIffSomeNode` | check_sensehat_functions_usage.py:13-14 | The structural definition of "the tree holds a banned call" agrees with "some node occurrence of the tree is a banned call", in both directions. |
| `SenseHatCheck.SeqContainsBannedCallIffSomeNode` | check_sensehat_functions_usage.py:13-14 | The same agreement for a sequence of sibling trees. |
| `SenseHatCheck.WalkVerdictMatchesTree` | check_sensehat_functions_usage.py:12-17 | For every walk of a tree, in any order, the scan returns True exactly when the tree holds no banned call. |
| `PyAst.PreOrderIsWalk` | check_sensehat_functions_usage.py:12 | The pre-order listing of a tree visits every node occurrence exactly once, so it is a walk. |
| `PyAst.PreOrderOfSeqIsWalk` | check_sensehat_functions_usage.py:12 | The pre-order listing of sibling trees holds exactly the node occurrences of those trees. |
| `PyAst.Children` | check_sensehat_functions_usage.py:12 | A node's occurrences are the node itself plus the occurrences of its children. The children are listed in field order, with a call's callee before its arguments. |
| `PyAst.BreadthFirstVisitsAll` | check_sensehat_functions_usage.py:12 | Walking a queue breadth-first, yielding the head and queueing its children, yields every node occurrence reachable from the queue exactly once. |
| `PyAst.Walk` | check_sensehat_functions_usage.py:12 | CPython's `ast.walk(t)` runs breadth-first from the root, and the root is the first node yielded. `BreadthFirstIsWalk` proves it is a walk. |
| `PyAst.BreadthFirstIsWalk` | check_sensehat_functions_usage.py:12 | CPython's breadth-first `ast.walk` order is a walk of the tree. |
| `Scenarios.PrintHelloIsClean` | check_sensehat_functions_usage.py:12-17 | `print('hello')` is clean on every walk. |
| `Scenarios.AttributeCallIsClean` | check_sensehat_functions_usage.py:14 | `img.load_image('x.png')` is clean on every walk, because the callee is an attribute and has no `id`. |
| `Scenarios.BareReferenceIsClean` | check_sensehat_functions_usage.py:13 | `x = set_pixels` is clean on every walk, because a name that is not called is not a call node. |
| `Scenarios.SetPixelIsReported` | check_sensehat_functions_usage.py:14-16 | On CPython's breadth-first walk, `set_pixel(0, 0, 255, 0, 0)` is reported as `set_pixel`. |
| `Scenarios.OnlyFirstCallIsReported` | check_sensehat_functions_usage.py:15-16 | On CPython's breadth-first walk, when `set_pixel(...)` comes before `set_pixels(...)`, only `set_pixel` is reported. |
| `Scenarios.DepthFirstReportsLoadImage` | check_sensehat_functions_usage.py:12-16 | In a module where `load_image` is nested inside another call ahead of a later top-level `set_pixel`, the pre-order walk reports `load_image`. |
| `Scenarios.BreadthFirstReportsSetPixel` | check_sensehat_functions_usage.py:12-16 | On the same module, CPython's breadth-first walk reports `set_pixel`. |
| `Scenarios.ReportedNameDependsOnWalkOrder` | check_sensehat_functions_usage.py:12-16 | Both orders are walks of that module and both find a violation, but they name different functions. The reported name depends on the walk order, while the True/False verdict does not. |

## Left out

- Reading the file at `./main.py` (lines 7-8 and 19) is I/O. The model starts from the walked nodes.
- `ast.parse` (line 10) is Python's full grammar. A syntax error raises before any node is walked, so the check reaches no verdict. The model has no parser and no error path for this.
- `ast.walk` (line 12) is a library call whose order Python leaves open. The scan takes any walk as its input. `PyAst.Walk` models CPython's breadth-first order only for the scenarios. Node identity is not modelled: nodes are values, so two equal subtrees are the same value. The verdict and the reported name depend only on node contents, so nothing the check computes changes.
- The tree has only the node kinds the check distinguishes. Every other kind is `Other` with its children. The `ctx` child of a name and the fields of constants are left out, since neither can be a call. Keyword arguments are folded into a call's argument list.
- `print` is modelled as the list of lines the call emits, returned as `printed`. The function prints inside itself, before returning `False`. It is not a separate wrapper.
- The script tail (lines 19-22) is not modelled: the second fixed message and the process exit. As written, line 22 (`exit 1`) is not valid Python, so the script does not compile, and no exit status can be modelled.
