/**
 * shapeNameConform/shape_name_conform.py and its older copy
 * snippets/maya_rename_shape.py: give every shape the name of its
 * transform followed by "Shape", over the selection or over the selection
 * and everything below it.
 *
 * The scene is a map from each node's long name to the long names of its
 * children (`listRelatives`), the set of nodes whose inherited types include
 * "shape", and the host answers the renaming script asks for (`Host`).
 */
module ShapeConform {
  import opened Wrappers
  import opened Strings
  import opened SeqErrors

  type Graph = map<string, set<string>>

  /** `listRelatives(nodes)`: the children of any of the nodes. */
  function Kids(g: Graph, nodes: set<string>): set<string> {
    set p, c | p in nodes && p in g && c in g[p] :: c
  }

  /** Every node that is some node's child. */
  function Universe(g: Graph): set<string> {
    set p, c | p in g && c in g[p] :: c
  }

  /** The nodes at most `k` levels below `node` (and at least one). */
  function Within(g: Graph, node: string, k: nat): set<string> {
    if k == 0 then {} else Kids(g, {node}) + Kids(g, Within(g, node, k - 1))
  }

  /** The transitive descendants of `node`. */
  ghost function Descendants(g: Graph, node: string): set<string> {
    set x | x in Universe(g) && exists k: nat :: x in Within(g, node, k)
  }

  lemma KidsUnion(g: Graph, a: set<string>, b: set<string>)
    ensures Kids(g, a + b) == Kids(g, a) + Kids(g, b)
  {
  }

  lemma KidsMono(g: Graph, a: set<string>, b: set<string>)
    requires a <= b
    ensures Kids(g, a) <= Kids(g, b)
  {
  }

  lemma KidsInUniverse(g: Graph, a: set<string>)
    ensures Kids(g, a) <= Universe(g)
  {
  }

  lemma {:induction false} WithinGrows(g: Graph, node: string, k: nat)
    ensures Within(g, node, k) <= Within(g, node, k + 1)
    decreases k
  {
    if k > 0 {
      WithinGrows(g, node, k - 1);
      KidsMono(g, Within(g, node, k - 1), Within(g, node, k));
    }
  }

  lemma {:induction false} WithinGrowsTo(g: Graph, node: string, j: nat, k: nat)
    requires j <= k
    ensures Within(g, node, j) <= Within(g, node, k)
    decreases k - j
  {
    if j < k {
      WithinGrows(g, node, j);
      WithinGrowsTo(g, node, j + 1, k);
    }
  }

  /** Once a level adds nothing new, no deeper level does. */
  lemma {:induction false} WithinStable(g: Graph, node: string, r: nat, k: nat)
    requires Within(g, node, r + 1) == Within(g, node, r)
    ensures Within(g, node, k) <= Within(g, node, r)
    decreases k
  {
    if k <= r {
      WithinGrowsTo(g, node, k, r);
    } else {
      WithinStable(g, node, r, k - 1);
      KidsMono(g, Within(g, node, k - 1), Within(g, node, r));
    }
  }

  /** One round of the `while children` loop moves the frontier one level down. */
  lemma FrontierStep(g: Graph, node: string, r: nat, children: set<string>)
    requires children == Within(g, node, r + 1) - Within(g, node, r)
    ensures Within(g, node, r) + children == Within(g, node, r + 1)
    ensures Kids(g, children) - Within(g, node, r + 1) == Within(g, node, r + 2) - Within(g, node, r + 1)
  {
    WithinGrows(g, node, r);
    var w := Within(g, node, r);
    var w1 := Within(g, node, r + 1);
    assert w1 == w + children;
    KidsUnion(g, w, children);
    assert Kids(g, w) <= w1;
    assert Within(g, node, r + 2) == Kids(g, {node}) + Kids(g, w) + Kids(g, children);
    assert Kids(g, {node}) <= w1;
  }

  /** The descendants contain the children and are closed under taking children. */
  lemma DescendantsClosed(g: Graph, node: string)
    ensures Kids(g, {node}) <= Descendants(g, node)
    ensures Kids(g, Descendants(g, node)) <= Descendants(g, node)
  {
    var d := Descendants(g, node);
    forall x | x in Kids(g, {node}) ensures x in d {
      assert x in Within(g, node, 1);
    }
    forall x | x in Kids(g, d) ensures x in d {
      var p :| p in d && p in g && x in g[p];
      var k: nat :| p in Within(g, node, k);
      assert x in Within(g, node, k + 1);
    }
  }

  /** … and they are the least such set: nothing that is not a descendant is included. */
  lemma DescendantsLeast(g: Graph, node: string, t: set<string>)
    requires Kids(g, {node}) <= t && Kids(g, t) <= t
    ensures Descendants(g, node) <= t
  {
    forall x | x in Descendants(g, node) ensures x in t {
      var k: nat :| x in Within(g, node, k);
      WithinInside(g, node, t, k);
    }
  }

  lemma {:induction false} WithinInside(g: Graph, node: string, t: set<string>, k: nat)
    requires Kids(g, {node}) <= t && Kids(g, t) <= t
    ensures Within(g, node, k) <= t
    decreases k
  {
    if k > 0 {
      WithinInside(g, node, t, k - 1);
      KidsMono(g, Within(g, node, k - 1), t);
    }
  }

  predicate Distinct(xs: seq<string>) {
    forall i, j :: 0 <= i < j < |xs| ==> xs[i] != xs[j]
  }

  /** `list(a_set)`: the elements of the set, once each, in an order the host picks. */
  method ListOf(s: set<string>) returns (xs: seq<string>)
    ensures Distinct(xs) && forall x :: x in xs <==> x in s
  {
    xs := [];
    var rest := s;
    while rest != {}
      invariant Distinct(xs) && rest <= s
      invariant forall x :: x in xs <==> x in s && x !in rest
      decreases rest
    {
      var x :| x in rest;
      xs := xs + [x];
      rest := rest - {x};
    }
  }

  /** `get_children_hierarchy`: every transitive descendant of `node`, once each. */
  method ChildrenHierarchy(g: Graph, node: string) returns (result: seq<string>)
    ensures Distinct(result)
    ensures forall x :: x in result <==> x in Descendants(g, node)
  {
    var found: set<string> := {};
    var children := Kids(g, {node});
    ghost var r: nat := 0;
    KidsInUniverse(g, {node});
    while children != {}
      invariant found == Within(g, node, r) && children == Within(g, node, r + 1) - Within(g, node, r)
      invariant found <= Universe(g) && children <= Universe(g)
      decreases Universe(g) - found
    {
      FrontierStep(g, node, r, children);
      KidsInUniverse(g, children);
      found := found + children;
      children := Kids(g, children) - found;
      r := r + 1;
    }
    WithinGrows(g, node, r);
    forall x | x in Within(g, node, r + 1) ensures x in Within(g, node, r) {
      assert x !in children;
    }
    forall x | x in Descendants(g, node) ensures x in found {
      var k: nat :| x in Within(g, node, k);
      WithinStable(g, node, r, k);
    }
    result := ListOf(found);
  }

  /** Appending each of `xs` that is neither listed yet nor a shape: the loops' `if … not in …: append`. */
  function AppendNew(out: seq<string>, xs: seq<string>, shapes: set<string>): seq<string> {
    if xs == [] then out
    else
      var prev := AppendNew(out, xs[..|xs| - 1], shapes);
      var x := xs[|xs| - 1];
      if x !in prev && x !in shapes then prev + [x] else prev
  }

  /** What appending the new non-shapes keeps: the old list as prefix, no repeats, and exactly the expected members. */
  lemma {:induction false} AppendNewFacts(out: seq<string>, xs: seq<string>, shapes: set<string>)
    requires Distinct(out)
    ensures out <= AppendNew(out, xs, shapes) && Distinct(AppendNew(out, xs, shapes))
    ensures forall x :: x in AppendNew(out, xs, shapes) <==> x in out || (x in xs && x !in shapes)
    decreases |xs|
  {
    if xs != [] {
      AppendNewFacts(out, xs[..|xs| - 1], shapes);
      assert xs == xs[..|xs| - 1] + [xs[|xs| - 1]];
    }
  }

  /** The inner loop of `get_nodes_from_selection`. */
  method AddChildren(out: seq<string>, childList: seq<string>, shapes: set<string>) returns (r: seq<string>)
    ensures r == AppendNew(out, childList, shapes)
  {
    r := out;
    for k := 0 to |childList|
      invariant r == AppendNew(out, childList[..k], shapes)
    {
      assert childList[..k + 1][..k] == childList[..k];
      var child := childList[k];
      if child !in r {
        if child !in shapes {
          r := r + [child];
        }
      }
    }
    assert childList[..|childList|] == childList;
  }

  /** The selected nodes and all their descendants, over a prefix of the selection. */
  ghost function Covered(g: Graph, sel: seq<string>): set<string> {
    if sel == [] then {}
    else Covered(g, sel[..|sel| - 1]) + {sel[|sel| - 1]} + Descendants(g, sel[|sel| - 1])
  }

  /**
   * The i-th selected node is not a shape and is not listed yet when its
   * turn comes: neither selected or reached earlier nor its own descendant.
   */
  ghost predicate NewAtTurn(g: Graph, sel: seq<string>, i: nat, shapes: set<string>)
    requires i < |sel|
  {
    sel[i] !in shapes && sel[i] !in Covered(g, sel[..i]) + Descendants(g, sel[i])
  }

  /** `a` is listed somewhere before `b`. */
  predicate Precedes(xs: seq<string>, a: string, b: string) {
    exists p, q :: 0 <= p < q < |xs| && xs[p] == a && xs[q] == b
  }

  /**
   * Hierarchy mode of `get_nodes_from_selection`: for each selected node,
   * its new non-shape descendants, then itself if new and not a shape.
   * The result lists each selected node and each descendant that is not a
   * shape exactly once, and a selected node that was not listed yet when
   * its turn came comes after all of its non-shape descendants.
   */
  method Hierarchy(g: Graph, sel: seq<string>, shapes: set<string>) returns (out: seq<string>)
    ensures Distinct(out)
    ensures forall x :: x in out <==> x in Covered(g, sel) && x !in shapes
    ensures forall i, x :: 0 <= i < |sel| && NewAtTurn(g, sel, i, shapes) && x in Descendants(g, sel[i]) && x !in shapes ==> Precedes(out, x, sel[i])
  {
    out := [];
    for i := 0 to |sel|
      invariant Distinct(out)
      invariant forall x :: x in out <==> x in Covered(g, sel[..i]) && x !in shapes
      invariant Ordered(g, sel, shapes, out, i)
    {
      var node := sel[i];
      var childList := ChildrenHierarchy(g, node);
      TurnKeeps(g, sel, i, shapes, out, childList);
      ghost var prev := out;
      out := AddChildren(out, childList, shapes);
      if node !in out {
        if node !in shapes {
          out := out + [node];
        }
      }
      assert out == AppendNew(AppendNew(prev, childList, shapes), [node], shapes) by {
        assert [node][..0] == [];
      }
    }
    assert sel[..|sel|] == sel;
  }

  /** Every selected node up to `n` that was new at its turn comes after its non-shape descendants. */
  ghost predicate Ordered(g: Graph, sel: seq<string>, shapes: set<string>, out: seq<string>, n: nat)
    requires n <= |sel|
  {
    forall j, x :: 0 <= j < n && NewAtTurn(g, sel, j, shapes) && x in Descendants(g, sel[j]) && x !in shapes ==> Precedes(out, x, sel[j])
  }

  /** One turn of the outer loop keeps the three invariants of `Hierarchy`. */
  lemma TurnKeeps(g: Graph, sel: seq<string>, i: nat, shapes: set<string>, out: seq<string>, childList: seq<string>)
    requires i < |sel| && Distinct(out)
    requires forall x :: x in out <==> x in Covered(g, sel[..i]) && x !in shapes
    requires Ordered(g, sel, shapes, out, i)
    requires forall x :: x in childList <==> x in Descendants(g, sel[i])
    ensures var next := AppendNew(AppendNew(out, childList, shapes), [sel[i]], shapes);
      Distinct(next) && (forall x :: x in next <==> x in Covered(g, sel[..i + 1]) && x !in shapes) && Ordered(g, sel, shapes, next, i + 1)
  {
    var node := sel[i];
    assert sel[..i + 1][..i] == sel[..i];
    assert Covered(g, sel[..i + 1]) == Covered(g, sel[..i]) + {node} + Descendants(g, node);
    var mid := AppendNew(out, childList, shapes);
    AppendNewFacts(out, childList, shapes);
    AppendNewFacts(mid, [node], shapes);
    var next := AppendNew(mid, [node], shapes);
    PrecedesKept(out, next, sel, i, g, shapes);
    if NewAtTurn(g, sel, i, shapes) {
      assert next == mid + [node];
      forall x | x in Descendants(g, node) && x !in shapes ensures Precedes(next, x, node) {
        var p :| 0 <= p < |mid| && mid[p] == x;
        assert next[p] == x && next[|mid|] == node;
      }
    }
  }

  lemma PrecedesKept(out: seq<string>, longer: seq<string>, sel: seq<string>, i: nat, g: Graph, shapes: set<string>)
    requires out <= longer && i <= |sel|
    requires Ordered(g, sel, shapes, out, i)
    ensures Ordered(g, sel, shapes, longer, i)
  {
    forall j, x | 0 <= j < i && NewAtTurn(g, sel, j, shapes) && x in Descendants(g, sel[j]) && x !in shapes
      ensures Precedes(longer, x, sel[j])
    {
      var p, q :| 0 <= p < q < |out| && out[p] == x && out[q] == sel[j];
      assert longer[p] == x && longer[q] == sel[j];
    }
  }

  /** `ls(node, uuid=True)` for every node, concatenated: what `nodes_list_to_uuid` builds. */
  function Uuids(nodes: seq<string>, uuidsOf: map<string, seq<string>>): seq<string> {
    if nodes == [] then []
    else Uuids(nodes[..|nodes| - 1], uuidsOf) + (if nodes[|nodes| - 1] in uuidsOf then uuidsOf[nodes[|nodes| - 1]] else [])
  }

  /** With one identifier per node, the i-th identifier is that of the i-th node. */
  lemma {:induction false} UuidsOnePerNode(nodes: seq<string>, uuidsOf: map<string, seq<string>>)
    requires forall k :: 0 <= k < |nodes| ==> nodes[k] in uuidsOf && |uuidsOf[nodes[k]]| == 1
    ensures |Uuids(nodes, uuidsOf)| == |nodes|
    ensures forall k :: 0 <= k < |nodes| ==> Uuids(nodes, uuidsOf)[k] == uuidsOf[nodes[k]][0]
    decreases |nodes|
  {
    if nodes != [] {
      var init := nodes[..|nodes| - 1];
      UuidsOnePerNode(init, uuidsOf);
      forall k | 0 <= k < |nodes| ensures Uuids(nodes, uuidsOf)[k] == uuidsOf[nodes[k]][0] {
        if k < |init| {
          assert nodes[k] == init[k];
        }
      }
    }
  }

  /** `nodes_list_to_uuid` */
  method NodesToUuid(nodes: seq<string>, uuidsOf: map<string, seq<string>>) returns (uuids: seq<string>)
    ensures uuids == Uuids(nodes, uuidsOf)
  {
    uuids := [];
    for k := 0 to |nodes|
      invariant uuids == Uuids(nodes[..k], uuidsOf)
    {
      assert nodes[..k + 1][..k] == nodes[..k];
      var more := if nodes[k] in uuidsOf then uuidsOf[nodes[k]] else [];
      uuids := uuids + more;
    }
    assert nodes[..|nodes|] == nodes;
  }

  /** What hierarchy mode collects: every selected node and descendant that is not a shape, once, descendants before their new selected ancestor. */
  ghost predicate IsHierarchy(g: Graph, sel: seq<string>, shapes: set<string>, nodes: seq<string>) {
    && Distinct(nodes)
    && (forall x :: x in nodes <==> x in Covered(g, sel) && x !in shapes)
    && (forall i, x :: 0 <= i < |sel| && NewAtTurn(g, sel, i, shapes) && x in Descendants(g, sel[i]) && x !in shapes ==> Precedes(nodes, x, sel[i]))
  }

  /**
   * `get_nodes_from_selection`: None for an empty selection, the
   * identifiers of the selection without the hierarchy, and the collected
   * hierarchy otherwise.
   */
  method NodesFromSelection(sel: seq<string>, includeHierarchy: bool, g: Graph, shapes: set<string>, uuidsOf: map<string, seq<string>>)
    returns (r: Option<seq<string>>)
    ensures r.None? <==> sel == []
    ensures sel != [] && !includeHierarchy ==> r == Some(Uuids(sel, uuidsOf))
    ensures sel != [] && includeHierarchy ==> r.Some? && IsHierarchy(g, sel, shapes, r.value)
  {
    if sel == [] {
      return None;
    }
    if !includeHierarchy {
      var uuids := NodesToUuid(sel, uuidsOf);
      return Some(uuids);
    }
    var out := Hierarchy(g, sel, shapes);
    return Some(out);
  }

  // ---------------------------------------------------------------------------
  // rename_shape and run

  /** The two copies of the script word their messages differently. */
  datatype Script = Conform | Snippet

  /** What the host answers to `rename(shape, new_name)`. */
  datatype RenameAnswer = Renamed(name: string) | Refused(failure: Failure)

  /**
   * The host queries `rename_shape` makes: `ls(node, long=True)`,
   * `listRelatives(shapes=True)` and `rename`.
   */
  datatype Host = Host(
    longNames: map<string, seq<string>>,
    shapesOf: map<string, seq<string>>,
    rename: map<(string, string), RenameAnswer>)

  datatype RenameOutcome = Done(result: string) | Raised(failure: Failure)

  /** The new shape name: the last "|" segment of the long name, then "Shape". */
  function NewName(longName: string): string {
    AfterLast(longName, "|") + "Shape"
  }

  /** Under the long name "<parents>|<name>" the shape becomes "<name>Shape". */
  lemma NewNameOfPath(parents: string, name: string)
    requires Free(name, '|')
    ensures NewName(parents + "|" + name) == name + "Shape"
  {
    AfterLastOfFree(parents, '|', name);
  }

  /** The new name never holds "|": it names a node, not a path. */
  lemma NewNameIsName(longName: string)
    ensures EndsWith(NewName(longName), "Shape") && !Contains(NewName(longName), "|")
  {
    var last := AfterLast(longName, "|");
    AfterLastShape(longName, "|");
    EndsWithTail(last, "Shape");
    forall j | 0 <= j < |last| ensures last[j] != '|' {
      if last[j] == '|' {
        assert last[j..j + 1] == "|";
        ContainsAt(last, "|", j);
      }
    }
    FreeNotContains(last + "Shape", "|");
  }

  function NoShapeMessage(script: Script, node: string): string {
    if script == Conform then "[rename_shape] Given node <" + node + "> doesn't have a shape."
    else "[rename_shape]: Given node <" + node + "> doesn't have a shape."
  }

  function NoNameMessage(script: Script, node: string): string {
    if script == Conform then "[rename_shape] Can't find node name from node <" + node + ">"
    else "[rename_shape]: Can't find node name from node " + node
  }

  function RenameFailedMessage(script: Script, shape: string, newName: string, cause: Failure): string {
    if script == Conform then "[rename_shape] Can't rename node <" + LJust(shape, 85) + "> to <" + newName + ">: " + cause.message
    else "[rename_shape]: Can't rename node '" + LJust(shape, 85) + "' to '" + newName + "': " + cause.message
  }

  /** What indexing an empty list raises. */
  const IndexFailure := Failure("IndexError", "list index out of range")

  /** `listRelatives(longName, shapes=True, fullPath=True)`: the shapes under a node, none when the host lists nothing. */
  function ShapesUnder(host: Host, longName: string): seq<string> {
    if longName in host.shapesOf then host.shapesOf[longName] else []
  }

  /**
   * `rename_shape`: the first long name of the node (IndexError without one)
   * must have a shape and be non-empty; its first shape is then renamed to
   * `NewName(longName)`, and the host's refusal (or a rename it does not
   * answer) is re-raised as a RuntimeError naming the shape and the new name.
   */
  function RenameShape(script: Script, node: string, host: Host): (r: RenameOutcome)
    ensures (node !in host.longNames || host.longNames[node] == []) ==> r == Raised(IndexFailure)
    ensures r.Raised? && r.failure != IndexFailure ==> r.failure.kind == "RuntimeError"
    ensures node in host.longNames && host.longNames[node] != [] ==>
      var longName := host.longNames[node][0];
      var shapes := ShapesUnder(host, longName);
      && (shapes == [] ==> r == Raised(Failure("RuntimeError", NoShapeMessage(script, node))))
      && (shapes != [] && longName == "" ==> r == Raised(Failure("RuntimeError", NoNameMessage(script, node))))
      && (shapes != [] && longName != "" ==>
            var key := (shapes[0], NewName(longName));
            && (r.Done? <==> key in host.rename && host.rename[key].Renamed?)
            && (r.Done? ==> host.rename[key] == Renamed(r.result))
            && (key in host.rename && host.rename[key].Refused? ==>
                  r == Raised(Failure("RuntimeError", RenameFailedMessage(script, shapes[0], NewName(longName), host.rename[key].failure)))))
    ensures r.Done? ==>
      exists shape :: (shape, NewName(host.longNames[node][0])) in host.rename && host.rename[(shape, NewName(host.longNames[node][0]))] == Renamed(r.result)
  {
    var longNames := if node in host.longNames then host.longNames[node] else [];
    if longNames == [] then Raised(IndexFailure)
    else
      var longName := longNames[0];
      var shapes := ShapesUnder(host, longName);
      if shapes == [] then Raised(Failure("RuntimeError", NoShapeMessage(script, node)))
      else if longName == "" then Raised(Failure("RuntimeError", NoNameMessage(script, node)))
      else
        var shape := shapes[0];
        var newName := NewName(longName);
        var answer := if (shape, newName) in host.rename then host.rename[(shape, newName)] else Refused(Failure("RuntimeError", ""));
        match answer
        case Renamed(name) => Done(name)
        case Refused(cause) => Raised(Failure("RuntimeError", RenameFailedMessage(script, shape, newName, cause)))
  }

  /** A node with a long name but no shape fails with the script's "no shape" message. */
  lemma NoShapeRaises(script: Script, node: string, host: Host)
    requires node in host.longNames && host.longNames[node] != []
    requires var n := host.longNames[node][0]; n !in host.shapesOf || host.shapesOf[n] == []
    ensures RenameShape(script, node, host) == Raised(Failure("RuntimeError", NoShapeMessage(script, node)))
  {
  }

  /** The errors the loop of `run` / `main` records: one per node whose renaming raised, in order. */
  function Failures(script: Script, nodes: seq<string>, host: Host): (r: seq<Entry>)
    ensures |r| <= |nodes|
  {
    if nodes == [] then []
    else
      var node := nodes[|nodes| - 1];
      Failures(script, nodes[..|nodes| - 1], host) + Recorded(script, node, host)
  }

  /** The record one node leaves: its error, if renaming it raised. */
  function Recorded(script: Script, node: string, host: Host): seq<Entry> {
    match RenameShape(script, node, host)
    case Raised(f) => [Entry(node, f)]
    case Done(_) => []
  }

  lemma FailuresStep(script: Script, nodes: seq<string>, i: nat, host: Host)
    requires i < |nodes|
    ensures Failures(script, nodes[..i + 1], host) == Failures(script, nodes[..i], host) + Recorded(script, nodes[i], host)
  {
    assert nodes[..i + 1][..i] == nodes[..i];
  }

  /** A node's failure is recorded, under the node, exactly when renaming it raises; the others are still renamed. */
  lemma {:induction false} FailuresIff(script: Script, nodes: seq<string>, host: Host)
    ensures forall e :: e in Failures(script, nodes, host) ==> e.source in nodes && RenameShape(script, e.source, host) == Raised(e.failure)
    ensures forall n :: n in nodes && RenameShape(script, n, host).Raised? ==> Entry(n, RenameShape(script, n, host).failure) in Failures(script, nodes, host)
    decreases |nodes|
  {
    if nodes != [] {
      var init := nodes[..|nodes| - 1];
      FailuresIff(script, init, host);
      assert nodes == init + [nodes[|nodes| - 1]];
    }
  }

  /** The level `log` reports at in each copy. */
  function LogLevel(script: Script): Level {
    if script == Conform then Error else Info
  }

  /**
   * `run` (and `main` in the older copy), as written: the renaming loop
   * over the collected nodes, each failure recorded, then the log. With an
   * empty selection the collected list is None and the loop raises
   * TypeError before anything is logged.
   */
  method Run(script: Script, nodes: Option<seq<string>>, host: Host) returns (outcome: Outcome, record: Option<Record>)
    ensures nodes.None? ==> outcome == Fail(TypeError) && record.None?
    ensures nodes.Some? ==>
      outcome == Pass &&
      var failures := Failures(script, nodes.value, host);
      (record.None? <==> failures == []) &&
      (record.Some? ==> record.value == Record(LogLevel(script), PlainReport(failures)))
  {
    if nodes.None? {
      return Fail(TypeError), None;
    }
    var errorh := new ErrorHandler("");
    var list := nodes.value;
    for i := 0 to |list|
      invariant errorh.Valid() && errorh.added == Failures(script, list[..i], host)
    {
      FailuresStep(script, list, i, host);
      RenameAndRecord(script, list[i], host, errorh);
    }
    assert list[..|list|] == list;
    record := errorh.Log(LogLevel(script));
    return Pass, record;
  }

  /** One turn of the loop: rename `node`, and record its error if renaming it raised. */
  method RenameAndRecord(script: Script, node: string, host: Host, errorh: ErrorHandler)
    requires errorh.Valid()
    modifies errorh
    ensures errorh.Valid() && errorh.added == old(errorh.added) + Recorded(script, node, host)
  {
    var r := RenameShape(script, node, host);
    if r.Raised? {
      errorh.Add(node, r.failure);
    }
  }

  /** The log a run over `nodes` leaves: nothing when no node failed, else one record of all the failures. */
  predicate LoggedRun(script: Script, nodes: seq<string>, host: Host, record: Option<Record>) {
    var failures := Failures(script, nodes, host);
    && (record.None? <==> failures == [])
    && (record.Some? ==> record.value == Record(LogLevel(script), PlainReport(failures)))
  }

  /**
   * The whole script as written: collect the nodes, then run the loop. An
   * empty selection is reported by `get_nodes_from_selection` and then
   * makes the loop raise TypeError.
   */
  method RunScript(script: Script, sel: seq<string>, includeHierarchy: bool, g: Graph, shapes: set<string>,
                uuidsOf: map<string, seq<string>>, host: Host) returns (outcome: Outcome, record: Option<Record>)
    ensures sel == [] ==> outcome == Fail(TypeError) && record.None?
    ensures sel != [] ==> outcome == Pass
  {
    var nodes := NodesFromSelection(sel, includeHierarchy, g, shapes, uuidsOf);
    outcome, record := Run(script, nodes, host);
  }

  /**
   * The script with the evidently intended stop on an empty selection:
   * nothing is renamed, nothing raised and nothing logged beyond the
   * selection error; otherwise it is `RunScript`.
   */
  method GuardedRunScript(script: Script, sel: seq<string>, includeHierarchy: bool, g: Graph, shapes: set<string>,
                       uuidsOf: map<string, seq<string>>, host: Host) returns (outcome: Outcome, record: Option<Record>)
    ensures outcome == Pass
    ensures sel == [] ==> record.None?
    ensures sel != [] && !includeHierarchy ==>
      var failures := Failures(script, Uuids(sel, uuidsOf), host);
      (record.None? <==> failures == []) && (record.Some? ==> record.value == Record(LogLevel(script), PlainReport(failures)))
    ensures sel != [] && includeHierarchy ==>
      exists nodes :: IsHierarchy(g, sel, shapes, nodes) && LoggedRun(script, nodes, host, record)
    ensures sel != [] && includeHierarchy ==>
      (record.None? <==> forall x :: x in Covered(g, sel) && x !in shapes ==> RenameShape(script, x, host).Done?)
  {
    var nodes := NodesFromSelection(sel, includeHierarchy, g, shapes, uuidsOf);
    if nodes.None? {
      return Pass, None;
    }
    outcome, record := Run(script, nodes, host);
    if includeHierarchy {
      assert LoggedRun(script, nodes.value, host, record);
      HierarchyRecord(script, g, sel, shapes, nodes.value, host, record);
    }
  }

  /** A logged run over a hierarchy reports nothing exactly when every non-shape node under the selection is renamed. */
  lemma HierarchyRecord(script: Script, g: Graph, sel: seq<string>, shapes: set<string>, nodes: seq<string>,
                        host: Host, record: Option<Record>)
    requires IsHierarchy(g, sel, shapes, nodes) && LoggedRun(script, nodes, host, record)
    ensures record.None? <==> forall x :: x in Covered(g, sel) && x !in shapes ==> RenameShape(script, x, host).Done?
  {
    FailuresIff(script, nodes, host);
    if record.Some? {
      var e := Failures(script, nodes, host)[0];
      assert e in Failures(script, nodes, host);
    }
  }
}
