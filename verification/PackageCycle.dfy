/** The guardrail that keeps the kernel's packages acyclic: building the import graph
    and searching it, without recursion, for one cycle. */
module PackageCycle {
  import opened Contracts

  type Graph = map<string, set<string>>

  datatype Colour = White | Grey | Black

  datatype Frame = Frame(node: string, path: seq<string>)

  // ---- the graph -------------------------------------------------------------------

  /** Every import leads to a package of the graph. */
  predicate Closed(edges: Graph) { forall n :: n in edges ==> edges[n] <= edges.Keys }

  /** The package a dotted module name starts with. */
  function TopLevel(m: string): string {
    if m == "" || m[0] == '.' then "" else [m[0]] + TopLevel(m[1..])
  }

  /** It is what stands before the first dot. */
  lemma {:induction false} TopLevelIs(m: string)
    ensures TopLevel(m) <= m && '.' !in TopLevel(m)
    ensures |TopLevel(m)| < |m| ==> m[|TopLevel(m)|] == '.'
  {
    if m != "" && m[0] != '.' { TopLevelIs(m[1..]); }
  }

  predicate Imports(packages: set<string>, imports: map<string, seq<string>>, name: string, target: string) {
    && name in imports && target in packages && target != name
    && exists i :: 0 <= i < |imports[name]| && TopLevel(imports[name][i]) == target
  }

  /** `imports` lists, package by package, the modules its files import at any depth. */
  method PackageEdges(packages: set<string>, imports: map<string, seq<string>>) returns (edges: Graph)
    requires imports.Keys == packages
    ensures edges.Keys == packages && Closed(edges)
    ensures forall n, t :: n in packages ==> (t in edges[n] <==> Imports(packages, imports, n, t))
  {
    edges := map name | name in packages :: {};
    var todo := packages;
    while todo != {}
      invariant todo <= packages && edges.Keys == packages
      invariant forall n :: n in todo ==> edges[n] == {}
      invariant forall n, t :: n in packages - todo ==> (t in edges[n] <==> Imports(packages, imports, n, t))
      decreases todo
    {
      var name :| name in todo;
      var found := ImportedPackages(packages, imports, name);
      edges, todo := edges[name := found], todo - {name};
    }
  }

  method ImportedPackages(packages: set<string>, imports: map<string, seq<string>>, name: string)
    returns (found: set<string>)
    requires name in imports
    ensures forall t :: t in found <==> Imports(packages, imports, name, t)
  {
    found := {};
    var modules := imports[name];
    for i := 0 to |modules|
      invariant forall t :: t in found <==> t in packages && t != name && exists j :: 0 <= j < i && TopLevel(modules[j]) == t
    {
      var target := TopLevel(modules[i]);
      if target in packages && target != name { found := found + {target}; }
    }
  }

  // ---- walks and cycles ------------------------------------------------------------

  predicate Walk(edges: Graph, w: seq<string>) {
    && (forall i :: 0 <= i < |w| ==> w[i] in edges)
    && (forall i :: 0 <= i < |w| - 1 ==> Leads(edges, w, i))
  }

  predicate Leads(edges: Graph, w: seq<string>, i: nat)
    requires i < |w| - 1 && w[i] in edges
  {
    w[i + 1] in edges[w[i]]
  }

  predicate Distinct(w: seq<string>) {
    forall i, j :: 0 <= i < j < |w| ==> w[i] != w[j]
  }

  /** A closed path: back where it began, and nowhere twice in between. */
  predicate Cycle(edges: Graph, c: seq<string>) {
    2 <= |c| && Walk(edges, c) && c[0] == c[|c| - 1] && Distinct(c[..|c| - 1])
  }

  ghost predicate Acyclic(edges: Graph) {
    forall w :: Walk(edges, w) && 2 <= |w| ==> w[0] != w[|w| - 1]
  }

  predicate Before(order: seq<string>, i: nat, t: string)
    requires i <= |order|
  {
    exists j :: 0 <= j < i && order[j] == t
  }

  /** Finished packages, each after everything it imports. */
  predicate Topological(edges: Graph, order: seq<string>) {
    && Distinct(order)
    && (forall i :: 0 <= i < |order| ==> order[i] in edges)
    && (forall i, t :: 0 <= i < |order| && t in edges[order[i]] ==> Before(order, i, t))
  }

  /** Along a walk the position in the order only goes down. */
  lemma {:induction false} WalkDescends(edges: Graph, order: seq<string>, w: seq<string>, i: nat) returns (j: nat)
    requires Topological(edges, order) && Walk(edges, w) && w != []
    requires i < |order| && order[i] == w[0]
    ensures j < |order| && order[j] == w[|w| - 1] && j <= i && (2 <= |w| ==> j < i)
    decreases |w|
  {
    if |w| == 1 {
      j := i;
    } else {
      assert Leads(edges, w, 0);
      var m :| 0 <= m < i && order[m] == w[1];
      assert Walk(edges, w[1..]) by {
        forall k | 0 <= k < |w[1..]| - 1 ensures Leads(edges, w[1..], k) {
          assert Leads(edges, w, k + 1);
        }
      }
      j := WalkDescends(edges, order, w[1..], m);
    }
  }

  lemma OrderedIsAcyclic(edges: Graph, order: seq<string>)
    requires Topological(edges, order) && forall n :: n in edges ==> n in order
    ensures Acyclic(edges)
  {
    forall w | Walk(edges, w) && 2 <= |w| ensures w[0] != w[|w| - 1] {
      var i :| 0 <= i < |order| && order[i] == w[0];
      var j := WalkDescends(edges, order, w, i);
    }
  }

  // ---- the search ------------------------------------------------------------------

  function Nodes(stack: seq<Frame>): (nodes: seq<string>)
    ensures |nodes| == |stack| && forall i :: 0 <= i < |stack| ==> nodes[i] == stack[i].node
  {
    seq(|stack|, i requires 0 <= i < |stack| => stack[i].node)
  }

  predicate PathsOk(stack: seq<Frame>) {
    forall i :: 0 <= i < |stack| ==> stack[i].path == Nodes(stack)[..i + 1]
  }

  /** Each frame carries the walk from the start to its node; everything below the
      top is grey, and nothing else is. */
  ghost predicate StackOk(edges: Graph, colour: map<string, Colour>, stack: seq<Frame>) {
    && colour.Keys == edges.Keys
    && Walk(edges, Nodes(stack)) && Distinct(Nodes(stack))
    && PathsOk(stack)
    && Painted(colour, stack)
  }

  ghost predicate Painted(colour: map<string, Colour>, stack: seq<Frame>) {
    && (forall i :: 0 <= i < |stack| ==> stack[i].node in colour)
    && (forall i :: 0 <= i < |stack| - 1 ==> colour[stack[i].node].Grey?)
    && (stack != [] ==> !colour[stack[|stack| - 1].node].Black?)
    && (forall n :: n in colour && colour[n].Grey? ==> n in Nodes(stack))
  }

  /** The black packages, in the order they were finished. */
  ghost predicate Finished(edges: Graph, colour: map<string, Colour>, order: seq<string>) {
    colour.Keys == edges.Keys && Topological(edges, order) && forall n :: n in colour ==> (colour[n].Black? <==> n in order)
  }

  /** Packages not met yet. */
  ghost function Fresh(colour: map<string, Colour>, stack: seq<Frame>): set<string> {
    set n | n in colour && colour[n].White? && n !in Nodes(stack)
  }

  lemma PaintTop(edges: Graph, colour: map<string, Colour>, stack: seq<Frame>, order: seq<string>)
    requires StackOk(edges, colour, stack) && Finished(edges, colour, order) && stack != []
    ensures var node := stack[|stack| - 1].node;
            && node in colour && StackOk(edges, colour[node := Grey], stack)
            && Finished(edges, colour[node := Grey], order)
            && Fresh(colour[node := Grey], stack) == Fresh(colour, stack)
            && forall n :: n in Nodes(stack) ==> n in colour && colour[node := Grey][n].Grey?
  {
    var node := stack[|stack| - 1].node;
    assert Nodes(stack)[|stack| - 1] == node;
  }

  lemma PushNodes(stack: seq<Frame>, target: string, path: seq<string>)
    ensures Nodes(stack + [Frame(target, path)]) == Nodes(stack) + [target]
    ensures Nodes(stack)[..|stack|] == Nodes(stack)
  {
  }

  lemma WalkOn(edges: Graph, w: seq<string>, target: string)
    requires Walk(edges, w) && w != [] && target in edges && target in edges[w[|w| - 1]]
    requires Distinct(w) && target !in w
    ensures Walk(edges, w + [target]) && Distinct(w + [target])
  {
    forall i | 0 <= i < |w| ensures Leads(edges, w + [target], i) {
      if i < |w| - 1 { assert Leads(edges, w, i); }
    }
  }

  lemma PushKeeps(edges: Graph, colour: map<string, Colour>, stack: seq<Frame>, target: string)
    requires Closed(edges) && StackOk(edges, colour, stack) && stack != [] && colour[stack[|stack| - 1].node].Grey?
    requires target in edges[stack[|stack| - 1].node] && colour[target].White?
    ensures StackOk(edges, colour, stack + [Frame(target, stack[|stack| - 1].path + [target])])
    ensures target !in Nodes(stack)
  {
    var path := stack[|stack| - 1].path + [target];
    PushNodes(stack, target, path);
    PushPaint(colour, stack, Frame(target, path));
    WalkOn(edges, Nodes(stack), target);
    PushPaths(stack, target);
  }

  lemma PushPaint(colour: map<string, Colour>, stack: seq<Frame>, frame: Frame)
    requires Painted(colour, stack) && stack != [] && colour[stack[|stack| - 1].node].Grey?
    requires frame.node in colour && colour[frame.node].White?
    ensures Painted(colour, stack + [frame]) && frame.node !in Nodes(stack)
  {
    assert Nodes(stack + [frame]) == Nodes(stack) + [frame.node];
    forall i | 0 <= i < |stack| ensures colour[stack[i].node].Grey? && Nodes(stack)[i] != frame.node { }
  }

  lemma PushPaths(stack: seq<Frame>, target: string)
    requires PathsOk(stack) && stack != []
    ensures PathsOk(stack + [Frame(target, stack[|stack| - 1].path + [target])])
  {
    var stack' := stack + [Frame(target, stack[|stack| - 1].path + [target])];
    PushNodes(stack, target, stack[|stack| - 1].path + [target]);
    forall i | 0 <= i < |stack'| ensures stack'[i].path == Nodes(stack')[..i + 1] {
      if i < |stack| { assert Nodes(stack')[..i + 1] == Nodes(stack)[..i + 1]; }
    }
  }

  lemma PopPaths(stack: seq<Frame>)
    requires PathsOk(stack) && stack != []
    ensures PathsOk(stack[..|stack| - 1])
  {
    var rest := stack[..|stack| - 1];
    forall i | 0 <= i < |rest| ensures rest[i].path == Nodes(rest)[..i + 1] {
      assert Nodes(stack)[..i + 1] == Nodes(rest)[..i + 1];
    }
  }

  /** A white package put on the stack is met now. */
  lemma PushMeets(colour: map<string, Colour>, stack: seq<Frame>, target: string, path: seq<string>)
    requires target in colour && colour[target].White? && target !in Nodes(stack)
    ensures |Fresh(colour, stack + [Frame(target, path)])| < |Fresh(colour, stack)|
  {
    PushNodes(stack, target, path);
    assert Fresh(colour, stack) == Fresh(colour, stack + [Frame(target, path)]) + {target};
  }

  lemma PopKeeps(edges: Graph, colour: map<string, Colour>, stack: seq<Frame>)
    requires StackOk(edges, colour, stack) && stack != []
    ensures var node := stack[|stack| - 1].node;
            && StackOk(edges, colour[node := Black], stack[..|stack| - 1])
            && Fresh(colour[node := Black], stack[..|stack| - 1]) <= Fresh(colour, stack)
  {
    var node, rest := stack[|stack| - 1].node, stack[..|stack| - 1];
    PopNodes(edges, stack);
    PopPaths(stack);
    PopPaint(colour, rest, node, stack);
  }

  lemma PopPaint(colour: map<string, Colour>, rest: seq<Frame>, node: string, stack: seq<Frame>)
    requires Painted(colour, stack) && node in colour && node !in Nodes(rest)
    requires |stack| == |rest| + 1 && Nodes(stack) == Nodes(rest) + [node]
    ensures Painted(colour[node := Black], rest)
    ensures Fresh(colour[node := Black], rest) <= Fresh(colour, stack)
  {
    forall i | 0 <= i < |rest| ensures rest[i].node in colour && rest[i].node != node && colour[rest[i].node].Grey? {
      assert Nodes(rest)[i] == rest[i].node == Nodes(stack)[i] == stack[i].node;
    }
  }

  lemma FinishTop(edges: Graph, colour: map<string, Colour>, order: seq<string>, node: string)
    requires Finished(edges, colour, order) && node in colour && !colour[node].Black?
    requires forall t :: t in edges[node] ==> t in colour && colour[t].Black?
    ensures Finished(edges, colour[node := Black], order + [node])
  {
    FinishOne(edges, order, node);
  }

  lemma PopNodes(edges: Graph, stack: seq<Frame>)
    requires stack != [] && Walk(edges, Nodes(stack)) && Distinct(Nodes(stack))
    ensures var node, rest := stack[|stack| - 1].node, stack[..|stack| - 1];
            && Nodes(stack) == Nodes(rest) + [node] && node !in Nodes(rest)
            && Walk(edges, Nodes(rest)) && Distinct(Nodes(rest))
  {
    var rest := stack[..|stack| - 1];
    assert Nodes(rest) == Nodes(stack)[..|rest|];
    forall i | 0 <= i < |rest| - 1 ensures Leads(edges, Nodes(rest), i) {
      assert Leads(edges, Nodes(stack), i);
    }
  }

  lemma FinishOne(edges: Graph, order: seq<string>, node: string)
    requires Topological(edges, order) && node in edges && node !in order
    requires forall t :: t in edges[node] ==> t in order
    ensures Topological(edges, order + [node])
  {
    var order' := order + [node];
    forall i, t | 0 <= i < |order'| && t in edges[order'[i]] ensures Before(order', i, t) {
      if i < |order| {
        var j :| 0 <= j < i && order[j] == t;
        assert order'[j] == t;
      } else {
        var j :| 0 <= j < |order| && order[j] == t;
        assert order'[j] == t;
      }
    }
  }

  /** A target that is already on the walk closes it. */
  lemma GreyCloses(edges: Graph, w: seq<string>, target: string, at: nat)
    requires Walk(edges, w) && Distinct(w) && at < |w| && w[at] == target && target in edges[w[|w| - 1]]
    ensures Cycle(edges, w[at..] + [target])
  {
    var c := w[at..] + [target];
    forall i | 0 <= i < |c| - 1 ensures Leads(edges, c, i) {
      if i < |c| - 2 { assert Leads(edges, w, at + i); }
    }
    assert c[..|c| - 1] == w[at..];
  }

  method IndexIn(path: seq<string>, target: string) returns (at: nat)
    requires target in path
    ensures at < |path| && path[at] == target
  {
    at := 0;
    while path[at] != target
      invariant at < |path| && target in path[at..]
      decreases |path| - at
    {
      at := at + 1;
    }
  }

  /** One round of the search: paint the top, then close a cycle, go one deeper, or
      finish the top. */
  method Round(edges: Graph, colour0: map<string, Colour>, stack0: seq<Frame>, ghost order0: seq<string>)
    returns (found: Option<seq<string>>, colour: map<string, Colour>, stack: seq<Frame>, ghost order: seq<string>)
    requires Closed(edges) && stack0 != [] && StackOk(edges, colour0, stack0) && Finished(edges, colour0, order0)
    ensures found.Some? ==> Cycle(edges, found.value)
    ensures found.None? ==> StackOk(edges, colour, stack) && Finished(edges, colour, order)
    ensures found.None? ==> |Fresh(colour, stack)| < |Fresh(colour0, stack0)| ||
                            (|Fresh(colour, stack)| <= |Fresh(colour0, stack0)| && |stack| < |stack0|)
    ensures found.None? ==> forall n :: n in edges && colour0[n].Black? ==> colour[n].Black?
    ensures found.None? ==> if stack == [] then colour[stack0[0].node].Black? else stack[0] == stack0[0]
  {
    var Frame(node, path) := stack0[|stack0| - 1];
    PaintTop(edges, colour0, stack0, order0);
    colour, stack, order := colour0[node := Grey], stack0, order0;
    var unvisited := set t | t in edges[node] && !colour[t].Black?;
    if unvisited != {} {
      var target :| target in unvisited;
      assert path == Nodes(stack) by { PushNodes(stack, target, path); }
      if colour[target].Grey? {
        var at := IndexIn(path, target);
        GreyCloses(edges, path, target, at);
        return Some(path[at..] + [target]), colour, stack, order;
      }
      PushKeeps(edges, colour, stack, target);
      PushMeets(colour, stack, target, path + [target]);
      stack := stack + [Frame(target, path + [target])];
    } else {
      assert forall t :: t in edges[node] && !colour[t].Black? ==> t in unvisited;
      PopKeeps(edges, colour, stack);
      FinishTop(edges, colour, order, node);
      SubsetSize(Fresh(colour[node := Black], stack[..|stack| - 1]), Fresh(colour, stack));
      colour, order := colour[node := Black], order + [node];
      stack := stack[..|stack| - 1];
    }
    return None, colour, stack, order;
  }

  /** Follow one start to the end: a cycle, or everything it reaches is finished. */
  method SearchFrom(edges: Graph, start: string, colour0: map<string, Colour>, ghost order0: seq<string>)
    returns (found: Option<seq<string>>, colour: map<string, Colour>, ghost order: seq<string>)
    requires Closed(edges) && start in edges && StackOk(edges, colour0, []) && Finished(edges, colour0, order0)
    requires colour0[start].White?
    ensures found.Some? ==> Cycle(edges, found.value)
    ensures found.None? ==> StackOk(edges, colour, []) && Finished(edges, colour, order)
    ensures found.None? ==> colour[start].Black? && forall n :: n in edges && colour0[n].Black? ==> colour[n].Black?
  {
    colour, order := colour0, order0;
    var stack := [Frame(start, [start])];
    assert Nodes(stack) == [start];
    while stack != []
      invariant StackOk(edges, colour, stack) && Finished(edges, colour, order)
      invariant stack != [] ==> stack[0].node == start
      invariant stack == [] ==> colour[start].Black?
      invariant forall n :: n in edges && colour0[n].Black? ==> colour[n].Black?
      decreases |Fresh(colour, stack)|, |stack|
    {
      found, colour, stack, order := Round(edges, colour, stack, order);
      if found.Some? { return; }
    }
    return None, colour, order;
  }

  lemma SubsetSize(xs: set<string>, ys: set<string>)
    requires xs <= ys
    ensures |xs| <= |ys|
  {
    assert ys == xs + (ys - xs);
  }

  lemma NothingIsGrey(edges: Graph, colour: map<string, Colour>)
    requires StackOk(edges, colour, [])
    ensures forall n :: n in colour ==> !colour[n].Grey?
  {
    assert Nodes([]) == [];
  }

  /** One cycle as a closed path, or nothing if and only if the graph has none.  Starts
      and targets are taken in any order; sorting them only fixes which cycle is shown. */
  method FindCycle(edges: Graph) returns (found: Option<seq<string>>)
    requires Closed(edges)
    ensures found.Some? ==> Cycle(edges, found.value)
    ensures found.None? <==> Acyclic(edges)
  {
    var colour := map n | n in edges :: White;
    ghost var order: seq<string> := [];
    var todo := edges.Keys;
    assert Nodes([]) == [];
    while todo != {}
      invariant StackOk(edges, colour, []) && Finished(edges, colour, order)
      invariant todo <= edges.Keys && forall n :: n in edges && n !in todo ==> colour[n].Black?
      decreases todo
    {
      var start :| start in todo;
      todo := todo - {start};
      NothingIsGrey(edges, colour);
      if colour[start].White? {
        found, colour, order := SearchFrom(edges, start, colour, order);
        if found.Some? {
          assert Walk(edges, found.value);
          return found;
        }
      }
    }
    OrderedIsAcyclic(edges, order);
    return None;
  }
}
