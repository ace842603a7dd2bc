/** Finding every descendant of a process, first through the kernel's per-task index
    of children and, where that cannot be read, through the parents listed in /proc. */
module ProcessTree {
  import opened Contracts

  /** What the index shows: for each readable process the words of its children file,
      a word that is not a number being `None`.  Unreadable processes have no entry. */
  type Index = map<int, seq<Option<int>>>

  /** One /proc entry that could be read: the process and its parent. */
  datatype Entry = Entry(pid: int, parent: int)

  type Children = map<int, seq<int>>

  // ---- the child relation, and reachability in it -------------------------------------

  function Kids(children: Children, p: int): seq<int> { if p in children then children[p] else [] }

  function Numbers(words: seq<Option<int>>): (ns: seq<int>)
    ensures forall n :: n in ns <==> Some(n) in words
  {
    if words == [] then []
    else
      var last := words[|words| - 1];
      Numbers(words[..|words| - 1]) + (if last.Some? then [last.value] else [])
  }

  /** The relation the index describes. */
  function Indexed(index: Index): (children: Children)
    ensures children.Keys == index.Keys && forall p :: p in index ==> children[p] == Numbers(index[p])
  {
    map p | p in index :: Numbers(index[p])
  }

  predicate Descent(children: Children, path: seq<int>) {
    path != [] && forall i :: 0 <= i < |path| - 1 ==> Begets(children, path, i)
  }

  predicate Begets(children: Children, path: seq<int>, i: nat)
    requires i < |path| - 1
  {
    path[i + 1] in Kids(children, path[i])
  }

  ghost predicate DescentTo(children: Children, root: int, p: int, path: seq<int>) {
    Descent(children, path) && path[0] == root && path[|path| - 1] == p
  }

  ghost predicate Descendant(children: Children, root: int, p: int) {
    exists path :: DescentTo(children, root, p, path)
  }

  lemma RootDescends(children: Children, root: int)
    ensures Descendant(children, root, root)
  {
    assert DescentTo(children, root, root, [root]);
  }

  lemma ChildDescends(children: Children, root: int, p: int, child: int)
    requires Descendant(children, root, p) && child in Kids(children, p)
    ensures Descendant(children, root, child)
  {
    var path :| DescentTo(children, root, p, path);
    var longer := path + [child];
    forall i | 0 <= i < |longer| - 1 ensures Begets(children, longer, i) {
      if i < |path| - 1 { assert Begets(children, path, i); }
    }
    assert DescentTo(children, root, child, longer);
  }

  predicate ClosedUnder(children: Children, result: set<int>) {
    forall p, c :: p in result && c in Kids(children, p) ==> c in result
  }

  lemma {:induction false} ClosedHoldsPath(children: Children, result: set<int>, path: seq<int>)
    requires ClosedUnder(children, result) && Descent(children, path) && path[0] in result
    ensures path[|path| - 1] in result
    decreases |path|
  {
    if |path| > 1 {
      var c := path[1];
      assert Begets(children, path, 0) && c in Kids(children, path[0]);
      assert c in result;
      forall i | 0 <= i < |path[1..]| - 1 ensures Begets(children, path[1..], i) {
        assert Begets(children, path, i + 1);
      }
      ClosedHoldsPath(children, result, path[1..]);
    }
  }

  /** A closed set of descendants that holds the root is the set of descendants. */
  lemma ClosedIsAll(children: Children, root: int, result: set<int>)
    requires root in result && ClosedUnder(children, result)
    requires forall p :: p in result ==> Descendant(children, root, p)
    ensures forall p :: p in result <==> Descendant(children, root, p)
  {
    forall p | Descendant(children, root, p) ensures p in result {
      var path :| DescentTo(children, root, p, path);
      ClosedHoldsPath(children, result, path);
    }
  }

  /** The tree depends only on what the relation says about the tree: two relations
      that agree there have the same descendants. */
  lemma RelationsAgree(a: Children, b: Children, root: int)
    requires forall p, c :: Descendant(a, root, p) ==> (c in Kids(a, p) <==> c in Kids(b, p))
    ensures forall p :: Descendant(a, root, p) <==> Descendant(b, root, p)
  {
    forall p | Descendant(a, root, p) ensures Descendant(b, root, p) {
      var path :| DescentTo(a, root, p, path);
      AgreeOn(a, b, root, path);
    }
    forall p | Descendant(b, root, p) ensures Descendant(a, root, p) {
      var path :| DescentTo(b, root, p, path);
      BackOn(a, b, root, path);
    }
  }

  lemma {:induction false} AgreeOn(a: Children, b: Children, root: int, path: seq<int>)
    requires forall p, c :: Descendant(a, root, p) ==> (c in Kids(a, p) <==> c in Kids(b, p))
    requires Descent(a, path) && path[0] == root
    ensures Descendant(b, root, path[|path| - 1])
    decreases |path|
  {
    if |path| == 1 {
      RootDescends(b, root);
    } else {
      var front := Front(a, path);
      AgreeOn(a, b, root, front);
      assert DescentTo(a, root, front[|front| - 1], front);
      assert Begets(a, path, |path| - 2);
      ChildDescends(b, root, front[|front| - 1], path[|path| - 1]);
    }
  }

  lemma {:induction false} BackOn(a: Children, b: Children, root: int, path: seq<int>)
    requires forall p, c :: Descendant(a, root, p) ==> (c in Kids(a, p) <==> c in Kids(b, p))
    requires Descent(b, path) && path[0] == root
    ensures Descendant(a, root, path[|path| - 1])
    decreases |path|
  {
    if |path| == 1 {
      RootDescends(a, root);
    } else {
      var front := Front(b, path);
      BackOn(a, b, root, front);
      assert Begets(b, path, |path| - 2);
      ChildDescends(a, root, front[|front| - 1], path[|path| - 1]);
    }
  }

  lemma Front(children: Children, path: seq<int>) returns (front: seq<int>)
    requires Descent(children, path) && |path| > 1
    ensures front == path[..|path| - 1] && Descent(children, front) && front[|front| - 1] == path[|path| - 2]
  {
    front := path[..|path| - 1];
    forall i | 0 <= i < |front| - 1 ensures Begets(children, front, i) {
      assert Begets(children, path, i);
    }
  }

  // ---- the worklist ----------------------------------------------------------------

  /** Everything met descends from the root; what is not waiting has its children met. */
  ghost predicate Exploring(children: Children, root: int, result: set<int>, waiting: seq<int>, busy: set<int>) {
    && root in result
    && (forall p :: p in result ==> Descendant(children, root, p))
    && (forall p :: p in waiting ==> p in result)
    && (forall p, c :: p in result && p !in waiting && p !in busy && c in Kids(children, p) ==> c in result)
  }

  function Universe(children: Children, root: int): set<int> {
    {root} + set p, c | p in children && c in children[p] :: c
  }

  lemma ExploredInUniverse(children: Children, root: int, result: set<int>)
    requires forall p :: p in result ==> Descendant(children, root, p)
    ensures result <= Universe(children, root)
  {
    forall p | p in result ensures p in Universe(children, root) {
      var path :| DescentTo(children, root, p, path);
      if |path| > 1 { assert Begets(children, path, |path| - 2); }
    }
  }

  lemma SmallerGap(all: set<int>, xs: set<int>, ys: set<int>)
    requires xs <= ys <= all
    ensures |all - ys| <= |all - xs| && (xs != ys ==> |all - ys| < |all - xs|)
  {
    assert all - xs == (all - ys) + (ys - xs);
    assert xs != ys ==> ys - xs != {};
  }

  /** Meet one process's children: new ones join the result and the waiting list. */
  method Meet(ghost children: Children, ghost root: int, ghost parent: int, kids: seq<int>,
              result0: set<int>, waiting0: seq<int>) returns (result: set<int>, waiting: seq<int>)
    requires Exploring(children, root, result0, waiting0, {parent}) && parent in result0
    requires kids == Kids(children, parent)
    ensures Exploring(children, root, result, waiting, {}) && result0 <= result
    ensures result == result0 ==> waiting == waiting0
  {
    result, waiting := result0, waiting0;
    for i := 0 to |kids|
      invariant Exploring(children, root, result, waiting, {parent}) && result0 <= result
      invariant forall j :: 0 <= j < i ==> kids[j] in result
      invariant result == result0 ==> waiting == waiting0
    {
      var child := kids[i];
      if child !in result {
        ChildDescends(children, root, parent, child);
        assert child in result + {child} && result + {child} != result0;
        result, waiting := result + {child}, waiting + [child];
      }
    }
  }

  /** The root waits at the bottom or not at all; the flag falls when it turns out
      to be unreadable. */
  ghost predicate FlagOk(index: Index, root: int, waiting: seq<int>, indexed: bool) {
    && (forall i :: 1 <= i < |waiting| ==> waiting[i] != root)
    && (indexed <==> root in index || root in waiting)
  }

  method IndexedRound(index: Index, ghost children: Children, root: int, result0: set<int>, pending0: seq<int>,
                      indexed0: bool) returns (result: set<int>, pending: seq<int>, indexed: bool)
    requires children == Indexed(index) && pending0 != []
    requires Exploring(children, root, result0, pending0, {}) && FlagOk(index, root, pending0, indexed0)
    ensures Exploring(children, root, result, pending, {}) && FlagOk(index, root, pending, indexed)
    ensures result0 <= result && (result == result0 ==> |pending| < |pending0|)
  {
    var parent, rest := pending0[|pending0| - 1], pending0[..|pending0| - 1];
    assert pending0 == rest + [parent];
    if parent !in index {
      return result0, rest, indexed0 && parent != root;
    }
    result, pending := MeetWords(index, children, root, parent, result0, rest);
    indexed := indexed0;
  }

  lemma RoundShrinks(children: Children, root: int, result0: set<int>, result: set<int>)
    requires result0 <= result && forall p :: p in result ==> Descendant(children, root, p)
    ensures |Universe(children, root) - result| <= |Universe(children, root) - result0|
    ensures result != result0 ==> |Universe(children, root) - result| < |Universe(children, root) - result0|
  {
    ExploredInUniverse(children, root, result);
    SmallerGap(Universe(children, root), result0, result);
  }

  /** The indexed form; `indexed` is false exactly when the root itself is unreadable. */
  method IndexedTree(index: Index, root: int) returns (result: set<int>, indexed: bool)
    ensures forall p :: p in result <==> Descendant(Indexed(index), root, p)
    ensures indexed <==> root in index
  {
    ghost var children := Indexed(index);
    result, indexed := {root}, true;
    var pending := [root];
    RootDescends(children, root);
    while pending != []
      invariant Exploring(children, root, result, pending, {}) && FlagOk(index, root, pending, indexed)
      decreases |Universe(children, root) - result|, |pending|
    {
      ghost var result0 := result;
      result, pending, indexed := IndexedRound(index, children, root, result, pending, indexed);
      RoundShrinks(children, root, result0, result);
    }
    ClosedIsAll(children, root, result);
  }

  /** The same over the words of a children file; words that are not numbers are skipped. */
  method MeetWords(index: Index, ghost children: Children, root: int, parent: int, result0: set<int>, waiting0: seq<int>)
    returns (result: set<int>, waiting: seq<int>)
    requires children == Indexed(index) && parent in index && parent in result0
    requires Exploring(children, root, result0, waiting0, {parent})
    ensures Exploring(children, root, result, waiting, {}) && result0 <= result
    ensures result == result0 ==> waiting == waiting0
    ensures waiting0 <= waiting && forall i :: |waiting0| <= i < |waiting| ==> waiting[i] != root
  {
    result, waiting := result0, waiting0;
    var words := index[parent];
    for i := 0 to |words|
      invariant Exploring(children, root, result, waiting, {parent}) && result0 <= result
      invariant forall j :: 0 <= j < i && words[j].Some? ==> words[j].value in result
      invariant result == result0 ==> waiting == waiting0
      invariant waiting0 <= waiting && forall k :: |waiting0| <= k < |waiting| ==> waiting[k] != root
    {
      if words[i].Some? && words[i].value !in result {
        var child := words[i].value;
        assert words[i] in words && child in Kids(children, parent);
        ChildDescends(children, root, parent, child);
        assert child in result + {child} && result + {child} != result0;
        result, waiting := result + {child}, waiting + [child];
      }
    }
    forall c | c in Kids(children, parent) ensures c in result {
      var j :| 0 <= j < |words| && words[j] == Some(c);
    }
  }

  /** Grouping /proc entries by parent. */
  method ParentMap(entries: seq<Option<Entry>>) returns (children: Children)
    ensures forall p, c :: c in Kids(children, p) <==> Some(Entry(c, p)) in entries
  {
    children := map[];
    for i := 0 to |entries|
      invariant forall p, c :: c in Kids(children, p) <==> Some(Entry(c, p)) in entries[..i]
    {
      assert entries[..i + 1] == entries[..i] + [entries[i]];
      if entries[i].Some? {
        var Entry(pid, parent) := entries[i].value;
        children := children[parent := Kids(children, parent) + [pid]];
      }
    }
    assert entries[..|entries|] == entries;
  }

  method MappedTree(children: Children, root: int) returns (result: set<int>)
    ensures forall p :: p in result <==> Descendant(children, root, p)
  {
    result := {root};
    var pending := [root];
    RootDescends(children, root);
    while pending != []
      invariant Exploring(children, root, result, pending, {})
      decreases |Universe(children, root) - result|, |pending|
    {
      var parent := pending[|pending| - 1];
      var rest := pending[..|pending| - 1];
      assert pending == rest + [parent];
      ghost var result0 := result;
      result, pending := Meet(children, root, parent, Kids(children, parent), result, rest);
      RoundShrinks(children, root, result0, result);
    }
    ClosedIsAll(children, root, result);
  }

  /** Descendants in the relation that `entries` describes. */
  ghost predicate Listed(entries: seq<Option<Entry>>, children: Children) {
    forall p, c :: c in Kids(children, p) <==> Some(Entry(c, p)) in entries
  }

  /** The whole operation: the descendants the index shows when the root can be read
      there, and otherwise those that the process list shows. */
  method Tree(index: Index, entries: seq<Option<Entry>>, root: int) returns (result: set<int>)
    ensures root in index ==> forall p :: p in result <==> Descendant(Indexed(index), root, p)
    ensures root !in index ==> forall children: Children, p :: Listed(entries, children) ==>
              (p in result <==> Descendant(children, root, p))
  {
    var indexed: bool;
    result, indexed := IndexedTree(index, root);
    if !indexed {
      var listed := ParentMap(entries);
      result := MappedTree(listed, root);
      forall children: Children | Listed(entries, children)
        ensures forall p :: Descendant(listed, root, p) <==> Descendant(children, root, p)
      {
        RelationsAgree(listed, children, root);
      }
    }
  }

  /** Both forms agree whenever their relations agree on the tree: if the index of
      every descendant lists exactly the processes whose parent it is. */
  lemma FormsAgree(index: Index, entries: seq<Option<Entry>>, children: Children, root: int)
    requires Listed(entries, children)
    requires forall p, c :: Descendant(Indexed(index), root, p) ==>
               (c in Kids(Indexed(index), p) <==> Some(Entry(c, p)) in entries)
    ensures forall p :: Descendant(Indexed(index), root, p) <==> Descendant(children, root, p)
  {
    RelationsAgree(Indexed(index), children, root);
  }
}
