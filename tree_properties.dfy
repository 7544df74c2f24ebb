/** What the tree built by `buildTree` looks like: the shape of one level,
    the grammar it derives from, the recursion cut, and the depth bound. */
module TreeProperties {
  import opened Grammar
  import opened TreeBuilder

  // ---------------------------------------------------------------------
  // One level of the tree.
  // ---------------------------------------------------------------------

  /** The `i`-th function node is the node of the `i`-th matching entry. */
  lemma {:induction false} FunNodesAt(g: AbstractGrammar, cat: string, visited: set<string>, k: nat, i: nat)
    requires cat !in visited && k <= i < |Matching(g.funs, cat)|
    ensures cat in Universe(g)
    ensures |FunNodes(g, cat, visited, k)| == |Matching(g.funs, cat)| - k
    ensures FunNodes(g, cat, visited, k)[i - k] == FunNode(g, cat, visited, Matching(g.funs, cat)[i])
    decreases i - k
  {
    var fs := Matching(g.funs, cat);
    EntryInUniverse(g, fs[k]);
    assert FunNodes(g, cat, visited, k) == [FunNode(g, cat, visited, fs[k])] + FunNodes(g, cat, visited, k + 1);
    if k < i {
      FunNodesAt(g, cat, visited, k + 1, i);
    } else {
      FunNodesLength(g, cat, visited, k + 1);
    }
  }

  lemma {:induction false} FunNodesLength(g: AbstractGrammar, cat: string, visited: set<string>, k: nat)
    requires cat !in visited && k <= |Matching(g.funs, cat)|
    ensures |FunNodes(g, cat, visited, k)| == |Matching(g.funs, cat)| - k
    decreases |Matching(g.funs, cat)| - k
  {
    if k < |Matching(g.funs, cat)| {
      FunNodesLength(g, cat, visited, k + 1);
    }
  }

  /** The `j`-th argument subtree is the tree of the `j`-th argument. */
  lemma {:induction false} ArgTreesAt(g: AbstractGrammar, cat: string, visited: set<string>, args: seq<string>, k: nat, j: nat)
    requires cat in Universe(g) && cat !in visited && k <= j < |args|
    ensures |ArgTrees(g, cat, visited, args, k)| == |args| - k
    ensures ArgTrees(g, cat, visited, args, k)[j - k] == Tree(g, args[j], visited + {cat})
    decreases j - k
  {
    if k < j {
      ArgTreesAt(g, cat, visited, args, k + 1, j);
    } else {
      ArgTreesLength(g, cat, visited, args, k + 1);
    }
  }

  lemma {:induction false} ArgTreesLength(g: AbstractGrammar, cat: string, visited: set<string>, args: seq<string>, k: nat)
    requires cat in Universe(g) && cat !in visited && k <= |args|
    ensures |ArgTrees(g, cat, visited, args, k)| == |args| - k
    decreases |args| - k
  {
    if k < |args| {
      ArgTreesLength(g, cat, visited, args, k + 1);
    }
  }

  /** The node built for `cat` is named `cat` and carries no type. A category
      already on the path gives a childless leaf. Otherwise the children are
      exactly one "fun" node per matching entry, in entry order (none at all
      when no entry matches), the `i`-th named after the `i`-th entry with one
      child per argument, and its `j`-th child is the tree of the `j`-th
      argument built from the path extended by `cat`: it depends on nothing
      its siblings do. */
  lemma TreeShape(g: AbstractGrammar, cat: string, visited: set<string>)
    ensures Tree(g, cat, visited).name == cat && Tree(g, cat, visited).typ == None
    ensures cat in visited ==> Tree(g, cat, visited).children == []
    ensures cat !in visited ==> |Tree(g, cat, visited).children| == |Matching(g.funs, cat)|
    ensures cat !in visited ==>
      forall i :: 0 <= i < |Matching(g.funs, cat)| ==>
        var fun, f := Tree(g, cat, visited).children[i], Matching(g.funs, cat)[i];
        fun.name == f.name && fun.typ == Some(FunType) && |fun.children| == |f.args|
    ensures cat !in visited ==>
      forall i, j :: 0 <= i < |Matching(g.funs, cat)| && 0 <= j < |Matching(g.funs, cat)[i].args| ==>
        Tree(g, cat, visited).children[i].children[j] == Tree(g, Matching(g.funs, cat)[i].args[j], visited + {cat})
  {
    if cat !in visited {
      FunNodesLength(g, cat, visited, 0);
      forall i | 0 <= i < |Matching(g.funs, cat)| {
        FunChildAt(g, cat, visited, i);
      }
    }
  }

  /** The `i`-th child of an expanded category node. */
  lemma FunChildAt(g: AbstractGrammar, cat: string, visited: set<string>, i: nat)
    requires cat !in visited && i < |Matching(g.funs, cat)|
    ensures |Tree(g, cat, visited).children| == |Matching(g.funs, cat)|
    ensures var fun, f := Tree(g, cat, visited).children[i], Matching(g.funs, cat)[i];
      fun.name == f.name && fun.typ == Some(FunType) && |fun.children| == |f.args|
    ensures forall j :: 0 <= j < |Matching(g.funs, cat)[i].args| ==>
      Tree(g, cat, visited).children[i].children[j] == Tree(g, Matching(g.funs, cat)[i].args[j], visited + {cat})
  {
    var f := Matching(g.funs, cat)[i];
    FunNodesAt(g, cat, visited, 0, i);
    ArgTreesLength(g, cat, visited, f.args, 0);
    forall j | 0 <= j < |f.args| {
      ArgTreesAt(g, cat, visited, f.args, 0, j);
    }
  }

  /** Entries of a grammar have distinct names, so the "fun" children of one
      category node have distinct names. */
  lemma FunChildrenDistinct(g: AbstractGrammar, cat: string, visited: set<string>)
    requires DistinctNames(g.funs) && cat !in visited
    ensures forall i, j :: 0 <= i < j < |Tree(g, cat, visited).children| ==>
      Tree(g, cat, visited).children[i].name != Tree(g, cat, visited).children[j].name
  {
    TreeShape(g, cat, visited);
    MatchingDistinct(g.funs, cat);
  }

  // ---------------------------------------------------------------------
  // The whole tree is a derivation in the grammar.
  // ---------------------------------------------------------------------

  /** A category node whose every child is a "fun" node that applies an entry
      of result category `t.name`, with one child per argument of the entry,
      each a derivation of that argument category. */
  ghost predicate IsDerivation(g: AbstractGrammar, t: Node)
    decreases t
  {
    && t.typ == None
    && forall i :: 0 <= i < |t.children| ==>
      && t.children[i].typ == Some(FunType)
      && (exists f :: f in g.funs && Applies(f, t.name, t.children[i]))
      && forall j :: 0 <= j < |t.children[i].children| ==> IsDerivation(g, t.children[i].children[j])
  }

  /** `fun` is a node for entry `f` under a node of category `cat`. */
  ghost predicate Applies(f: FunEntry, cat: string, fun: Node)
  {
    && f.cat == cat && f.name == fun.name
    && |fun.children| == |f.args|
    && forall j :: 0 <= j < |f.args| ==> fun.children[j].name == f.args[j]
  }

  lemma TreeIsDerivation(g: AbstractGrammar, cat: string, visited: set<string>)
    ensures IsDerivation(g, Tree(g, cat, visited))
    decreases Measure(g, visited)
  {
    var t := Tree(g, cat, visited);
    TreeShape(g, cat, visited);
    if cat !in visited {
      var fs := Matching(g.funs, cat);
      forall i | 0 <= i < |t.children|
        ensures exists f :: f in g.funs && Applies(f, t.name, t.children[i])
        ensures forall j :: 0 <= j < |t.children[i].children| ==> IsDerivation(g, t.children[i].children[j])
      {
        EntryInUniverse(g, fs[i]);
        MeasureShrinks(g, visited, cat);
        forall j | 0 <= j < |fs[i].args| ensures t.children[i].children[j].name == fs[i].args[j] {
          TreeShape(g, fs[i].args[j], visited + {cat});
        }
        assert Applies(fs[i], t.name, t.children[i]);
        forall j | 0 <= j < |t.children[i].children| ensures IsDerivation(g, t.children[i].children[j]) {
          TreeIsDerivation(g, fs[i].args[j], visited + {cat});
        }
      }
    }
  }

  // ---------------------------------------------------------------------
  // The recursion cut: categories are expanded at most once per path.
  // ---------------------------------------------------------------------

  /** Along every path down from `t`, a category node that has children is
      named after none of the category nodes above it, nor after anything in
      `above`. A node whose name is already on the path is therefore a leaf. */
  ghost predicate ExpandedOncePerPath(t: Node, above: set<string>)
    decreases t
  {
    && (t.children != [] ==> t.name !in above)
    && forall i, j :: 0 <= i < |t.children| && 0 <= j < |t.children[i].children| ==>
         ExpandedOncePerPath(t.children[i].children[j], above + {t.name})
  }

  lemma TreeExpandsOncePerPath(g: AbstractGrammar, cat: string, visited: set<string>)
    ensures ExpandedOncePerPath(Tree(g, cat, visited), visited)
    decreases Measure(g, visited)
  {
    var t := Tree(g, cat, visited);
    TreeShape(g, cat, visited);
    if cat !in visited {
      var fs := Matching(g.funs, cat);
      forall i, j | 0 <= i < |t.children| && 0 <= j < |t.children[i].children|
        ensures ExpandedOncePerPath(t.children[i].children[j], visited + {cat})
      {
        EntryInUniverse(g, fs[i]);
        MeasureShrinks(g, visited, cat);
        TreeExpandsOncePerPath(g, fs[i].args[j], visited + {cat});
      }
    }
  }

  // ---------------------------------------------------------------------
  // Depth.
  // ---------------------------------------------------------------------

  /** Number of nodes on the longest path down from `t`. */
  function Depth(t: Node): nat
    decreases t, 1
  {
    1 + MaxDepth(t.children)
  }

  function MaxDepth(ts: seq<Node>): nat
    decreases ts, 0
  {
    if ts == [] then 0
    else
      var d, rest := Depth(ts[0]), MaxDepth(ts[1..]);
      if d < rest then rest else d
  }

  /** The tree built from `visited` is at most 2·|categories not in visited| + 1
      deep; from the empty set, 2·|categories| + 1. */
  lemma {:induction false} TreeDepth(g: AbstractGrammar, cat: string, visited: set<string>)
    ensures Depth(Tree(g, cat, visited)) <= 2 * Measure(g, visited) + 1
    decreases Measure(g, visited), 2, 0
  {
    if cat !in visited {
      FunNodesDepth(g, cat, visited, 0);
    }
  }

  lemma {:induction false} FunNodesDepth(g: AbstractGrammar, cat: string, visited: set<string>, k: nat)
    requires cat !in visited && k <= |Matching(g.funs, cat)|
    ensures MaxDepth(FunNodes(g, cat, visited, k)) <= 2 * Measure(g, visited)
    decreases Measure(g, visited), 1, |Matching(g.funs, cat)| - k
  {
    var fs := Matching(g.funs, cat);
    if k < |fs| {
      EntryInUniverse(g, fs[k]);
      MeasureShrinks(g, visited, cat);
      var ns := FunNodes(g, cat, visited, k);
      assert ns[1..] == FunNodes(g, cat, visited, k + 1);
      ArgTreesDepth(g, cat, visited, fs[k].args, 0);
      FunNodesDepth(g, cat, visited, k + 1);
    }
  }

  lemma {:induction false} ArgTreesDepth(g: AbstractGrammar, cat: string, visited: set<string>, args: seq<string>, j: nat)
    requires cat in Universe(g) && cat !in visited && j <= |args|
    ensures MaxDepth(ArgTrees(g, cat, visited, args, j)) <= 2 * Measure(g, visited + {cat}) + 1
    decreases Measure(g, visited), 0, |args| - j
  {
    if j < |args| {
      MeasureShrinks(g, visited, cat);
      var ts := ArgTrees(g, cat, visited, args, j);
      assert ts[1..] == ArgTrees(g, cat, visited, args, j + 1);
      TreeDepth(g, args[j], visited + {cat});
      ArgTreesDepth(g, cat, visited, args, j + 1);
    }
  }

  /** The tree `transformAbstractToTree` returns: rooted at the start
      category, expanding each category at most once per path, a derivation
      of the grammar, and at most 2·|categories| + 1 deep. */
  lemma StartTree(g: AbstractGrammar)
    ensures Tree(g, g.startcat, {}).name == g.startcat
    ensures ExpandedOncePerPath(Tree(g, g.startcat, {}), {})
    ensures IsDerivation(g, Tree(g, g.startcat, {}))
    ensures Depth(Tree(g, g.startcat, {})) <= 2 * |Universe(g)| + 1
  {
    TreeShape(g, g.startcat, {});
    TreeExpandsOncePerPath(g, g.startcat, {});
    TreeIsDerivation(g, g.startcat, {});
    TreeDepth(g, g.startcat, {});
    assert Universe(g) - {} == Universe(g);
  }
}
