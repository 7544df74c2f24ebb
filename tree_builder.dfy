/** `transformAbstractToTree` and its inner `buildTree`: the derivation tree
    of an abstract grammar, cut wherever a category recurs on its own path. */
module TreeBuilder {
  import opened Grammar

  // ---------------------------------------------------------------------
  // Specification: the tree buildTree(cat, visited) returns, as a function
  // of the grammar, the category and the contents of the visiting set.
  // ---------------------------------------------------------------------

  /** The node for `cat`: a childless leaf when `cat` is already on the path,
      otherwise one function node per matching entry. */
  function Tree(g: AbstractGrammar, cat: string, visited: set<string>): Node
    decreases Measure(g, visited), 2, 0
  {
    if cat in visited then Node(cat, [], None)
    else Node(cat, FunNodes(g, cat, visited, 0), None)
  }

  /** The function nodes for the matching entries from the `k`-th on. */
  function FunNodes(g: AbstractGrammar, cat: string, visited: set<string>, k: nat): seq<Node>
    requires cat !in visited && k <= |Matching(g.funs, cat)|
    decreases Measure(g, visited), 1, |Matching(g.funs, cat)| - k
  {
    var fs := Matching(g.funs, cat);
    if k == |fs| then []
    else
      EntryInUniverse(g, fs[k]);
      [FunNode(g, cat, visited, fs[k])] + FunNodes(g, cat, visited, k + 1)
  }

  /** The function node for entry `f` of result category `cat`. */
  function FunNode(g: AbstractGrammar, cat: string, visited: set<string>, f: FunEntry): Node
    requires cat in Universe(g) && cat !in visited
    decreases Measure(g, visited), 0, |f.args| + 1
  {
    Node(f.name, ArgTrees(g, cat, visited, f.args, 0), Some(FunType))
  }

  /** The subtrees for the arguments from the `j`-th on, each built with `cat`
      added to the path. */
  function ArgTrees(g: AbstractGrammar, cat: string, visited: set<string>, args: seq<string>, j: nat): seq<Node>
    requires cat in Universe(g) && cat !in visited && j <= |args|
    decreases Measure(g, visited), 0, |args| - j
  {
    if j == |args| then []
    else
      MeasureShrinks(g, visited, cat);
      [Tree(g, args[j], visited + {cat})] + ArgTrees(g, cat, visited, args, j + 1)
  }

  // ---------------------------------------------------------------------
  // The JavaScript `Set<string>` that buildTree threads through the
  // recursion, mutated in place and copied for every argument.
  // ---------------------------------------------------------------------

  class CatSet {
    var members: set<string>

    /** `new Set<string>()` */
    constructor Empty()
      ensures members == {}
    {
      members := {};
    }

    /** `new Set(other)`: an independent copy. */
    constructor CopyOf(other: CatSet)
      ensures members == other.members
    {
      members := other.members;
    }

    function Has(c: string): bool
      reads this
    {
      c in members
    }

    method Add(c: string)
      modifies this
      ensures members == old(members) + {c}
    {
      members := members + {c};
    }

    method Delete(c: string)
      modifies this
      ensures members == old(members) - {c}
    {
      members := members - {c};
    }
  }

  // ---------------------------------------------------------------------
  // The imperative builder.
  // ---------------------------------------------------------------------

  /** `buildTree(cat, visited)`: returns the tree of `Tree` and leaves the
      caller's set as it found it. */
  method BuildTree(g: AbstractGrammar, cat: string, visited: CatSet) returns (node: Node)
    modifies visited
    ensures node == Tree(g, cat, old(visited.members))
    ensures visited.members == old(visited.members)
    decreases Measure(g, visited.members), 1
  {
    if visited.Has(cat) {
      return Node(cat, [], None);
    }
    ghost var path := visited.members;
    visited.Add(cat);
    node := Node(cat, [], None);
    var funs := Matching(g.funs, cat);
    var i := 0;
    while i < |funs|
      invariant 0 <= i <= |funs|
      invariant visited.members == path + {cat}
      invariant node.name == cat && node.typ == None
      invariant FunNodes(g, cat, path, 0) == node.children + FunNodes(g, cat, path, i)
    {
      EntryInUniverse(g, funs[i]);
      var funNode := BuildFunNode(g, cat, funs[i], visited, path);
      node := node.(children := node.children + [funNode]);
      i := i + 1;
    }
    visited.Delete(cat);
  }

  /** The `forEach` callback of buildTree: the function node for entry `f`,
      one argument subtree per argument, each built from a fresh copy of
      `visited` (which holds `path` plus `cat`). */
  method BuildFunNode(g: AbstractGrammar, cat: string, f: FunEntry, visited: CatSet, ghost path: set<string>)
    returns (funNode: Node)
    requires cat in Universe(g) && cat !in path
    requires visited.members == path + {cat}
    ensures funNode == FunNode(g, cat, path, f)
    decreases Measure(g, path), 0, |f.args| + 1
  {
    MeasureShrinks(g, path, cat);
    funNode := Node(f.name, [], Some(FunType));
    var j := 0;
    while j < |f.args|
      invariant 0 <= j <= |f.args|
      invariant funNode.name == f.name && funNode.typ == Some(FunType)
      invariant ArgTrees(g, cat, path, f.args, 0) == funNode.children + ArgTrees(g, cat, path, f.args, j)
    {
      var copy := new CatSet.CopyOf(visited);
      var sub := BuildTree(g, f.args[j], copy);
      funNode := funNode.(children := funNode.children + [sub]);
      j := j + 1;
    }
  }

  /** `transformAbstractToTree(grammar)`: the tree rooted at the start
      category, built from an empty visiting set. */
  method TransformAbstractToTree(g: AbstractGrammar) returns (root: Node)
    ensures root == Tree(g, g.startcat, {})
    ensures root.name == g.startcat && root.typ == None
  {
    var visited := new CatSet.Empty();
    root := BuildTree(g, g.startcat, visited);
  }
}
