/** Trees built for three small grammars: a sentence grammar, a
    self-recursive category, and one category used twice by one function. */
module Examples {
  import opened Grammar
  import opened TreeBuilder

  function Fun(name: string, children: seq<Node>): Node
  {
    Node(name, children, Some(FunType))
  }

  function Cat(name: string, children: seq<Node>): Node
  {
    Node(name, children, None)
  }

  /** S -> Pred(NP, VP); NP -> John; VP -> Run. Each argument category is
      expanded into its one nullary function. */
  lemma SentenceTree()
    ensures Tree(AbstractGrammar("G", "S", [FunEntry("Pred", ["NP", "VP"], "S"),
                                           FunEntry("John", [], "NP"),
                                           FunEntry("Run", [], "VP")]), "S", {})
         == Cat("S", [Fun("Pred", [Cat("NP", [Fun("John", [])]), Cat("VP", [Fun("Run", [])])])])
  {
    var g := AbstractGrammar("G", "S", [FunEntry("Pred", ["NP", "VP"], "S"),
                                        FunEntry("John", [], "NP"),
                                        FunEntry("Run", [], "VP")]);
    assert Matching(g.funs, "S") == [g.funs[0]];
    assert Matching(g.funs, "NP") == [g.funs[1]];
    assert Matching(g.funs, "VP") == [g.funs[2]];
    assert {} + {"S"} == {"S"};
    assert Tree(g, "NP", {"S"}) == Cat("NP", [Fun("John", [])]);
    assert Tree(g, "VP", {"S"}) == Cat("VP", [Fun("Run", [])]);
    var pred := g.funs[0];
    assert ArgTrees(g, "S", {}, pred.args, 1) == [Tree(g, "VP", {"S"})];
    assert ArgTrees(g, "S", {}, pred.args, 0) == [Tree(g, "NP", {"S"}), Tree(g, "VP", {"S"})];
    assert FunNodes(g, "S", {}, 0) == [FunNode(g, "S", {}, pred)];
  }

  /** NP -> And(NP, NP) | John. The inner NP occurrences are on the path of
      the outer one, so they are cut to leaves. */
  lemma RecursiveTree()
    ensures Tree(AbstractGrammar("G", "NP", [FunEntry("And", ["NP", "NP"], "NP"),
                                            FunEntry("John", [], "NP")]), "NP", {})
         == Cat("NP", [Fun("And", [Cat("NP", []), Cat("NP", [])]), Fun("John", [])])
  {
    var g := AbstractGrammar("G", "NP", [FunEntry("And", ["NP", "NP"], "NP"),
                                         FunEntry("John", [], "NP")]);
    assert Matching(g.funs, "NP") == g.funs;
    assert {} + {"NP"} == {"NP"};
    var and := g.funs[0];
    assert ArgTrees(g, "NP", {}, and.args, 1) == [Cat("NP", [])];
    assert ArgTrees(g, "NP", {}, and.args, 0) == [Cat("NP", []), Cat("NP", [])];
    assert FunNodes(g, "NP", {}, 1) == [Fun("John", [])];
    assert FunNodes(g, "NP", {}, 0) == [FunNode(g, "NP", {}, and), Fun("John", [])];
  }

  /** S -> Pair(A, A); A -> Leaf. Both arguments get their own copy of the
      path, so both are expanded in full. */
  lemma SiblingTree()
    ensures Tree(AbstractGrammar("G", "S", [FunEntry("Pair", ["A", "A"], "S"),
                                           FunEntry("Leaf", [], "A")]), "S", {})
         == Cat("S", [Fun("Pair", [Cat("A", [Fun("Leaf", [])]), Cat("A", [Fun("Leaf", [])])])])
  {
    var g := AbstractGrammar("G", "S", [FunEntry("Pair", ["A", "A"], "S"),
                                        FunEntry("Leaf", [], "A")]);
    assert Matching(g.funs, "S") == [g.funs[0]];
    assert Matching(g.funs, "A") == [g.funs[1]];
    assert {} + {"S"} == {"S"};
    assert Tree(g, "A", {"S"}) == Cat("A", [Fun("Leaf", [])]);
    var pair := g.funs[0];
    assert ArgTrees(g, "S", {}, pair.args, 1) == [Tree(g, "A", {"S"})];
    assert ArgTrees(g, "S", {}, pair.args, 0) == [Tree(g, "A", {"S"}), Tree(g, "A", {"S"})];
    assert FunNodes(g, "S", {}, 0) == [FunNode(g, "S", {}, pair)];
  }
}
