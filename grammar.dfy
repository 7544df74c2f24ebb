/** The abstract grammar as the tree builder reads it, and the node record
    (GrammarNode) that the builder produces and the click handler edits. */
module Grammar {

  datatype Option<+T> = None | Some(value: T)

  /** One entry of `abstract.funs`: the key and its `{args, cat}` value. */
  datatype FunEntry = FunEntry(name: string, args: seq<string>, cat: string)

  /** `funs` is kept in `Object.entries` order. */
  datatype AbstractGrammar = AbstractGrammar(name: string, startcat: string, funs: seq<FunEntry>)

  /** A GrammarNode. `typ` is the optional `type` field; the builder sets it
      only on function nodes, to "fun". */
  datatype Node = Node(name: string, children: seq<Node>, typ: Option<string>)

  const FunType: string := "fun"

  /** Keys of a JavaScript object are distinct. */
  ghost predicate DistinctNames(funs: seq<FunEntry>)
  {
    forall i, j :: 0 <= i < j < |funs| ==> funs[i].name != funs[j].name
  }

  /** Every category name the grammar mentions: the start category, every
      result category and every argument category. */
  ghost function Universe(g: AbstractGrammar): set<string>
  {
    {g.startcat} + Categories(g.funs)
  }

  ghost function Categories(funs: seq<FunEntry>): set<string>
  {
    if funs == [] then {} else {funs[0].cat} + ArgSet(funs[0].args) + Categories(funs[1..])
  }

  ghost function ArgSet(args: seq<string>): set<string>
  {
    if args == [] then {} else {args[0]} + ArgSet(args[1..])
  }

  /** The entries whose result category is `cat`, in entry order. */
  function Matching(funs: seq<FunEntry>, cat: string): (r: seq<FunEntry>)
    ensures |r| <= |funs|
    ensures forall f :: f in r <==> f in funs && f.cat == cat
  {
    if funs == [] then []
    else if funs[0].cat == cat then [funs[0]] + Matching(funs[1..], cat)
    else Matching(funs[1..], cat)
  }

  /** Filtering distributes over concatenation, so it keeps the entries in
      their original relative order. */
  lemma {:induction false} MatchingAppend(xs: seq<FunEntry>, ys: seq<FunEntry>, cat: string)
    ensures Matching(xs + ys, cat) == Matching(xs, cat) + Matching(ys, cat)
  {
    if xs == [] {
      assert xs + ys == ys;
    } else {
      assert (xs + ys)[1..] == xs[1..] + ys;
      MatchingAppend(xs[1..], ys, cat);
    }
  }

  /** A filtered list of entries with distinct names has distinct names. */
  lemma {:induction false} MatchingDistinct(funs: seq<FunEntry>, cat: string)
    requires DistinctNames(funs)
    ensures DistinctNames(Matching(funs, cat))
  {
    if funs != [] {
      var tail := funs[1..];
      assert DistinctNames(tail) by {
        forall i, j | 0 <= i < j < |tail| ensures tail[i].name != tail[j].name {
          assert tail[i] == funs[i + 1] && tail[j] == funs[j + 1];
        }
      }
      MatchingDistinct(tail, cat);
    }
  }

  /** The termination measure of the builder: categories not yet on the path. */
  ghost function Measure(g: AbstractGrammar, visited: set<string>): nat
  {
    |Universe(g) - visited|
  }

  /** Adding a category of the grammar that is not yet on the path shrinks the measure. */
  lemma MeasureShrinks(g: AbstractGrammar, visited: set<string>, cat: string)
    requires cat in Universe(g) && cat !in visited
    ensures Measure(g, visited + {cat}) < Measure(g, visited)
  {
    var u := Universe(g);
    assert u - visited == (u - (visited + {cat})) + {cat};
  }

  /** Every result category and every argument category of an entry
      belongs to the universe. */
  lemma {:induction false} EntryInUniverse(g: AbstractGrammar, f: FunEntry)
    requires f in g.funs
    ensures f.cat in Universe(g)
    ensures forall a :: a in f.args ==> a in Universe(g)
  {
    EntryInCategories(g.funs, f);
  }

  lemma {:induction false} EntryInCategories(funs: seq<FunEntry>, f: FunEntry)
    requires f in funs
    ensures f.cat in Categories(funs)
    ensures forall a :: a in f.args ==> a in Categories(funs)
  {
    if funs[0] == f {
      forall a | a in f.args ensures a in ArgSet(f.args) {
        InArgSet(f.args, a);
      }
    } else {
      EntryInCategories(funs[1..], f);
    }
  }

  lemma {:induction false} InArgSet(args: seq<string>, a: string)
    requires a in args
    ensures a in ArgSet(args)
  {
    if args[0] != a {
      InArgSet(args[1..], a);
    }
  }
}
