# Derivation-tree builder of the treevis AST visualiser

treevis loads a grammar in JSON form. It draws one tree for the abstract
grammar, rooted at the start category `startcat`. A category node has one
child per function (an entry of `funs`) whose result category `cat` is that
category. Each function node (`type: 'fun'`) has one child per argument
category. Recursion is cut by a per-path set of categories being visited: a
category already on the path becomes a childless leaf. Every argument
subtree gets its own copy of the set, so siblings do not affect each other.
The click handler works on one d3 hierarchy node. If a function node shows
children, the handler collapses it: it stores copies of the shown children,
each renamed `"Select " + name`, in the node's record and hides them. If a
function node shows no children, the handler expands it: it shows its stored
children with the first `"Select "` removed from each name. The handler then
redraws the whole tree from a fresh `d3.hierarchy` of the clicked record.
That redraw shows the stored `"Select …"` children again, so in the running
program the next click on that node collapses it again instead of expanding
it (see "## Left out").

This Dafny project models both pieces of `src/features/ASTVis/AstVis.tsx`:

- `grammar.dfy` (module `Grammar`): the grammar as an ordered list of entries
  `FunEntry(name, args, cat)` in `Object.entries` order, and the node record
  `Node(name, children, typ)`. It also holds the filter on result category
  (`Matching`) and the termination measure: the number of categories of the
  grammar that are not yet on the path.
- `tree_builder.dfy` (module `TreeBuilder`): `Tree`, `FunNodes`, `FunNode`
  and `ArgTrees` are the pure specification of `buildTree`.
  `BuildTree`, `BuildFunNode` and `TransformAbstractToTree` are the
  imperative code. They use the `CatSet` class, which stands for JavaScript's
  `Set<string>` with in-place `add` and `delete` and the copy constructor
  `new Set(visited)`. Each method is proved to return exactly the tree of the
  specification, and `BuildTree` is proved to leave the caller's set as it
  found it.
- `tree_properties.dfy` (module `TreeProperties`): the properties of the
  specification. They cover the shape of each level, the fact that the tree
  is a derivation of the grammar, the recursion cut (a category is expanded
  at most once along any path), and the depth bound.
- `node_toggle.dfy` (module `NodeToggle`): the collapse/expand toggle of
  `handleNodeClick`, with `String.prototype.replace` for a string pattern
  (first occurrence only).
- `examples.dfy` (module `Examples`): the trees built for three small
  grammars.

Facts about the code that the examples pin down:

- The code does not deduplicate argument categories among siblings. A
  function `Pair(A, A)` gets two fully expanded `A` subtrees
  (`Examples.SiblingTree`).
- For the grammar `S -> Pred(NP, VP)`, `NP -> John`, `VP -> Run`, `NP` and
  `VP` each get their function as a child (`Examples.SentenceTree`).
- The code has no concrete grammars, linearisation, alternative listing or
  select/reset with a remembered label. Its only interaction is the
  collapse/expand toggle, and that is what is modelled.

## Model

| member | source | states |
|---|---|---|
| `Grammar.Matching` | src/features/ASTVis/AstVis.tsx:42-44 | the result holds exactly the entries whose `cat` is the category, and no more entries than the grammar has |
| `Grammar.MatchingAppend` | src/features/ASTVis/AstVis.tsx:42-44 | filtering distributes over concatenation, so entries keep their `Object.entries` order |
| `Grammar.MatchingDistinct` | src/features/ASTVis/AstVis.tsx:14-19 | the filtered entries keep the distinct names that object keys have |
| `Grammar.MeasureShrinks` | src/features/ASTVis/AstVis.tsx:36-40 | adding an unvisited category of the grammar to the path strictly lowers the number of categories not yet visited, which is the termination argument of the recursion |
| `Grammar.EntryInUniverse` | src/features/ASTVis/AstVis.tsx:14-19 | every result and argument category of an entry is one of the grammar's categories |
| `TreeBuilder.CatSet.Empty` | src/features/ASTVis/AstVis.tsx:58 | `new Set<string>()` is empty |
| `TreeBuilder.CatSet.CopyOf` | src/features/ASTVis/AstVis.tsx:49 | `new Set(visited)` is a fresh set with the same members |
| `TreeBuilder.CatSet.Add` | src/features/ASTVis/AstVis.tsx:40 | `visited.add(cat)` adds exactly `cat` |
| `TreeBuilder.CatSet.Delete` | src/features/ASTVis/AstVis.tsx:54 | `visited.delete(cat)` removes exactly `cat` |
| `TreeBuilder.BuildTree` | src/features/ASTVis/AstVis.tsx:35-56 | returns exactly the specified tree for the category and the set's contents on entry, and the caller's set has the same members afterwards |
| `TreeBuilder.BuildFunNode` | src/features/ASTVis/AstVis.tsx:46-52 | the `forEach` callback builds the function node of the entry: one subtree per argument, in order, each from a fresh copy of the set |
| `TreeBuilder.TransformAbstractToTree` | src/features/ASTVis/AstVis.tsx:32-59 | the result is the specified tree for `startcat` built from an empty set; it is named `startcat` and has no type |
| `TreeProperties.FunNodesAt` | src/features/ASTVis/AstVis.tsx:46-52 | the `i`-th function node pushed is the node of the `i`-th matching entry |
| `TreeProperties.ArgTreesAt` | src/features/ASTVis/AstVis.tsx:48-50 | the `j`-th argument subtree is the tree of the `j`-th argument, built from the path plus the category |
| `TreeProperties.TreeShape` | src/features/ASTVis/AstVis.tsx:36-52 | node named `cat` with no type; a visited `cat` gives a leaf with `children` equal to `[]`; otherwise exactly one `'fun'` child per matching entry in entry order (`[]` when none match), each named after its entry with `args.length` children, the `j`-th being the tree for `args[j]` built from visited ∪ {cat}, independent of its siblings |
| `TreeProperties.FunChildAt` | src/features/ASTVis/AstVis.tsx:46-51 | the same facts for a single function child |
| `TreeProperties.FunChildrenDistinct` | src/features/ASTVis/AstVis.tsx:42-47 | with distinct entry names, the function children of one category node have pairwise distinct names |
| `TreeProperties.TreeIsDerivation` | src/features/ASTVis/AstVis.tsx:35-56 | every function node in the tree applies an entry of the grammar whose `cat` is its parent's name, and its children are named after that entry's arguments, at every depth |
| `TreeProperties.TreeExpandsOncePerPath` | src/features/ASTVis/AstVis.tsx:36-54 | along every path, a category node with children is named after no category above it and after nothing in the initial set, so a category already on the path is a leaf |
| `TreeProperties.TreeDepth` | src/features/ASTVis/AstVis.tsx:35-56 | the depth of the tree is at most 2·(number of grammar categories not in the initial set) + 1 |
| `TreeProperties.FunNodesDepth` | src/features/ASTVis/AstVis.tsx:46-52 | the function nodes of an unvisited category are at most 2·(unvisited categories) deep |
| `TreeProperties.ArgTreesDepth` | src/features/ASTVis/AstVis.tsx:48-50 | the argument subtrees are at most 2·(categories not in visited ∪ {cat}) + 1 deep |
| `TreeProperties.StartTree` | src/features/ASTVis/AstVis.tsx:58 | the tree from `startcat` and an empty set is rooted at `startcat`, is a derivation, expands each category at most once per path, and is at most 2·(number of categories) + 1 deep |
| `Examples.SentenceTree` | src/features/ASTVis/AstVis.tsx:35-56 | the tree of `S -> Pred(NP, VP)`, `NP -> John`, `VP -> Run` is `S[Pred[NP[John], VP[Run]]]` |
| `Examples.RecursiveTree` | src/features/ASTVis/AstVis.tsx:36-38 | for `NP -> And(NP, NP)` and `NP -> John`, the inner `NP`s are cut to leaves: `NP[And[NP, NP], John]` |
| `Examples.SiblingTree` | src/features/ASTVis/AstVis.tsx:49 | for `S -> Pair(A, A)`, `A -> Leaf`, both `A` siblings are fully expanded |
| `NodeToggle.IndexOf` | src/features/ASTVis/AstVis.tsx:147 | returns the first position at or after `from` where the pattern occurs, or -1 when it occurs nowhere |
| `NodeToggle.Replace` | src/features/ASTVis/AstVis.tsx:147 | leaves a string without the pattern unchanged; otherwise replaces exactly the first occurrence of the pattern, wherever it is, and keeps what lies before and after it |
| `NodeToggle.CollapseAt` | src/features/ASTVis/AstVis.tsx:138-141 | collapsing keeps each child in place and changes only its name, to `"Select " + name` |
| `NodeToggle.ExpandCollapse` | src/features/ASTVis/AstVis.tsx:138-148 | expanding the collapsed children restores every child exactly |
| `NodeToggle.ClickStep` | src/features/ASTVis/AstVis.tsx:137-150 | a click never changes the node's own name or type, and changes nothing on a node that is not `'fun'`; on a `'fun'` node with shown children it stores them collapsed in the record and hides them; on a `'fun'` node without shown children it leaves the record as it is and shows its stored children expanded |
| `NodeToggle.ToggleRoundTrip` | src/features/ASTVis/AstVis.tsx:137-148 | on one node, collapsing a `'fun'` node hides its children and stores each one renamed `"Select " + name`; a second click on the same node shows them again exactly as they were, and leaves the stored prefixed copies in the record |
| `NodeToggle.HierarchyNode.Click` | src/features/ASTVis/AstVis.tsx:136-150 | the in-place update of `d.data.children` and `d.children` is exactly one click step |

## Left out

- Grammar loading (`handleFileUpload`, `handlePathSubmit`, lines 61-88) is
  left out. It is file and network I/O with `JSON.parse`. The model takes an
  already typed grammar, so a document with a missing `abstract` or `funs`
  field, or a non-array `args`, is not modelled. In JavaScript such input
  throws a `TypeError` that is only logged.
- Rendering is left out: the d3 layout and SVG drawing in `updateTree`
  (lines 90-134), the redraw at line 151, the `useEffect` wiring
  (lines 154-159) and the JSX (lines 161-182). This is UI and a foreign
  library.
- `d3.hierarchy` is not modelled. A shown child is represented by its
  record (`child.data`), and the click handler accepts any initial pair of
  shown and stored children. In particular, the model does not use the fact
  that d3 leaves `children` undefined on a node without children.
- `NodeToggle.ToggleRoundTrip`: the round trip holds for the handler applied
  twice to the same hierarchy node. In the program the redraw at line 151
  builds new hierarchy nodes from `d.data`, whose `children` now hold the
  `"Select …"` records, so the next click collapses again and yields names
  such as `"Select Select X"`. The redraw is not modelled, so the model does
  not capture this.
- `NodeToggle.Replace`: `String.prototype.replace` gives `$&`, `$1` and
  similar patterns in the replacement string a special meaning. These are
  not modelled. The only call, at line 147, passes the empty string.
- `NodeToggle.HierarchyNode.Click`: `d.data.children` is always present on
  nodes the builder makes, so the `d.data.children` test of line 143 is
  always true in the model.
- The optional `fid` field of `GrammarNode` is never set by the core and is
  not modelled.
- Nodes are values. The `push` calls that fill fresh `children` arrays
  become appends to sequences, which loses nothing because no array is
  shared. Object identity and aliasing of nodes are not modelled.
- `src/features/ASTVis/astVisSlice.ts`, `src/app/store.ts` and `src/App.tsx`
  are Redux boilerplate and a presentational wrapper. They are not part of
  this model.
