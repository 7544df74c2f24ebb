/** The collapse/expand toggle of `handleNodeClick`. A clicked node has the
    children it shows (d3's `d.children`, absent when collapsed) and the
    children stored in its record (`d.data.children`). Shown children are
    represented by their records. */
module NodeToggle {
  import opened Grammar

  const SelectPrefix: string := "Select "

  // ---------------------------------------------------------------------
  // `String.prototype.replace` with a string pattern: only the first
  // occurrence is replaced.
  // ---------------------------------------------------------------------

  predicate OccursAt(s: string, pat: string, i: nat)
  {
    i + |pat| <= |s| && s[i..i + |pat|] == pat
  }

  /** `s.indexOf(pat, from)`: the first occurrence at or after `from`, or -1. */
  function IndexOf(s: string, pat: string, from: nat): (r: int)
    requires from <= |s|
    ensures r == -1 || (from <= r <= |s| && OccursAt(s, pat, r))
    ensures r == -1 ==> forall k :: from <= k <= |s| ==> !OccursAt(s, pat, k)
    ensures r != -1 ==> forall k :: from <= k < r ==> !OccursAt(s, pat, k)
    decreases |s| - from
  {
    if OccursAt(s, pat, from) then from
    else if from == |s| then -1
    else IndexOf(s, pat, from + 1)
  }

  /** `s.replace(pat, rep)` for a replacement without `$` patterns: the
      first occurrence of `pat`, wherever it is, becomes `rep`. */
  function Replace(s: string, pat: string, rep: string): (r: string)
    ensures (forall k :: 0 <= k <= |s| ==> !OccursAt(s, pat, k)) ==> r == s
    ensures forall i: nat :: OccursAt(s, pat, i) && (forall k: nat :: k < i ==> !OccursAt(s, pat, k)) ==>
      r == s[..i] + rep + s[i + |pat|..]
  {
    var i := IndexOf(s, pat, 0);
    if i < 0 then s else s[..i] + rep + s[i + |pat|..]
  }

  // ---------------------------------------------------------------------
  // The two renamings.
  // ---------------------------------------------------------------------

  /** Collapse: each shown child's record, renamed to "Select " + its name. */
  function Collapse(cs: seq<Node>): seq<Node>
  {
    if cs == [] then [] else [cs[0].(name := SelectPrefix + cs[0].name)] + Collapse(cs[1..])
  }

  /** Expand: each stored child, with the first "Select " removed from its name. */
  function Expand(cs: seq<Node>): seq<Node>
  {
    if cs == [] then [] else [cs[0].(name := Replace(cs[0].name, SelectPrefix, ""))] + Expand(cs[1..])
  }

  /** Collapse keeps every child in place and changes nothing but its name. */
  lemma {:induction false} CollapseAt(cs: seq<Node>, i: nat)
    requires i < |cs|
    ensures |Collapse(cs)| == |cs|
    ensures Collapse(cs)[i] == cs[i].(name := SelectPrefix + cs[i].name)
  {
    if i > 0 {
      CollapseAt(cs[1..], i - 1);
    } else {
      CollapseLength(cs[1..]);
    }
  }

  lemma {:induction false} CollapseLength(cs: seq<Node>)
    ensures |Collapse(cs)| == |cs|
  {
    if cs != [] {
      CollapseLength(cs[1..]);
    }
  }

  /** Expanding what was collapsed restores every child exactly. */
  lemma {:induction false} ExpandCollapse(cs: seq<Node>)
    ensures Expand(Collapse(cs)) == cs
  {
    if cs != [] {
      var c := cs[0];
      assert Replace(SelectPrefix + c.name, SelectPrefix, "") == c.name by {
        assert OccursAt(SelectPrefix + c.name, SelectPrefix, 0);
      }
      assert Collapse(cs)[1..] == Collapse(cs[1..]);
      ExpandCollapse(cs[1..]);
    }
  }

  // ---------------------------------------------------------------------
  // One click.
  // ---------------------------------------------------------------------

  /** What a click reads and writes: the node's record and its shown children. */
  datatype View = View(data: Node, shown: Option<seq<Node>>)

  /** The state after a click on a node in state `v`. */
  function ClickStep(v: View): (r: View)
    ensures r.data.name == v.data.name && r.data.typ == v.data.typ
    ensures v.data.typ != Some(FunType) ==> r == v
    ensures v.data.typ == Some(FunType) ==> r.shown.Some? != v.shown.Some?
    ensures v.data.typ == Some(FunType) && v.shown.Some? ==>
      r.data == v.data.(children := Collapse(v.shown.value)) && r.shown == None
    ensures v.data.typ == Some(FunType) && v.shown.None? ==>
      r.data == v.data && r.shown == Some(Expand(v.data.children))
  {
    if v.data.typ == Some(FunType) && v.shown.Some? then
      View(v.data.(children := Collapse(v.shown.value)), None)
    else if v.shown.None? && v.data.typ == Some(FunType) then
      View(v.data, Some(Expand(v.data.children)))
    else v
  }

  /** Collapsing a "fun" node hides its children and stores them renamed to
      "Select " + name; a second click shows them again under their original
      names exactly, while the stored copies keep the prefix. */
  lemma ToggleRoundTrip(v: View)
    requires v.data.typ == Some(FunType) && v.shown.Some?
    ensures ClickStep(v).shown == None
    ensures |ClickStep(v).data.children| == |v.shown.value|
    ensures forall i :: 0 <= i < |v.shown.value| ==>
      ClickStep(v).data.children[i].name == SelectPrefix + v.shown.value[i].name
    ensures ClickStep(ClickStep(v)).shown == v.shown
    ensures ClickStep(ClickStep(v)).data == ClickStep(v).data
  {
    CollapseLength(v.shown.value);
    forall i | 0 <= i < |v.shown.value| {
      CollapseAt(v.shown.value, i);
    }
    ExpandCollapse(v.shown.value);
  }

  /** A node as d3 hands it to the click handler, updated in place. Nodes
      come from d3, so this model has no constructor for them. */
  class HierarchyNode {
    var data: Node
    var shown: Option<seq<Node>>

    /** `handleNodeClick`, without the redraw. */
    method Click()
      modifies this
      ensures View(data, shown) == ClickStep(View(old(data), old(shown)))
    {
      if data.typ == Some(FunType) && shown.Some? {
        data := data.(children := Collapse(shown.value));
        shown := None;
      } else if shown.None? && data.typ == Some(FunType) {
        shown := Some(Expand(data.children));
      }
    }
  }
}
