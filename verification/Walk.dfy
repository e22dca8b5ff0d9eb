/** Walking a structure block node by node with a depth counter: fdt_next_node and the loops around it. */
module Walk {
  import opened Bytes
  import opened Structure

  /** Where fdt_next_node stopped: an offset, or a negative error code, and the depth counter. */
  datatype Visit = Visit(off: int, depth: int)

  /** The result for a block on which the source's loop never returns. */
  const DIVERGES: int := -1000

  /** fdt_check_node_offset_: the offset after the node's name, or an error. */
  function NodeStart(s: seq<u8>, off: int): (r: int)
    ensures r < 0 || (NextTag(s, off) == Step(FDT_BEGIN_NODE, r) && r > off)
  {
    if off < 0 || off % 4 != 0 then BADOFFSET
    else if NextTag(s, off).tag != FDT_BEGIN_NODE then BADOFFSET
    else
      NextTagForm(s, off);
      NextTag(s, off).next
  }

  /** The loop of fdt_next_node from a tag offset; `counted` says whether the caller passed a depth. */
  function Hop(s: seq<u8>, off: nat, depth: int, counted: bool): (v: Visit)
    ensures v.off >= 0 ==> v.off >= off && (Aligned(off) ==> Aligned(v.off))
    ensures v.off >= 0 && (!counted || v.depth >= 0) ==> NextTag(s, v.off).tag == FDT_BEGIN_NODE
    ensures counted && depth >= 0 ==> v.depth >= -1
    decreases |s| - off
  {
    hide Aligned;
    var t := NextTag(s, off);
    if t.tag == FDT_BEGIN_NODE then Visit(off, depth + 1)
    else if t.tag == FDT_END then
      if t.next >= 0 || (t.next == TRUNCATED && !counted) then Visit(NOTFOUND, depth) else Visit(t.next, depth)
    else if t.next == off then Visit(DIVERGES, depth)
    else if t.tag == FDT_END_NODE then
      if counted && depth - 1 < 0 then Visit(t.next, depth - 1) else Hop(s, t.next, depth - 1, counted)
    else Hop(s, t.next, depth, counted)
  }

  function NextNode(s: seq<u8>, off: int, depth: int, counted: bool): (v: Visit) {
    if off < 0 then Hop(s, 0, depth, counted)
    else
      var n := NodeStart(s, off);
      if n < 0 then Visit(n, depth) else Hop(s, n, depth, counted)
  }

  /** fdt_next_node as the source writes it. */
  method NextNodeLoop(s: seq<u8>, off: int, depth: int, counted: bool) returns (v: Visit)
    ensures v == NextNode(s, off, depth, counted)
  {
    hide NextTag;
    var nextoffset := 0;
    var offset, d := off, depth;
    if offset >= 0 {
      nextoffset := NodeStart(s, offset);
      if nextoffset < 0 { return Visit(nextoffset, d); }
    }
    var tag := FDT_NOP;
    while tag != FDT_BEGIN_NODE
      invariant 0 <= nextoffset
      invariant tag != FDT_BEGIN_NODE ==> Hop(s, nextoffset, d, counted) == NextNode(s, off, depth, counted)
      invariant tag == FDT_BEGIN_NODE ==> Visit(offset, d) == NextNode(s, off, depth, counted)
      decreases tag != FDT_BEGIN_NODE, |s| - nextoffset
    {
      offset := nextoffset;
      tag, nextoffset := NextTagScan(s, offset);
      if tag == FDT_BEGIN_NODE {
        d := d + 1;
      } else if tag == FDT_END_NODE {
        NextTagForm(s, offset);
        d := d - 1;
        if counted && d < 0 { return Visit(nextoffset, d); }
      } else if tag == FDT_END {
        if nextoffset >= 0 || (nextoffset == TRUNCATED && !counted) { return Visit(NOTFOUND, d); }
        return Visit(nextoffset, d);
      } else if nextoffset == offset {
        return Visit(DIVERGES, d);
      }
    }
    return Visit(offset, d);
  }

  // ---------- The nodes a walk visits ----------

  /** Every stop of the loop `off = fdt_next_node(fdt, off, &depth)` while it stays at depth 0 or more. */
  function Visits(s: seq<u8>, off: nat, depth: int, counted: bool): (vs: seq<Visit>)
    decreases |s| - off
  {
    var v := Hop(s, off, depth, counted);
    if v.off < 0 || (counted && v.depth < 0) then []
    else
      NextTagForm(s, v.off);
      [v] + Visits(s, NextTag(s, v.off).next, v.depth, counted)
  }

  /** The stop that ends that loop. */
  function LastHop(s: seq<u8>, off: nat, depth: int, counted: bool): (v: Visit)
    ensures v.off < 0 || (counted && v.depth < 0)
    decreases |s| - off
  {
    var v := Hop(s, off, depth, counted);
    if v.off < 0 || (counted && v.depth < 0) then v
    else
      NextTagForm(s, v.off);
      LastHop(s, NextTag(s, v.off).next, v.depth, counted)
  }

  /** The nodes of a forest at `off` in document order, its top level having depth `d`. */
  ghost function Preorder(f: Forest, off: int, d: int): (vs: seq<Visit>)
    requires Ok(f)
  {
    match f
    case Empty => []
    case Node(_, _, kids, rest) =>
      [Visit(off, d)] + (Preorder(kids, off + TokSize(Head(f)), d + 1) + Preorder(rest, off + NodeSize(f), d))
    case _ => Preorder(f.rest, off + TokSize(Head(f)), d)
  }

  lemma {:induction false} HopLeaf(s: seq<u8>, off: nat, f: Forest, d: int, counted: bool)
    requires At(s, off, f) && (f.Prop? || f.Nop?)
    ensures Hop(s, off, d, counted) == Hop(s, off + TokSize(Head(f)), d, counted)
    ensures Visits(s, off, d, counted) == Visits(s, off + TokSize(Head(f)), d, counted)
    ensures LastHop(s, off, d, counted) == LastHop(s, off + TokSize(Head(f)), d, counted)
  {
    hide NextTag, TokAt, TokWords;
    NextTagAt(s, off, Head(f));
  }

  /** At FDT_END_NODE the counter falls by one and the walk goes on, unless it falls below zero. */
  lemma {:induction false} HopEnd(s: seq<u8>, off: nat, d: int, counted: bool)
    requires TokAt(s, off, End)
    ensures counted && d <= 0 ==> Hop(s, off, d, counted) == Visit(off + 4, d - 1)
    ensures counted && d <= 0 ==>
      Visits(s, off, d, counted) == [] && LastHop(s, off, d, counted) == Visit(off + 4, d - 1)
    ensures !counted || d > 0 ==> Hop(s, off, d, counted) == Hop(s, off + 4, d - 1, counted)
    ensures !counted || d > 0 ==> Visits(s, off, d, counted) == Visits(s, off + 4, d - 1, counted)
    ensures !counted || d > 0 ==> LastHop(s, off, d, counted) == LastHop(s, off + 4, d - 1, counted)
  {
    NextTagAt(s, off, End);
    hide NextTag, TokAt;
  }

  lemma {:induction false} HopNode(s: seq<u8>, off: nat, t: Token, d: int, counted: bool)
    requires TokAt(s, off, t) && t.Begin? && (counted ==> d >= -1)
    ensures Hop(s, off, d, counted) == Visit(off, d + 1)
    ensures Visits(s, off, d, counted) == [Visit(off, d + 1)] + Visits(s, off + TokSize(t), d + 1, counted)
    ensures LastHop(s, off, d, counted) == LastHop(s, off + TokSize(t), d + 1, counted)
  {
    hide NextTag, TokAt, TokWords;
    NextTagAt(s, off, t);
  }

  /**
   A depth-counted walk over an encoded forest stops at exactly its nodes, in document order and with their
   depths, and leaves the counter as it was.
   */
  lemma {:induction false} VisitsForest(s: seq<u8>, off: nat, f: Forest, d: int, counted: bool)
    requires At(s, off, f) && (counted ==> d >= 0)
    ensures Visits(s, off, d, counted) == Preorder(f, off, d + 1) + Visits(s, off + Size(f), d, counted)
    ensures LastHop(s, off, d, counted) == LastHop(s, off + Size(f), d, counted)
    decreases f
  {
    hide NextTag, TokAt, TokWords, At, Visits, LastHop, Hop, Words, Ok;
    AtIff(s, off, f);
    match f {
      case Empty => assert Preorder(f, off, d + 1) + Visits(s, off, d, counted) == Visits(s, off, d, counted);
      case Node(_, _, kids, rest) =>
        var i, j, k := off + TokSize(Head(f)), off + NodeSize(f) - 4, off + NodeSize(f);
        HopNode(s, off, Head(f), d, counted);
        VisitsForest(s, i, kids, d + 1, counted);
        HopEnd(s, j, d + 1, counted);
        VisitsForest(s, k, rest, d, counted);
        var a, b, c := Preorder(kids, i, d + 2), Preorder(rest, k, d + 1), Visits(s, off + Size(f), d, counted);
        assert [Visit(off, d + 1)] + (a + (b + c)) == ([Visit(off, d + 1)] + (a + b)) + c;
      case Prop(_, _, _, rest) =>
        HopLeaf(s, off, f, d, counted);
        VisitsForest(s, off + TokSize(Head(f)), rest, d, counted);
      case Nop(rest) =>
        HopLeaf(s, off, f, d, counted);
        VisitsForest(s, off + TokSize(Head(f)), rest, d, counted);
    }
  }

  /** From a node, the counted walk stops at its descendants and then just after its FDT_END_NODE. */
  lemma {:induction false} VisitsNode(s: seq<u8>, off: nat, f: Forest)
    requires At(s, off, f) && f.Node?
    ensures NodeStart(s, off) == off + TokSize(Head(f))
    ensures Visits(s, off + TokSize(Head(f)), 0, true) == Preorder(f.kids, off + TokSize(Head(f)), 1)
    ensures LastHop(s, off + TokSize(Head(f)), 0, true) == Visit(off + NodeSize(f), -1)
  {
    hide NextTag, TokAt, TokWords, At, Visits, LastHop, Hop, Words, Ok;
    AtIff(s, off, f);
    NextTagAt(s, off, Head(f));
    AlignedMod(off);
    var i := off + TokSize(Head(f));
    VisitsForest(s, i, f.kids, 0, true);
    HopEnd(s, i + Size(f.kids), 0, true);
    assert Preorder(f.kids, i, 1) + [] == Preorder(f.kids, i, 1);
  }

  lemma {:induction false} AlignedMod(off: int)
    requires Aligned(off)
    ensures off % 4 == 0
  {
  }

  /** The uncounted walk over a whole block stops at every node in document order and then reports NOTFOUND. */
  lemma {:induction false} VisitsBlock(s: seq<u8>, f: Forest)
    requires At(s, 0, f) && Size(f) + 4 <= |s| && Be32(s, Size(f)) == FDT_END
    ensures Visits(s, 0, -1, false) == Preorder(f, 0, 0) && LastHop(s, 0, -1, false).off == NOTFOUND
  {
    hide At, Be32, Words, Ok;
    VisitsForest(s, 0, f, -1, false);
    assert NextTag(s, Size(f)).tag == FDT_END && NextTag(s, Size(f)).next >= 0;
    hide NextTag;
    assert Preorder(f, 0, 0) + [] == Preorder(f, 0, 0);
  }
}
