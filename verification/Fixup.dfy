/**
 The largest phandle of a tree, and overlay_adjust_local_phandles, which moves the phandles of an overlay in place.
 */
module Fixup {
  import opened Bytes
  import Memory
  import opened Structure
  import opened Zipper
  import opened Walk
  import opened Lookup
  import Check
  import opened Tree
  import opened Edit
  import opened InPlace
  import opened Blob
  import Rw
  import opened Phandle

  // ---------- fdt_find_max_phandle ----------

  /** fdt_getprop where the value must be one word. */
  function WordAt(s: seq<u8>, st: seq<u8>, node: int, name: seq<u8>): Option<u32> {
    var p := GetProp(s, st, node, name);
    if p >= 0 && p + 16 <= |s| && Be32(s, p + 4) == 4 then Some(Be32(s, p + 12)) else None
  }

  function PhandleAt(s: seq<u8>, st: seq<u8>, node: int): u32 {
    match WordAt(s, st, node, PHANDLE)
    case Some(w) => w
    case None => match WordAt(s, st, node, LINUX_PHANDLE) case Some(w) => w case None => 0
  }

  lemma {:induction false} WordAtIs(s: seq<u8>, off: nat, n: Forest, st: seq<u8>, name: seq<u8>)
    requires At(s, off, n) && n.Node?
    ensures WordAt(s, st, off, name) == WordIn(Props(n.kids, st), name)
  {
    hide At, TokAt, TokWords, Words, Be32, GetProp, FindProp, PropCtx, PropFocus, Props, Str, Offset, Plug;
    var i := off + TokSize(Head(n));
    AtIff(s, off, n);
    GetPropIs(s, off, n, st, name);
    PropCtxIs(n.kids, i, st, name);
    var d, g := PropCtx(n.kids, st, name), PropFocus(n.kids, st, name);
    if name in Props(n.kids, st) {
      AtPlug(s, i, d, g);
      AtIff(s, i + Offset(d), g);
      PropWords(s, i + Offset(d), Head(g));
      if |g.val| == 4 {
        assert s[i + Offset(d) + 12..i + Offset(d) + 12 + 4] == g.val[0..4];
        Move32(s, i + Offset(d) + 12, g.val, 0, 4, 0);
      }
    }
  }

  /** fdt_get_phandle: a `phandle` of one word, without one a `linux,phandle` of one word, else 0. */
  lemma {:induction false} PhandleAtIs(s: seq<u8>, off: nat, n: Forest, st: seq<u8>)
    requires At(s, off, n) && n.Node?
    ensures PhandleAt(s, st, off) == PhandleOf(TreeOf(n, st))
    ensures var m := Props(n.kids, st);
      var first, second := PHANDLE in m && |m[PHANDLE]| == 4, LINUX_PHANDLE in m && |m[LINUX_PHANDLE]| == 4;
      && (first ==> PhandleAt(s, st, off) == Be32(m[PHANDLE], 0))
      && (!first && second ==> PhandleAt(s, st, off) == Be32(m[LINUX_PHANDLE], 0))
      && (!first && !second ==> PhandleAt(s, st, off) == 0)
  {
    hide At, WordAt, Props;
    WordAtIs(s, off, n, st, PHANDLE);
    WordAtIs(s, off, n, st, LINUX_PHANDLE);
  }

  function MaxVisits(s: seq<u8>, st: seq<u8>, vs: seq<Visit>): u32 {
    if vs == [] then 0 else Max(PhandleAt(s, st, vs[0].off), MaxVisits(s, st, vs[1..]))
  }

  lemma {:induction false} MaxConcat(s: seq<u8>, st: seq<u8>, a: seq<Visit>, b: seq<Visit>)
    ensures MaxVisits(s, st, a + b) == Max(MaxVisits(s, st, a), MaxVisits(s, st, b))
  {
    hide PhandleAt;
    if a == [] {
      assert a + b == b;
    } else {
      assert (a + b)[1..] == a[1..] + b;
      MaxConcat(s, st, a[1..], b);
    }
  }

  lemma {:induction false} MaxForest(s: seq<u8>, off: nat, f: Forest, st: seq<u8>, d: int)
    requires At(s, off, f)
    ensures MaxVisits(s, st, Preorder(f, off, d)) == MaxTrees(Kids(f, st))
    decreases f
  {
    hide At, TokAt, TokWords, Words, PhandleAt, PhandleOf, Props;
    AtIff(s, off, f);
    match f {
      case Empty =>
      case Node(_, _, kids, rest) =>
        var i, k := off + TokSize(Head(f)), off + NodeSize(f);
        var x, y := Preorder(kids, i, d + 1), Preorder(rest, k, d);
        PhandleAtIs(s, off, f, st);
        MaxForest(s, i, kids, st, d + 1);
        MaxForest(s, k, rest, st, d);
        MaxConcat(s, st, x, y);
        assert ([Visit(off, d)] + (x + y))[1..] == x + y;
        assert Kids(f, st)[1..] == Kids(rest, st);
      case Prop(_, _, _, rest) => MaxForest(s, off + TokSize(Head(f)), rest, st, d);
      case Nop(rest) => MaxForest(s, off + TokSize(Head(f)), rest, st, d);
    }
  }

  /** fdt_find_max_phandle: the largest phandle of any node of the block. */
  method FindMaxPhandle(s: seq<u8>, st: seq<u8>, ghost f: Forest) returns (err: int, max: u32)
    requires Holds(s, f)
    ensures err == 0 && max == MaxTrees(Kids(f, st)) && Largest(Kids(f, st), max)
  {
    hide Largest, At, Be32, Words, NextTag, Aligned, PhandleAt, Preorder, Kids, MaxTrees, Hop;
    VisitsBlock(s, f);
    MaxForest(s, 0, f, st, 0);
    MaxIs(Kids(f, st));
    max := 0;
    var v := NextNodeLoop(s, -1, -1, false);
    ghost var p: nat, d := 0, -1;
    while v.off >= 0
      invariant v == Hop(s, p, d, false)
      invariant Max(max, MaxVisits(s, st, Visits(s, p, d, false))) == MaxTrees(Kids(f, st))
      invariant LastHop(s, p, d, false).off == NOTFOUND && Aligned(p)
      decreases |s| - p
    {
      NextTagForm(s, v.off);
      AlignedMod(v.off);
      p, d := NextTag(s, v.off).next, v.depth;
      var value := PhandleAt(s, st, v.off);
      if value > max { max := value; }
      v := NextNodeLoop(s, v.off, v.depth, false);
    }
    err := if v.off == NOTFOUND then 0 else v.off;
  }

  // ---------- Going from sibling to sibling while they change ----------

  /** A context whose hole is at the top level of its list. */
  ghost predicate Flat(d: Ctx) {
    match d
    case Hole => true
    case Into(_, _, _, _) => false
    case _ => Flat(d.c)
  }

  lemma {:induction false} FlatReads(d: Ctx, f: Forest, st: seq<u8>)
    requires Flat(d)
    ensures Kids(Plug(d, f), st) == Kids(Plug(d, Empty), st) + Kids(f, st)
  {
    hide Str, Props;
    match d {
      case Hole => assert Kids(Empty, st) + Kids(f, st) == Kids(f, st);
      case PastNode(_, _, _, e) => FlatReads(e, f, st);
      case PastProp(_, _, _, e) => FlatReads(e, f, st);
      case PastNop(e) => FlatReads(e, f, st);
    }
  }

  lemma {:induction false} FlatSize(d: Ctx, f: Forest)
    requires Flat(d) && OkC(d) && Ok(f)
    ensures Ok(Plug(d, f)) && Size(Plug(d, f)) == Offset(d) + Size(f)
  {
    hide TokWords, Words;
    PlugStep(d, f);
    if !d.Hole? {
      FlatSize(d.c, f);
      AtIff([], 0, Plug(d, f));
    }
  }

  /** Swapping one node for another at the hole keeps the properties. */
  lemma {:induction false} FlatProps(d: Ctx, f: Forest, g: Forest, st: seq<u8>)
    requires Flat(d) && f.Node? && g.Node?
    ensures Props(Plug(d, f), st) == Props(Plug(d, g), st)
  {
    hide Str, Kids;
    if !d.Hole? && !d.PastNode? { FlatProps(d.c, f, g, st); }
  }

  lemma {:induction false} FlatCompose(d: Ctx, e: Ctx)
    requires Flat(d) && Flat(e)
    ensures Flat(Compose(d, e))
  {
    if !d.Hole? { FlatCompose(d.c, e); }
  }

  lemma {:induction false} FlatRun(f: Forest, off: nat, st: seq<u8>)
    requires Ok(f)
    ensures Flat(RunCtx(f)) && OkC(RunCtx(f)) && Ok(RunTail(f)) && Plug(RunCtx(f), RunTail(f)) == f
    ensures FirstNode(f, off) == if RunTail(f).Node? then off + Offset(RunCtx(f)) else NOTFOUND
    ensures Kids(f, st) == Kids(RunTail(f), st) && !RunTail(f).Prop? && !RunTail(f).Nop?
    decreases f
  {
    hide TokWords, Str, Props;
    OkRun(f);
    match f {
      case Prop(_, _, _, rest) => FlatRun(rest, off + TokSize(Head(f)), st);
      case Nop(rest) => FlatRun(rest, off + TokSize(Head(f)), st);
      case Empty =>
      case Node(_, _, _, _) =>
    }
  }

  lemma {:induction false} RunEmpty(f: Forest, st: seq<u8>)
    ensures Kids(Plug(RunCtx(f), Empty), st) == []
  {
    if f.Prop? || f.Nop? { RunEmpty(f.rest, st); }
  }

  /** The next sibling node as a place of its own. */
  lemma {:induction false} SiblingIn(c: Ctx, n: Forest, d: Ctx, f: Forest, st: seq<u8>)
    requires n.Node? && Ok(n) && OkC(c) && Flat(d) && OkC(d) && Ok(f) && RunTail(f).Node?
    ensures var g, d1 := RunTail(f), Compose(d, RunCtx(f)); var e := Inside(c, n, d1);
      && OkC(d1) && Flat(d1) && Ok(g) && Plug(d1, g) == Plug(d, f) && OkC(e)
         && Plug(e, g) == Plug(c, WithKids(n, Plug(d, f)))
      && Offset(e) == Offset(c) + TokSize(Head(n)) + Offset(d1) && OkC(RunCtx(f))
         && Offset(d1) == Offset(d) + Offset(RunCtx(f))
      && Kids(f, st) == [TreeOf(g, st)] + Kids(g.rest, st) && Kids(Plug(d1, Empty), st) == Kids(Plug(d, Empty), st)
  {
    hide TokWords, Words, Offset, Inside, RunCtx, RunTail, TokOk;
    FlatRun(f, 0, st);
    var g, r := RunTail(f), RunCtx(f);
    FlatCompose(d, r);
    PlugCompose(d, r, g);
    PlugCompose(d, r, Empty);
    OkPlug(d, Plug(r, Empty));
    OffsetCompose(d, r);
    RunEmpty(f, st);
    FlatReads(d, Plug(r, Empty), st);
    InsideIs(c, n, Compose(d, r), g);
  }

  /** The place after a node, with the node left behind. */
  ghost function Past(d: Ctx, g: Forest): Ctx
    requires g.Node?
  {
    Compose(d, PastNode(g.name, g.npad, g.kids, Hole))
  }

  lemma {:induction false} SiblingPast(d: Ctx, g: Forest, st: seq<u8>)
    requires Flat(d) && OkC(d) && g.Node? && Ok(g)
    ensures OkC(Past(d, g)) && Flat(Past(d, g)) && Ok(g.rest) && Plug(Past(d, g), g.rest) == Plug(d, g)
    ensures Ok(Plug(d, g)) && Offset(Past(d, g)) == Offset(d) + NodeSize(g)
    ensures Kids(Plug(Past(d, g), Empty), st) == Kids(Plug(d, Empty), st) + [TreeOf(g, st)]
  {
    hide TokWords, Words, Offset, TokOk, Props;
    var q := PastNode(g.name, g.npad, g.kids, Hole);
    FlatCompose(d, q);
    PlugCompose(d, q, g.rest);
    PlugCompose(d, q, Empty);
    OkPlug(d, Plug(q, Empty));
    OkPlug(d, g);
    OffsetCompose(d, q);
    PlugStep(q, g.rest);
    PlugHole(g.rest);
    FlatReads(d, Plug(q, Empty), st);
  }

  lemma {:induction false} SiblingNext(s: seq<u8>, c: Ctx, n: Forest, d: Ctx, g: Forest)
    requires n.Node? && Ok(n) && OkC(c) && Flat(d) && OkC(d) && g.Node? && Ok(g) && Holds(s, Plug(Inside(c, n, d), g))
    ensures Plug(Inside(c, n, d), g) == Plug(c, WithKids(n, Plug(d, g)))
    ensures var o := Offset(c) + TokSize(Head(n)) + Offset(d); NextSubnode(s, o) == FirstNode(g.rest, o + NodeSize(g))
  {
    hide TokWords, Words, Offset, Inside, At, TokAt, NextSubnode, Be32, Plug, Flat;
    InsideIs(c, n, d, g);
    OkPlug(d, g);
    FlatSize(d, g);
    var n2 := WithKids(n, Plug(d, g));
    NodeAt(s, c, n2);
    AtPlug(s, Offset(c) + TokSize(Head(n)), d, g);
    NextSubnodeIs(s, Offset(c) + TokSize(Head(n)) + Offset(d), g);
  }

  // ---------- overlay_adjust_node_phandles ----------

  ghost function PhandleNames(): iset<seq<u8>> {
    iset{PHANDLE, LINUX_PHANDLE}
  }

  /** overlay_phandle_add_offset. */
  method AddOffset(fdt: Rw.Fdt, node: nat, name: seq<u8>, delta: u32, ghost c: Ctx, ghost n: Forest)
    returns (err: int, ghost n2: Forest)
    requires fdt.Valid() && fdt.Encodes(c, n) && node == Offset(c)
    modifies fdt, fdt.mem, fdt.mem.data
    ensures fdt.Valid() && fdt.Encodes(c, n2) && fdt.h == old(fdt.h)
      && Rsv(fdt.h, fdt.mem.bytes) == old(Rsv(fdt.h, fdt.mem.bytes))
    ensures Strings(fdt.h, fdt.mem.bytes) == old(Strings(fdt.h, fdt.mem.bytes)) && n2.rest == n.rest
    ensures var st := old(Strings(fdt.h, fdt.mem.bytes)); var m := Props(n.kids, st);
      && (err == NOTFOUND <==> name !in m) && (err == NOTFOUND ==> n2 == n)
      && (name in m ==> err == ResultErr(AdjustProp(m, name, delta)))
      && (name in m ==> (err == 0 <==> |m[name]| == 4 && Be32(m[name], 0) + delta < TWO32 - 1))
      && (name in m && err != 0 ==> err == if |m[name]| != 4 then BADPHANDLE else NOPHANDLES)
      && (err == 0 ==> TreeOf(n2, st) == TreeOf(n, st).(props := m[name := Put32(Be32(m[name], 0) + delta)]))
      && (err == 0 ==> TreeOf(n2, st) == TreeOf(n, st).(props := AdjustProp(m, name, delta).value))
      && Revised(n, n2, st, iset{name})
  {
    hide Struct, Strings, Rsv, Props, GetProp, Plug, PropCtx, PropFocus, Holds, Be32, Str, Aligned, At, TokAt, Kids,
      Check.Named, TokWords, Words, Put32, Offset, Ordered, Revised, Memory.Patched;
    var s, st := fdt.Blocks();
    RevisedSame(n, st, iset{name});
    FocusAt(s, c, n, st, name);
    n2 := n;
    var p := GetPropLoop(s, st, node, name);
    if p < 0 { return p, n; }
    ghost var val := Props(n.kids, st)[name];
    PropWords(s, p, Head(PropFocus(n.kids, st, name)));
    if Be32(s, p + 4) != 4 { return BADPHANDLE, n; }
    ValueWord(s, p + 12, val);
    var adjVal := Be32(s, p + 12);
    if Add32(adjVal, delta) < adjVal { return NOPHANDLES, n; }
    adjVal := Add32(adjVal, delta);
    if adjVal == TWO32 - 1 { return NOPHANDLES, n; }
    err, n2 := fdt.SetpropInplacePartial(node, name, 0, Put32(adjVal), c, n);
    OverwriteAll(val, Put32(adjVal));
  }

  lemma {:induction false} ValueWord(s: seq<u8>, p: nat, val: seq<u8>)
    requires p + 4 <= |s| && |val| == 4 && s[p..p + 4] == val
    ensures Be32(s, p) == Be32(val, 0)
  {
    assert val == val[0..4];
    Move32(s, p, val, 0, 4, 0);
  }

  lemma {:induction false} OverwriteAll(val: seq<u8>, v: seq<u8>)
    requires |v| == |val|
    ensures Overwrite(val, 0, v) == v
  {
  }

  /** The two phandle properties of one node. */
  method AdjustHere(fdt: Rw.Fdt, node: nat, delta: u32, ghost c: Ctx, ghost n: Forest)
    returns (err: int, ghost n2: Forest)
    requires fdt.Valid() && fdt.Encodes(c, n) && node == Offset(c)
    modifies fdt, fdt.mem, fdt.mem.data
    ensures fdt.Valid() && fdt.Encodes(c, n2) && fdt.h == old(fdt.h)
      && Rsv(fdt.h, fdt.mem.bytes) == old(Rsv(fdt.h, fdt.mem.bytes))
    ensures Strings(fdt.h, fdt.mem.bytes) == old(Strings(fdt.h, fdt.mem.bytes)) && n2.rest == n.rest
    ensures var st := old(Strings(fdt.h, fdt.mem.bytes)); var t := TreeOf(n, st);
      match AdjustProp(t.props, PHANDLE, delta)
      case Failed(e) => err == e < 0
      case Done(m) =>
        match AdjustProp(m, LINUX_PHANDLE, delta)
        case Failed(e) => err == e < 0
        case Done(m2) => err == 0 && TreeOf(n2, st) == t.(props := m2)
    ensures Revised(n, n2, old(Strings(fdt.h, fdt.mem.bytes)), PhandleNames())
  {
    hide Struct, Strings, Rsv, Props, Plug, Holds, Be32, Str, Check.Named, Put32, Offset, Ordered, Kids, Revised;
    ghost var st := Strings(fdt.h, fdt.mem.bytes);
    err, n2 := AddOffset(fdt, node, PHANDLE, delta, c, n);
    RevisedSame(n, st, iset{});
    RevisedTrans(n, n, n2, st, iset{}, iset{PHANDLE}, PhandleNames());
    if err != 0 && err != NOTFOUND { return; }
    ghost var n1 := n2;
    err, n2 := AddOffset(fdt, node, LINUX_PHANDLE, delta, c, n2);
    RevisedTrans(n, n1, n2, st, iset{PHANDLE}, iset{LINUX_PHANDLE}, PhandleNames());
    if err == NOTFOUND { err := 0; }
  }

  ghost function Prepend(done: seq<Tree>, r: Result<seq<Tree>>): Result<seq<Tree>> {
    match r case Failed(e) => Failed(e) case Done(us) => Done(done + us)
  }

  lemma {:induction false} PrependMore(done: seq<Tree>, t: Tree, ts: seq<Tree>, delta: u32)
    ensures Prepend(done, AdjustTrees([t] + ts, delta)) ==
            match AdjustTree(t, delta) case Failed(e) => Failed(e)
              case Done(u) => Prepend(done + [u], AdjustTrees(ts, delta))
  {
    hide AdjustTree;
    assert ([t] + ts)[1..] == ts;
    if AdjustTree(t, delta).Done? && AdjustTrees(ts, delta).Done? {
      var u, us := AdjustTree(t, delta).value, AdjustTrees(ts, delta).value;
      assert done + ([u] + us) == done + [u] + us;
    }
  }

  lemma {:induction false} PrependNone(ts: seq<Tree>, delta: u32)
    ensures Prepend([], AdjustTrees(ts, delta)) == AdjustTrees(ts, delta)
    ensures forall done :: Prepend(done, AdjustTrees([], delta)) == Done(done)
  {
    if AdjustTrees(ts, delta).Done? { assert [] + AdjustTrees(ts, delta).value == AdjustTrees(ts, delta).value; }
    forall done: seq<Tree> ensures Prepend(done, AdjustTrees([], delta)) == Done(done) { assert done + [] == done; }
  }

  /** The next sibling node after the place `d`: its subtree adjusted, and the place after it. */
  method AdjustSibling(fdt: Rw.Fdt, child: nat, delta: u32, ghost c: Ctx, ghost n: Forest, ghost d: Ctx,
                       ghost f: Forest)
    returns (err: int, ghost d2: Ctx, ghost f2: Forest)
    requires n.Node? && Ok(n) && OkC(c) && Flat(d) && OkC(d) && Ok(f) && RunTail(f).Node?
    requires fdt.Valid() && fdt.Encodes(c, WithKids(n, Plug(d, f)))
      && child == FirstNode(f, Offset(c) + TokSize(Head(n)) + Offset(d))
    modifies fdt, fdt.mem, fdt.mem.data
    ensures fdt.Valid() && fdt.h == old(fdt.h) && Rsv(fdt.h, fdt.mem.bytes) == old(Rsv(fdt.h, fdt.mem.bytes))
    ensures Strings(fdt.h, fdt.mem.bytes) == old(Strings(fdt.h, fdt.mem.bytes))
    ensures fdt.Encodes(c, WithKids(n, Plug(d2, f2))) && Flat(d2) && OkC(d2) && Ok(f2)
    ensures NextSubnode(Struct(fdt.h, fdt.mem.bytes), child) == FirstNode(f2, Offset(c) + TokSize(Head(n)) + Offset(d2))
    ensures var st := old(Strings(fdt.h, fdt.mem.bytes)); var t := TreeOf(RunTail(f), st);
      && Props(Plug(d2, f2), st) == Props(Plug(d, f), st) && Kids(f, st) == [t] + Kids(f2, st)
      && match AdjustTree(t, delta)
         case Failed(e) => err == e < 0
         case Done(u) => err == 0 && Kids(Plug(d2, Empty), st) == Kids(Plug(d, Empty), st) + [u]
    ensures Revised(Plug(d, f), Plug(d2, f2), Strings(fdt.h, fdt.mem.bytes), PhandleNames())
    decreases TreeOf(RunTail(f), Strings(fdt.h, fdt.mem.bytes)), 1
  {
    hide Struct, Strings, Rsv, Props, Plug, Holds, Be32, Str, Check.Named, Put32, Offset, Ordered, Kids, At, TokAt,
      Words, TokWords, NextSubnode, FirstNode, RunCtx, RunTail, Compose, Inside, AdjustTree, Flat, Revised, Past;
    ghost var st := Strings(fdt.h, fdt.mem.bytes);
    FlatRun(f, Offset(c) + TokSize(Head(n)) + Offset(d), st);
    SiblingIn(c, n, d, f, st);
    ghost var g, d1 := RunTail(f), Compose(d, RunCtx(f));
    ghost var g2;
    err, g2 := AdjustNode(fdt, child, delta, Inside(c, n, d1), g);
    SiblingPast(d1, g2, st);
    SiblingNext(Struct(fdt.h, fdt.mem.bytes), c, n, d1, g2);
    FlatProps(d1, g, g2, st);
    RevisedPlug(d1, g, g2, st, PhandleNames());
    d2, f2 := Past(d1, g2), g.rest;
  }

  /** The loop over the subnodes. */
  method AdjustKids(fdt: Rw.Fdt, node: nat, delta: u32, ghost c: Ctx, ghost n: Forest)
    returns (err: int, ghost n2: Forest)
    requires fdt.Valid() && fdt.Encodes(c, n) && node == Offset(c)
    modifies fdt, fdt.mem, fdt.mem.data
    ensures fdt.Valid() && fdt.Encodes(c, n2) && fdt.h == old(fdt.h)
      && Rsv(fdt.h, fdt.mem.bytes) == old(Rsv(fdt.h, fdt.mem.bytes))
    ensures Strings(fdt.h, fdt.mem.bytes) == old(Strings(fdt.h, fdt.mem.bytes)) && n2.rest == n.rest
    ensures var st := old(Strings(fdt.h, fdt.mem.bytes)); var t := TreeOf(n, st);
      match AdjustTrees(t.children, delta)
      case Failed(e) => err == e < 0
      case Done(us) => err == 0 && TreeOf(n2, st) == t.(children := us)
    ensures Revised(n, n2, old(Strings(fdt.h, fdt.mem.bytes)), PhandleNames())
    decreases TreeOf(n, Strings(fdt.h, fdt.mem.bytes)).children, 2
  {
    hide Struct, Strings, Rsv, Props, Plug, Holds, Be32, Str, Check.Named, Put32, Offset, Ordered, Kids, At, TokAt,
      Words, TokWords, NextSubnode, FirstSubnode, FirstNode, RunCtx, RunTail, Inside, AdjustTree, AdjustTrees, Prepend,
        Flat, Aligned, NodeStart, Revised;
    var s, st := fdt.Blocks();
    ghost var ts := Kids(n.kids, st);
    ghost var d, f, done: seq<Tree> := Hole, n.kids, [];
    NodeAt(s, c, n);
    FirstSubnodeIs(s, node, n);
    FlatHole(n, st);
    PrependNone(ts, delta);
    RevisedSame(n, st, PhandleNames());
    var child := FirstSubnode(s, node);
    n2 := n;
    while child >= 0
      invariant fdt.Valid() && fdt.Encodes(c, n2) && fdt.h == old(fdt.h)
        && Rsv(fdt.h, fdt.mem.bytes) == old(Rsv(fdt.h, fdt.mem.bytes))
      invariant Strings(fdt.h, fdt.mem.bytes) == st && n2 == WithKids(n, Plug(d, f))
        && Revised(n, n2, st, PhandleNames())
      invariant Flat(d) && OkC(d) && Ok(f) && child == FirstNode(f, node + TokSize(Head(n)) + Offset(d))
      invariant Props(n2.kids, st) == Props(n.kids, st) && Kids(Plug(d, Empty), st) == done
      invariant |done| <= |ts| && ts[|done|..] == Kids(f, st)
      invariant Prepend(done, AdjustTrees(Kids(f, st), delta)) == AdjustTrees(ts, delta)
      decreases |ts| - |done|
    {
      FlatRun(f, node + TokSize(Head(n)) + Offset(d), st);
      ghost var t := TreeOf(RunTail(f), st);
      RunKids(f, st);
      assert ts[|done|] == t;
      ghost var d2, f2;
      err, d2, f2 := AdjustSibling(fdt, child, delta, c, n, d, f);
      PrependMore(done, t, Kids(f2, st), delta);
      assert Kids(f2, st) == ts[|done| + 1..];
      RevisedSiblings(n, Plug(d, f), Plug(d2, f2), st);
      d, f := d2, f2;
      n2 := WithKids(n, Plug(d, f));
      if err != 0 { return; }
      done := done + [AdjustTree(t, delta).value];
      var now, _ := fdt.Blocks();
      child := NextSubnodeLoop(now, child);
    }
    FlatRun(f, node + TokSize(Head(n)) + Offset(d), st);
    FlatReads(d, f, st);
    NoKids(f, st);
    err := 0;
  }

  lemma {:induction false} RevisedSiblings(n: Forest, f: Forest, g: Forest, st: seq<u8>)
    requires n.Node? && Revised(n, WithKids(n, f), st, PhandleNames()) && Revised(f, g, st, PhandleNames())
    ensures Revised(n, WithKids(n, g), st, PhandleNames())
  {
    hide Revised, PhandleNames;
    RevisedKids(n, WithKids(n, f), st, PhandleNames());
    RevisedTrans(n.kids, f, g, st, PhandleNames(), PhandleNames(), PhandleNames());
    RevisedWith(n, g, st, PhandleNames());
  }

  lemma {:induction false} RunKids(f: Forest, st: seq<u8>)
    requires RunTail(f).Node?
    ensures Kids(f, st) != [] && Kids(f, st)[0] == TreeOf(RunTail(f), st)
  {
    if f.Prop? || f.Nop? { RunKids(f.rest, st); }
  }

  /** overlay_adjust_node_phandles: every phandle at or below the node moves by `delta`; nothing else changes. */
  method AdjustNode(fdt: Rw.Fdt, node: nat, delta: u32, ghost c: Ctx, ghost n: Forest)
    returns (err: int, ghost n2: Forest)
    requires fdt.Valid() && fdt.Encodes(c, n) && node == Offset(c)
    modifies fdt, fdt.mem, fdt.mem.data
    ensures fdt.Valid() && fdt.Encodes(c, n2) && fdt.h == old(fdt.h)
      && Rsv(fdt.h, fdt.mem.bytes) == old(Rsv(fdt.h, fdt.mem.bytes))
    ensures Strings(fdt.h, fdt.mem.bytes) == old(Strings(fdt.h, fdt.mem.bytes)) && n2.rest == n.rest
    ensures var st := old(Strings(fdt.h, fdt.mem.bytes));
      match AdjustTree(TreeOf(n, st), delta)
      case Failed(e) => err == e < 0
      case Done(u) => err == 0 && TreeOf(n2, st) == u
    ensures err == 0 <==> AllShiftable(TreeOf(n, old(Strings(fdt.h, fdt.mem.bytes))), delta)
    ensures forall path, k :: FirstStays(TreeOf(n, old(Strings(fdt.h, fdt.mem.bytes))), delta, path, k) ==>
      err == StaysErr(Sub(TreeOf(n, old(Strings(fdt.h, fdt.mem.bytes))), path).value.props[k])
    ensures Revised(n, n2, old(Strings(fdt.h, fdt.mem.bytes)), PhandleNames())
    decreases TreeOf(n, Strings(fdt.h, fdt.mem.bytes)), 0
  {
    hide Struct, Strings, Rsv, Props, Plug, Holds, Str, Check.Named, Offset, Ordered, Kids, AdjustProp, AdjustTrees,
      Revised, AllShiftable, FirstStays, Sub;
    AdjustIff(TreeOf(n, Strings(fdt.h, fdt.mem.bytes)), delta);
    err, n2 := AdjustHere(fdt, node, delta, c, n);
    if err != 0 { return; }
    ghost var n1 := n2;
    err, n2 := AdjustKids(fdt, node, delta, c, n2);
    RevisedTrans(n, n1, n2, Strings(fdt.h, fdt.mem.bytes), PhandleNames(), PhandleNames(), PhandleNames());
  }

  lemma {:induction false} NoKids(f: Forest, st: seq<u8>)
    requires !RunTail(f).Node?
    ensures Kids(f, st) == []
  {
    if f.Prop? || f.Nop? { NoKids(f.rest, st); }
  }

  lemma {:induction false} FlatHole(n: Forest, st: seq<u8>)
    requires n.Node? && Ok(n)
    ensures Flat(Hole) && OkC(Hole) && Plug(Hole, n.kids) == n.kids && Offset(Hole) == 0 && WithKids(n, n.kids) == n
    ensures Kids(Plug(Hole, Empty), st) == [] && Kids(Empty, st) == []
  {
  }
}
