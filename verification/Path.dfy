/** Paths: fdt_path_offset, fdt_get_path and the searches for a node's ancestors. */
module Path {
  import opened Bytes
  import opened Structure
  import opened Zipper
  import opened Walk
  import opened Lookup
  import opened Edit
  import opened Memory

  // ---------- fdt_path_offset ----------

  /** The loop of fdt_path_offset_namelen on what is left of the path. */
  function LookupPath(s: seq<u8>, p: seq<u8>, off: int): int
    decreases |p|
  {
    var q := SkipSlashes(p);
    if q == [] then off
    else
      var o := SubnodeOffset(s, off, q[..Find(q, SLASH)]);
      if o < 0 then o else LookupPath(s, q[Find(q, SLASH)..], o)
  }

  method NextName(path: seq<u8>, start: nat) returns (p: nat)
    requires start <= |path|
    ensures start <= p <= |path| && path[p..] == SkipSlashes(path[start..])
  {
    p := start;
    while p < |path| && path[p] == SLASH
      invariant start <= p <= |path| && SkipSlashes(path[p..]) == SkipSlashes(path[start..])
    {
      assert path[p..][1..] == path[p + 1..];
      p := p + 1;
    }
  }

  /** memchr for the slash that ends a component. */
  method NameEnd(path: seq<u8>, p: nat) returns (q: nat)
    requires p <= |path|
    ensures q == p + Find(path[p..], SLASH)
  {
    q := p;
    while q < |path| && path[q] != SLASH
      invariant p <= q <= |path| && Find(path[p..], SLASH) == q - p + Find(path[q..], SLASH)
    {
      assert path[q..][1..] == path[q + 1..];
      q := q + 1;
    }
  }

  lemma {:induction false} LookupStep(s: seq<u8>, path: seq<u8>, p: nat, w: nat, off: int)
    requires p <= w <= |path| && path[w..] == SkipSlashes(path[p..])
    ensures w == |path| ==> LookupPath(s, path[p..], off) == off
    ensures w < |path| ==>
      var q := w + Find(path[w..], SLASH); var o := SubnodeOffset(s, off, path[w..q]);
      q > w && LookupPath(s, path[p..], off) == if o < 0 then o else LookupPath(s, path[q..], o)
  {
    hide SubnodeOffset;
    var r := path[w..];
    if w < |path| {
      assert r[..Find(r, SLASH)] == path[w..w + Find(r, SLASH)] && r[Find(r, SLASH)..] == path[w + Find(r, SLASH)..];
    }
  }

  /** fdt_path_offset_namelen for a path that is not an alias. */
  method PathOffset(s: seq<u8>, path: seq<u8>) returns (offset: int)
    requires path != [] && path[0] == SLASH
    ensures offset == LookupPath(s, path, 0)
  {
    hide SubnodeOffset, LookupPath, SkipSlashes;
    offset := 0;
    var p := 0;
    assert path[0..] == path;
    while p < |path|
      invariant 0 <= p <= |path| && LookupPath(s, path[p..], offset) == LookupPath(s, path, 0)
    {
      var w := NextName(path, p);
      LookupStep(s, path, p, w, offset);
      if w == |path| { return; }
      var q := NameEnd(path, w);
      offset := SubnodeLoop(s, offset, path[w..q]);
      if offset < 0 { return; }
      p := q;
    }
    LookupEnd(s, path[p..], offset);
  }

  lemma {:induction false} LookupEnd(s: seq<u8>, p: seq<u8>, off: int)
    requires p == []
    ensures LookupPath(s, p, off) == off
  {
  }

  /** Going down by names. */
  function Descend(s: seq<u8>, off: int, names: seq<seq<u8>>): int
    decreases |names|
  {
    if names == [] then off
    else
      var o := SubnodeOffset(s, off, names[0]);
      if o < 0 then o else Descend(s, o, names[1..])
  }

  function Slashed(names: seq<seq<u8>>): seq<u8> {
    if names == [] then [] else [SLASH] + names[0] + Slashed(names[1..])
  }

  /** Names that can be told apart in a path. */
  predicate Plain(names: seq<seq<u8>>) {
    forall i :: 0 <= i < |names| ==> names[i] != [] && SLASH !in names[i]
  }

  /** A path made of plain names is looked up name by name. */
  lemma {:induction false} LookupSlashed(s: seq<u8>, names: seq<seq<u8>>, off: int)
    requires Plain(names)
    ensures LookupPath(s, Slashed(names), off) == Descend(s, off, names)
    decreases |names|
  {
    hide SubnodeOffset;
    if names != [] {
      var p, a, b := Slashed(names), names[0], Slashed(names[1..]);
      assert p[1..] == a + b && (a + b)[0] == a[0];
      assert SkipSlashes(p) == SkipSlashes(a + b) == a + b;
      FindIs(a, b, SLASH);
      assert (a + b)[..|a|] == a && (a + b)[|a|..] == b;
      var o := SubnodeOffset(s, off, a);
      if o >= 0 { LookupSlashed(s, names[1..], o); }
    }
  }

  // ---------- The path of a node ----------

  /** The names from the top of a list down to a node `n` in the hole. */
  ghost function Steps(c: Ctx, n: Forest): (r: seq<seq<u8>>)
    requires n.Node?
    ensures |r| > 0
  {
    match c
    case Hole => [n.name]
    case Into(name, _, d, _) => [name] + Steps(d, n)
    case _ => Steps(c.c, n)
  }

  /** No node before the hole, on any level, would be found under the name looked up there. */
  ghost predicate Unshadowed(c: Ctx, n: Forest)
    requires n.Node?
  {
    match c
    case Hole => true
    case PastNode(name, _, _, d) => !NameEq(name, Steps(d, n)[0]) && Unshadowed(d, n)
    case Into(_, _, d, _) => Unshadowed(d, n)
    case _ => Unshadowed(c.c, n)
  }

  /** Going down from a node never leaves it. */
  lemma {:induction false} DescendInside(s: seq<u8>, off: nat, m: Forest, names: seq<seq<u8>>)
    requires At(s, off, m) && m.Node?
    ensures var r := Descend(s, off, names); r < 0 || off <= r < off + NodeSize(m)
    decreases |names|
  {
    hide TokWords, Words, At, TokAt, SubnodeOffset, FindChild, Ok, Offset, ChildCtx, ChildFocus, Plug, NameEq;
    AtIff(s, off, m);
    if names != [] {
      var i, x := off + TokSize(Head(m)), names[0];
      SubnodeFinds(s, off, m, x);
      ChildPlace(m.kids, i, x);
      var c, g := ChildCtx(m.kids, x), ChildFocus(m.kids, x);
      if g.Node? {
        AtPlug(s, i, c, g);
        SizePlug(c, g);
        AtIff(s, i + Offset(c), g);
        DescendInside(s, i + Offset(c), g, names[1..]);
      }
    }
  }

  /** What lookup makes of the names of the node in the hole, starting with the first match in its list. */
  ghost function Found(s: seq<u8>, i: int, c: Ctx, n: Forest): int
    requires n.Node? && Ok(Plug(c, n))
  {
    match FindChild(Plug(c, n), i, Steps(c, n)[0]) case Some(o) => Descend(s, o, Steps(c, n)[1..]) case None => NOTFOUND
  }

  lemma {:induction false} FoundIff(s: seq<u8>, i: nat, c: Ctx, n: Forest)
    requires n.Node? && OkC(c) && Ok(n) && At(s, i, Plug(c, n))
    ensures Ok(Plug(c, n)) && (Found(s, i, c, n) == i + Offset(c) <==> Unshadowed(c, n))
    decreases c, 0
  {
    hide TokWords, Words, At, TokAt, SubnodeOffset, Descend, Ok, NameEq;
    PlugStep(c, n);
    AtIff(s, i, Plug(c, n));
    match c {
      case Hole =>
        SelfMatch(n.name);
        DescendNone(s, i, Steps(c, n)[1..]);
      case PastProp(_, _, _, d) => FoundIff(s, i + TokSize(HeadC(c)), d, n);
      case PastNop(d) => FoundIff(s, i + TokSize(HeadC(c)), d, n);
      case PastNode(_, _, _, d) =>
        DescendInside(s, i, Plug(c, n), Steps(c, n)[1..]);
        FoundIff(s, i + NodeSize(Plug(c, n)), d, n);
      case Into(name, _, d, _) =>
        SelfMatch(name);
        assert Steps(c, n)[1..] == Steps(d, n);
        DescendFinds(s, i, Plug(c, n), d, n);
    }
  }

  lemma {:induction false} SelfMatch(name: seq<u8>)
    ensures NameEq(name, name)
  {
  }

  lemma {:induction false} DescendNone(s: seq<u8>, i: int, names: seq<seq<u8>>)
    requires names == []
    ensures Descend(s, i, names) == i
  {
  }

  /** Below a node, names lead to the node in the hole exactly when they are clear. */
  lemma {:induction false} DescendFinds(s: seq<u8>, off: nat, m: Forest, d: Ctx, n: Forest)
    requires At(s, off, m) && m.Node? && n.Node? && OkC(d) && Ok(n) && m.kids == Plug(d, n)
    ensures Descend(s, off, Steps(d, n)) == off + TokSize(Head(m)) + Offset(d) <==> Unshadowed(d, n)
    decreases d, 1
  {
    hide TokWords, Words, At, TokAt, SubnodeOffset, Ok, Steps, Unshadowed, Offset, FindChild;
    var i := off + TokSize(Head(m));
    AtIff(s, off, m);
    SubnodeFinds(s, off, m, Steps(d, n)[0]);
    FoundIff(s, i, d, n);
    FindNat(m.kids, i, Steps(d, n)[0]);
  }

  lemma {:induction false} FindNat(f: Forest, off: nat, name: seq<u8>)
    requires Ok(f)
    ensures FindChild(f, off, name).Some? ==> FindChild(f, off, name).value >= 0
    decreases f
  {
    hide NameEq, TokWords;
    match f {
      case Empty =>
      case Node(_, _, _, rest) => FindNat(rest, off + NodeSize(f), name);
      case Prop(_, _, _, rest) => FindNat(rest, off + TokSize(Head(f)), name);
      case Nop(rest) => FindNat(rest, off + TokSize(Head(f)), name);
    }
  }

  // ---------- fdt_get_path ----------

  /** Components, each followed by a slash, as they stand in the buffer. */
  function Join(ns: seq<seq<u8>>): seq<u8>
    decreases |ns|
  {
    if ns == [] then [] else Join(ns[..|ns| - 1]) + (ns[|ns| - 1] + [SLASH])
  }

  function Pop(ns: seq<seq<u8>>, d: int): seq<seq<u8>> {
    if 0 <= d < |ns| then ns[..d] else ns
  }

  /** One turn of the loop: components too deep are popped and the new one is pushed if it fits below its parent. */
  function PathStep(ns: seq<seq<u8>>, depth: int, name: seq<u8>, len: int): seq<seq<u8>> {
    var k := Pop(ns, depth);
    if |k| >= depth && |Join(k)| + |name| + 1 <= len then k + [name] else k
  }

  datatype Got = Failed(err: int) | Names(names: seq<seq<u8>>)

  function NodeName(s: seq<u8>, off: int): seq<u8> {
    if NodeStart(s, off) >= 0 then NameAt(s, off) else []
  }

  function PathRun(s: seq<u8>, vs: seq<Visit>, ns: seq<seq<u8>>, node: int, len: int): Got
    decreases |vs|
  {
    if vs == [] || vs[0].off > node then Failed(BADOFFSET)
    else
      var k := PathStep(ns, vs[0].depth, NodeName(s, vs[0].off), len);
      if vs[0].off < node then PathRun(s, vs[1..], k, node, len)
      else if |k| < vs[0].depth + 1 then Failed(NOSPACE)
      else Names(k)
  }

  /** The longest leading part of the components that fits. */
  function Fit(ns: seq<seq<u8>>, len: int): (k: seq<seq<u8>>)
    ensures |k| <= |ns| && k == ns[..|k|]
    decreases |ns|
  {
    if ns == [] then []
    else
      var k := Fit(ns[..|ns| - 1], len);
      if |k| == |ns| - 1 && |Join(ns)| <= len then ns else k
  }

  lemma {:induction false} FitAll(ns: seq<seq<u8>>, len: int)
    requires len >= 0
    ensures |Fit(ns, len)| == |ns| <==> |Join(ns)| <= len
    decreases |ns|
  {
    if ns != [] { FitAll(ns[..|ns| - 1], len); }
  }

  lemma {:induction false} StepFit(ns: seq<seq<u8>>, above: seq<seq<u8>>, name: seq<u8>, len: int)
    requires Pop(ns, |above|) == Fit(above, len)
    ensures PathStep(ns, |above|, name, len) == Fit(above + [name], len)
  {
    assert (above + [name])[..|above|] == above;
    assert Join(above + [name]) == Join(above) + (name + [SLASH]);
  }

  lemma {:induction false} StepKeeps(ns: seq<seq<u8>>, d: nat, e: nat, name: seq<u8>, len: int)
    requires d <= e
    ensures Pop(PathStep(ns, e, name, len), d) == Pop(ns, d)
  {
    hide Join;
  }

  /** What the loop leaves in the buffer after some nodes. */
  function Walked(s: seq<u8>, vs: seq<Visit>, ns: seq<seq<u8>>, len: int): seq<seq<u8>>
    decreases |vs|
  {
    if vs == [] then ns else Walked(s, vs[1..], PathStep(ns, vs[0].depth, NodeName(s, vs[0].off), len), len)
  }

  ghost predicate AllBefore(vs: seq<Visit>, node: int) {
    forall i :: 0 <= i < |vs| ==> vs[i].off < node
  }

  lemma {:induction false} RunPast(s: seq<u8>, a: seq<Visit>, b: seq<Visit>, ns: seq<seq<u8>>, node: int, len: int)
    requires AllBefore(a, node)
    ensures PathRun(s, a + b, ns, node, len) == PathRun(s, b, Walked(s, a, ns, len), node, len)
    decreases |a|
  {
    hide PathStep, NodeName;
    if a == [] {
      assert a + b == b;
    } else {
      assert (a + b)[1..] == a[1..] + b;
      RunPast(s, a[1..], b, PathStep(ns, a[0].depth, NodeName(s, a[0].off), len), node, len);
    }
  }

  lemma {:induction false} WalkedKeeps(s: seq<u8>, vs: seq<Visit>, ns: seq<seq<u8>>, d: nat, len: int)
    requires Deeper(vs, d - 1)
    ensures Pop(Walked(s, vs, ns, len), d) == Pop(ns, d)
    decreases |vs|
  {
    hide PathStep, NodeName, Pop;
    if vs != [] {
      StepKeeps(ns, d, vs[0].depth, NodeName(s, vs[0].off), len);
      WalkedKeeps(s, vs[1..], PathStep(ns, vs[0].depth, NodeName(s, vs[0].off), len), d, len);
    }
  }

  lemma {:induction false} PreorderBefore(f: Forest, off: int, d: int, node: int)
    requires Ok(f) && off + Size(f) <= node
    ensures AllBefore(Preorder(f, off, d), node)
    decreases f
  {
    hide TokWords;
    match f {
      case Empty =>
      case Node(_, _, kids, rest) =>
        PreorderBefore(kids, off + TokSize(Head(f)), d + 1, node);
        PreorderBefore(rest, off + NodeSize(f), d, node);
      case Prop(_, _, _, rest) => PreorderBefore(rest, off + TokSize(Head(f)), d, node);
      case Nop(rest) => PreorderBefore(rest, off + TokSize(Head(f)), d, node);
    }
  }

  lemma {:induction false} NodeNameIs(s: seq<u8>, off: nat, f: Forest)
    requires At(s, off, f) && f.Node?
    ensures NodeName(s, off) == f.name
  {
    hide At, TokAt, NodeStart, NameAt, TokWords, NextTag;
    AtIff(s, off, f);
    NodeNamedAt(s, off, Head(f), []);
  }

  /** One unfolding of Preorder along a context. */
  lemma {:induction false} PreorderStep(c: Ctx, n: Forest, off: int, d: int)
    requires OkC(c) && Ok(n) && !c.Hole?
    ensures OkC(c.c) && Ok(Plug(c, n)) && Ok(Plug(c.c, n))
    ensures c.PastProp? || c.PastNop? ==>
      Preorder(Plug(c, n), off, d) == Preorder(Plug(c.c, n), off + TokSize(HeadC(c)), d)
    ensures c.PastNode? ==>
      && Ok(c.kids) && Plug(c, n).Node? && off + NodeSize(Plug(c, n)) <= off + Offset(c)
      && Preorder(Plug(c, n), off, d) ==
         ([Visit(off, d)] + Preorder(c.kids, off + TokSize(HeadC(c)), d + 1))
           + Preorder(Plug(c.c, n), off + NodeSize(Plug(c, n)), d)
    ensures c.Into? ==>
      && Ok(c.rest) && Plug(c, n).Node? && off < off + Offset(c)
      && Preorder(Plug(c, n), off, d) ==
         [Visit(off, d)] +
           (Preorder(Plug(c.c, n), off + TokSize(HeadC(c)), d + 1) + Preorder(c.rest, off + NodeSize(Plug(c, n)), d))
  {
    hide TokWords, Words;
    PlugStep(c, n);
    PlugStep(c.c, n);
  }

  /** The loop from the start of a list up to the node in the hole. */
  lemma {:induction false} RunTo(s: seq<u8>, off: nat, c: Ctx, n: Forest, above: seq<seq<u8>>, ns: seq<seq<u8>>,
                                 more: seq<Visit>, len: int)
    requires n.Node? && OkC(c) && Ok(n) && At(s, off, Plug(c, n)) && Pop(ns, |above|) == Fit(above, len) && len >= 0
    ensures Ok(Plug(c, n))
    ensures PathRun(s, Preorder(Plug(c, n), off, |above|) + more, ns, off + Offset(c), len) ==
            if |Join(above + Steps(c, n))| <= len then Names(above + Steps(c, n)) else Failed(NOSPACE)
    decreases c
  {
    hide TokWords, Words, At, TokAt, Ok, Fit, PathStep, NodeName, Join, Pop, Preorder, PathRun;
    PlugStep(c, n);
    AtIff(s, off, Plug(c, n));
    if c.Hole? {
      RunHere(s, off, n, above, ns, more, len);
    } else {
      PreorderStep(c, n, off, |above|);
      match c {
        case PastProp(_, _, _, d) => RunTo(s, off + TokSize(HeadC(c)), d, n, above, ns, more, len);
        case PastNop(d) => RunTo(s, off + TokSize(HeadC(c)), d, n, above, ns, more, len);
        case PastNode(_, _, _, _) => RunPastNode(s, off, c, n, above, ns, more, len);
        case Into(_, _, _, _) => RunIntoNode(s, off, c, n, above, ns, more, len);
      }
    }
  }

  lemma {:induction false} RunPastNode(s: seq<u8>, off: nat, c: Ctx, n: Forest, above: seq<seq<u8>>, ns: seq<seq<u8>>,
                                       more: seq<Visit>, len: int)
    requires n.Node? && OkC(c) && Ok(n) && At(s, off, Plug(c, n)) && Pop(ns, |above|) == Fit(above, len) && len >= 0
      && c.PastNode?
    ensures Ok(Plug(c, n))
    ensures PathRun(s, Preorder(Plug(c, n), off, |above|) + more, ns, off + Offset(c), len) ==
            if |Join(above + Steps(c, n))| <= len then Names(above + Steps(c, n)) else Failed(NOSPACE)
    decreases c, 0
  {
    hide TokWords, Words, At, TokAt, Ok, Fit, PathStep, NodeName, Join, Pop, Preorder, PathRun, Walked;
    PlugStep(c, n);
    AtIff(s, off, Plug(c, n));
    PreorderStep(c, n, off, |above|);
    var i, k := off + TokSize(HeadC(c)), off + NodeSize(Plug(c, n));
    var a, y := [Visit(off, |above|)] + Preorder(c.kids, i, |above| + 1), Preorder(Plug(c.c, n), k, |above|);
    assert (a + y) + more == a + (y + more);
    RunOver(s, off, Plug(c, n), above, ns, y + more, off + Offset(c), len);
    RunTo(s, k, c.c, n, above, Walked(s, a, ns, len), more, len);
  }

  lemma {:induction false} RunIntoNode(s: seq<u8>, off: nat, c: Ctx, n: Forest, above: seq<seq<u8>>, ns: seq<seq<u8>>,
                                       more: seq<Visit>, len: int)
    requires n.Node? && OkC(c) && Ok(n) && At(s, off, Plug(c, n)) && Pop(ns, |above|) == Fit(above, len) && len >= 0
      && c.Into?
    ensures Ok(Plug(c, n))
    ensures PathRun(s, Preorder(Plug(c, n), off, |above|) + more, ns, off + Offset(c), len) ==
            if |Join(above + Steps(c, n))| <= len then Names(above + Steps(c, n)) else Failed(NOSPACE)
    decreases c, 0
  {
    hide TokWords, Words, At, TokAt, Ok, Fit, PathStep, NodeName, Join, Pop, Preorder, PathRun;
    PlugStep(c, n);
    AtIff(s, off, Plug(c, n));
    PreorderStep(c, n, off, |above|);
    RunInto(s, off, Plug(c, n), above, ns, more, off + Offset(c), len);
    assert above + Steps(c, n) == (above + [c.name]) + Steps(c.c, n);
    var q := Preorder(c.rest, off + NodeSize(Plug(c, n)), |above|);
    FitShort(above + [c.name], len);
    RunTo(s, off + TokSize(HeadC(c)), c.c, n, above + [c.name], Fit(above + [c.name], len), q + more, len);
  }

  lemma {:induction false} FitShort(ns: seq<seq<u8>>, len: int)
    ensures Pop(Fit(ns, len), |ns|) == Fit(ns, len)
  {
  }

  lemma {:induction false} RunHere(s: seq<u8>, off: nat, n: Forest, above: seq<seq<u8>>, ns: seq<seq<u8>>,
                                   more: seq<Visit>, len: int)
    requires n.Node? && Ok(n) && At(s, off, n) && Pop(ns, |above|) == Fit(above, len) && len >= 0
    ensures PathRun(s, Preorder(n, off, |above|) + more, ns, off, len) ==
            if |Join(above + [n.name])| <= len then Names(above + [n.name]) else Failed(NOSPACE)
  {
    hide TokWords, Words, At, Ok, Fit, PathStep, NodeName, Join, Pop;
    var vs := Preorder(n, off, |above|) + more;
    assert vs[0] == Visit(off, |above|);
    NodeNameIs(s, off, n);
    StepFit(ns, above, n.name, len);
    FitAll(above + [n.name], len);
    FitIs(above + [n.name], len);
  }

  lemma {:induction false} FitIs(ns: seq<seq<u8>>, len: int)
    ensures |Fit(ns, len)| <= |ns| && (|Fit(ns, len)| == |ns| ==> Fit(ns, len) == ns)
  {
    hide Join;
  }

  /** A sibling subtree on the way leaves what is above it in place. */
  lemma {:induction false} RunOver(s: seq<u8>, off: nat, m: Forest, above: seq<seq<u8>>, ns: seq<seq<u8>>,
                                   more: seq<Visit>, node: int, len: int)
    requires m.Node? && Ok(m) && off + NodeSize(m) <= node
    ensures var a := [Visit(off, |above|)] + Preorder(m.kids, off + TokSize(Head(m)), |above| + 1);
      && PathRun(s, a + more, ns, node, len) == PathRun(s, more, Walked(s, a, ns, len), node, len)
      && Pop(Walked(s, a, ns, len), |above|) == Pop(ns, |above|)
  {
    hide TokWords, Words, PathStep, NodeName, Walked, PathRun, Pop;
    var i := off + TokSize(Head(m));
    var b := Preorder(m.kids, i, |above| + 1);
    PreorderBefore(m.kids, i, |above| + 1, node);
    PreorderDeep(m.kids, i, |above| + 1);
    var a := [Visit(off, |above|)] + b;
    RunPast(s, a, more, ns, node, len);
    WalkedKeeps(s, a, ns, |above|, len);
  }

  lemma {:induction false} RunInto(s: seq<u8>, off: nat, m: Forest, above: seq<seq<u8>>, ns: seq<seq<u8>>,
                                   more: seq<Visit>, node: int, len: int)
    requires m.Node? && Ok(m) && At(s, off, m) && off < node && Pop(ns, |above|) == Fit(above, len)
    ensures PathRun(s, Preorder(m, off, |above|) + more, ns, node, len) ==
            var x := Preorder(m.kids, off + TokSize(Head(m)), |above| + 1);
            var y := Preorder(m.rest, off + NodeSize(m), |above|);
            PathRun(s, x + (y + more), Fit(above + [m.name], len), node, len)
  {
    hide TokWords, Words, At, Ok, Fit, PathStep, NodeName, Join, Pop;
    AtIff(s, off, m);
    var k, r := Preorder(m.kids, off + TokSize(Head(m)), |above| + 1), Preorder(m.rest, off + NodeSize(m), |above|);
    var vs := Preorder(m, off, |above|) + more;
    assert vs[0] == Visit(off, |above|) && vs[1..] == k + (r + more);
    NodeNameIs(s, off, m);
    StepFit(ns, above, m.name, len);
  }

  /** The path of the node in the hole of a context whose top is the root. */
  ghost function PathOf(c: Ctx, n: Forest): seq<u8>
    requires n.Node?
  {
    if |Steps(c, n)| == 1 then [SLASH] else Slashed(Steps(c, n)[1..])
  }

  /** The nodes that the loop of fdt_get_path goes through. */
  function Tour(s: seq<u8>): seq<Visit> {
    [Visit(0, 0)] + Onward(s, 0, 0)
  }

  /** The nodes that come after the one at `off`, and the stop after them. */
  function Onward(s: seq<u8>, off: int, depth: int): seq<Visit> {
    if NodeStart(s, off) >= 0 then Visits(s, NodeStart(s, off), depth, true) else []
  }

  function Halt(s: seq<u8>, off: int, depth: int): Visit {
    if NodeStart(s, off) >= 0 then LastHop(s, NodeStart(s, off), depth, true) else Visit(NodeStart(s, off), depth)
  }

  lemma {:induction false} TourIs(s: seq<u8>, f: Forest)
    requires At(s, 0, f) && f.Node?
    ensures Tour(s) + Preorder(f.rest, NodeSize(f), 0) == Preorder(f, 0, 0)
  {
    hide At, TokAt, TokWords, Words, Visits, LastHop, NodeStart;
    AtIff(s, 0, f);
    VisitsNode(s, 0, f);
    assert 0 + TokSize(Head(f)) == TokSize(Head(f)) && 0 + NodeSize(f) == NodeSize(f);
  }

  lemma {:induction false} RunStops(s: seq<u8>, a: seq<Visit>, b: seq<Visit>, ns: seq<seq<u8>>, node: int, len: int)
    requires forall i :: 0 <= i < |b| ==> b[i].off > node
    ensures PathRun(s, a + b, ns, node, len) == PathRun(s, a, ns, node, len)
    decreases |a|
  {
    hide PathStep, NodeName;
    if a == [] {
      assert a + b == b;
    } else {
      assert (a + b)[1..] == a[1..] + b;
      RunStops(s, a[1..], b, PathStep(ns, a[0].depth, NodeName(s, a[0].off), len), node, len);
    }
  }

  lemma {:induction false} PreorderAfter(f: Forest, off: int, d: int)
    requires Ok(f)
    ensures forall i :: 0 <= i < |Preorder(f, off, d)| ==> Preorder(f, off, d)[i].off >= off
    decreases f
  {
    hide TokWords;
    match f {
      case Empty =>
      case Node(_, _, kids, rest) =>
        PreorderAfter(kids, off + TokSize(Head(f)), d + 1);
        PreorderAfter(rest, off + NodeSize(f), d);
      case Prop(_, _, _, rest) => PreorderAfter(rest, off + TokSize(Head(f)), d);
      case Nop(rest) => PreorderAfter(rest, off + TokSize(Head(f)), d);
    }
  }

  /** fdt_get_path finds the components of a node's path, or NOSPACE exactly when they do not fit. */
  lemma {:induction false} GetPathRuns(s: seq<u8>, f: Forest, c: Ctx, n: Forest, len: int)
    requires Holds(s, f) && f.Node? && n.Node? && OkC(c) && Ok(n) && f == Plug(c, n) && Offset(c) < NodeSize(f)
      && len >= 0
    ensures PathRun(s, Tour(s), [], Offset(c), len) == if |Join(Steps(c, n))| <= len then Names(Steps(c, n))
      else Failed(NOSPACE)
  {
    hide At, TokAt, TokWords, Words, Tour, PathRun, Steps, Join, Be32, Offset;
    var more := Preorder(f.rest, NodeSize(f), 0);
    TourIs(s, f);
    PreorderAfter(f.rest, NodeSize(f), 0);
    RunStops(s, Tour(s), more, [], Offset(c), len);
    assert [] + Steps(c, n) == Steps(c, n) && Preorder(f, 0, 0) + [] == Preorder(f, 0, 0);
    RunTo(s, 0, c, n, [], [], [], len);
  }

  lemma {:induction false} JoinConcat(a: seq<seq<u8>>, b: seq<seq<u8>>)
    ensures Join(a + b) == Join(a) + Join(b)
    decreases |b|
  {
    if b == [] {
      assert a + b == a && Join(a) + [] == Join(a);
    } else {
      var k := |b| - 1;
      assert (a + b)[..|a + b| - 1] == a + b[..k];
      JoinConcat(a, b[..k]);
      assert Join(a) + Join(b[..k]) + (b[k] + [SLASH]) == Join(a) + (Join(b[..k]) + (b[k] + [SLASH]));
    }
  }

  lemma {:induction false} JoinSlashed(names: seq<seq<u8>>)
    ensures [SLASH] + Join(names) == Slashed(names) + [SLASH]
    decreases |names|
  {
    if names != [] {
      var a, r := names[0], names[1..];
      JoinSlashed(r);
      JoinConcat([a], r);
      assert [a] + r == names;
      JoinOne(a);
      assert [SLASH] + ((a + [SLASH]) + Join(r)) == [SLASH] + a + ([SLASH] + Join(r));
      assert [SLASH] + a + (Slashed(r) + [SLASH]) == ([SLASH] + a + Slashed(r)) + [SLASH];
    }
  }

  lemma {:induction false} JoinOne(a: seq<u8>)
    ensures Join([a]) == a + [SLASH]
  {
    assert [a][..0] == [] && Join([]) == [];
    assert [] + (a + [SLASH]) == a + [SLASH];
  }

  /** The components in the buffer are the path and one more slash, except for the root. */
  lemma {:induction false} JoinPath(c: Ctx, n: Forest)
    requires n.Node? && Steps(c, n)[0] == []
    ensures var j := Join(Steps(c, n)); |j| >= 1 && PathOf(c, n) == if |j| > 1 then j[..|j| - 1] else j
    ensures |Steps(c, n)| == 1 <==> |Join(Steps(c, n))| == 1
  {
    hide Steps;
    var ns := Steps(c, n);
    var r := ns[1..];
    assert ns == [ns[0]] + r;
    JoinOne(ns[0]);
    JoinConcat([ns[0]], r);
    JoinSlashed(r);
    var j := Join(ns);
    assert j == [SLASH] + Join(r) == Slashed(r) + [SLASH];
    assert j[..|j| - 1] == Slashed(r);
  }

  /** fdt_path_offset(fdt_get_path(n)) is n if and only if no earlier sibling on the way would be found instead. */
  lemma {:induction false} PathRoundTrip(s: seq<u8>, f: Forest, c: Ctx, n: Forest)
    requires Holds(s, f) && f.Node? && n.Node? && OkC(c) && Ok(n) && f == Plug(c, n) && (c.Hole? || c.Into?)
    requires Plain(Steps(c, n)[1..])
    ensures LookupPath(s, PathOf(c, n), 0) == Offset(c) <==> Unshadowed(c, n)
  {
    hide At, TokAt, TokWords, Words, SubnodeOffset, Be32, LookupPath, Descend;
    PlugStep(c, n);
    if c.Hole? {
      LookupRoot(s, PathOf(c, n));
    } else {
      assert Steps(c, n)[1..] == Steps(c.c, n);
      LookupSlashed(s, Steps(c.c, n), 0);
      DescendFinds(s, 0, f, c.c, n);
    }
  }

  lemma {:induction false} LookupRoot(s: seq<u8>, p: seq<u8>)
    requires p == [SLASH]
    ensures LookupPath(s, p, 0) == 0
  {
    assert p[1..] == [];
  }

  // ---------- The buffer of fdt_get_path ----------

  ghost predicate SlashFree(ns: seq<seq<u8>>) {
    forall i :: 0 <= i < |ns| ==> SLASH !in ns[i]
  }

  /** The first `p` bytes of the buffer are the components and their slashes. */
  ghost predicate Holding(b: seq<u8>, p: int, ns: seq<seq<u8>>) {
    p == |Join(ns)| <= |b| && b[0..p] == Join(ns)
  }

  /** Where the last component starts: behind a slash, or at the start of the buffer. */
  lemma {:induction false} LastPart(b: seq<u8>, p: int, ns: seq<seq<u8>>)
    requires Holding(b, p, ns) && ns != [] && SlashFree(ns)
    ensures var k := ns[..|ns| - 1]; var q := |Join(k)|;
      && 0 <= q < p && Holding(b, q, k) && (forall i :: q <= i < p - 1 ==> b[i] != SLASH)
      && if |ns| == 1 then q == 0 else q > 0 && b[q - 1] == SLASH
  {
    var k, w := ns[..|ns| - 1], ns[|ns| - 1];
    var j, q := Join(ns), |Join(k)|;
    assert j == Join(k) + (w + [SLASH]);
    forall i | q <= i < p - 1 ensures b[i] != SLASH { assert b[i] == j[i] == w[i - q]; }
    if |ns| > 1 { assert Join(k)[q - 1] == SLASH && b[q - 1] == j[q - 1] == Join(k)[q - 1]; }
    assert b[0..q] == Join(k) by { assert forall i :: 0 <= i < q ==> b[i] == j[i] == Join(k)[i]; }
  }

  /**
   One component popped: back to the slash before it. There is none before the first, and the search leaves the buffer.
   */
  method PopOne(buf: Buffer, p: nat, ghost ns: seq<seq<u8>>) returns (q: int)
    requires buf.Valid() && Holding(buf.bytes, p, ns) && ns != [] && SlashFree(ns)
    ensures |ns| == 1 ==> q == READS_OUTSIDE
    ensures |ns| > 1 ==> Holding(buf.bytes, q, ns[..|ns| - 1]) && 0 <= q <= p
  {
    hide Join;
    LastPart(buf.bytes, p, ns);
    ghost var z := |Join(ns[..|ns| - 1])|;
    q := p - 1;
    while true
      invariant z <= q < p
      decreases q
    {
      if q == 0 { return READS_OUTSIDE; }
      assert buf.data[q - 1] == buf.bytes[q - 1];
      if buf.data[q - 1] == SLASH { return; }
      q := q - 1;
    }
  }

  lemma {:induction false} PushPart(b: seq<u8>, b1: seq<u8>, b2: seq<u8>, p: nat, k: seq<seq<u8>>, name: seq<u8>)
    requires Holding(b, p, k) && Stored(b, b1, p, name) && Stored(b1, b2, p + |name|, [SLASH])
    ensures Holding(b2, p + |name| + 1, k + [name])
  {
    assert (k + [name])[..|k|] == k;
    assert Join(k + [name]) == Join(k) + (name + [SLASH]);
    var q := p + |name|;
    Untouched(b, b1, p, |name|, 0, p);
    Untouched(b1, b2, q, 1, 0, q);
    assert b1[0..q] == b1[0..p] + b1[p..q];
    assert b2[0..q + 1] == b2[0..q] + b2[q..q + 1];
    assert Join(k) + name + [SLASH] == Join(k) + (name + [SLASH]);
  }

  lemma {:induction false} HoldingSize(b: seq<u8>, p: int, ns: seq<seq<u8>>)
    requires Holding(b, p, ns)
    ensures p == |Join(ns)| <= |b|
  {
  }

  /** One turn of the loop of fdt_get_path. Behind the root the depth is -1, and everything is popped and more. */
  method PathTurn(buf: Buffer, buflen: nat, p: nat, pdepth0: nat, depth: int, name: seq<u8>, ghost ns: seq<seq<u8>>)
    returns (q: int, pdepth: nat, ghost k: seq<seq<u8>>)
    requires buf.Valid() && buflen <= |buf.bytes| && Holding(buf.bytes, p, ns) && SlashFree(ns) && SLASH !in name
    requires pdepth0 == |ns| && (if depth == 0 then ns == [] else if depth < 0 then ns != [] else true)
    modifies buf, buf.data
    ensures buf.Valid() && |buf.bytes| == |old(buf.bytes)|
    ensures depth < 0 ==> q == READS_OUTSIDE
    ensures depth >= 0 ==>
      && k == PathStep(ns, depth, name, buflen) && q >= 0 && (p <= buflen ==> q <= buflen)
      && Holding(buf.bytes, q, k) && SlashFree(k) && pdepth == |k|
  {
    hide Join, Stored, Holding;
    q, k := p, ns;
    pdepth := pdepth0;
    while pdepth > depth
      invariant pdepth == |k| && 0 <= q <= p && buf.Valid() && buf.bytes == old(buf.bytes)
      invariant Holding(buf.bytes, q, k) && SlashFree(k) && k == ns[..|k|] && |k| <= |ns|
      invariant if depth < 0 then k != [] else if |ns| > depth then |k| >= depth else |k| == |ns|
    {
      q := PopOne(buf, q, k);
      if q < 0 { return; }
      k := k[..|k| - 1];
      pdepth := pdepth - 1;
    }
    HoldingSize(buf.bytes, q, k);
    if pdepth >= depth && q + |name| + 1 <= buflen {
      ghost var b := buf.bytes;
      buf.Store(q, name);
      ghost var b1 := buf.bytes;
      buf.Store(q + |name|, [SLASH]);
      PushPart(b, b1, buf.bytes, q, k, name);
      q, k, pdepth := q + |name| + 1, k + [name], pdepth + 1;
    }
  }

  /** No node of the list, at any depth, has a slash in its name. */
  ghost predicate NoSlashes(f: Forest) {
    match f
    case Empty => true
    case Node(name, _, kids, rest) => SLASH !in name && NoSlashes(kids) && NoSlashes(rest)
    case _ => NoSlashes(f.rest)
  }

  ghost predicate PlainVisits(s: seq<u8>, vs: seq<Visit>) {
    forall i :: 0 <= i < |vs| ==> SLASH !in NodeName(s, vs[i].off)
  }

  lemma {:induction false} PlainPreorder(s: seq<u8>, off: nat, f: Forest, d: nat)
    requires At(s, off, f) && NoSlashes(f)
    ensures PlainVisits(s, Preorder(f, off, d))
    decreases f
  {
    hide At, TokAt, TokWords, Words, NodeName;
    AtIff(s, off, f);
    match f {
      case Empty =>
      case Node(_, _, kids, rest) =>
        NodeNameIs(s, off, f);
        PlainPreorder(s, off + TokSize(Head(f)), kids, d + 1);
        PlainPreorder(s, off + NodeSize(f), rest, d);
      case Prop(_, _, _, rest) => PlainPreorder(s, off + TokSize(Head(f)), rest, d);
      case Nop(rest) => PlainPreorder(s, off + TokSize(Head(f)), rest, d);
    }
  }

  /** The path that the components in the buffer stand for: without the last slash, unless it is the root's. */
  function PathText(ns: seq<seq<u8>>): seq<u8> {
    var j := Join(ns);
    if |j| > 1 then j[..|j| - 1] else j
  }

  lemma {:induction false} CloseText(b: seq<u8>, b1: seq<u8>, p: nat, q: nat, ns: seq<seq<u8>>)
    requires Holding(b, p, ns) && p > 0 && q == (if p > 1 then p - 1 else p) && Stored(b, b1, q, [0])
    ensures q == |PathText(ns)| && q + 1 <= |b1| && b1[0..q + 1] == PathText(ns) + [0]
  {
    hide Join;
    Untouched(b, b1, q, 1, 0, q);
    assert b1[0..q + 1] == b1[0..q] + b1[q..q + 1];
    assert b[0..q] == b[0..p][..q];
  }

  function GotErr(g: Got): int {
    match g case Failed(e) => e case Names(_) => 0
  }

  /** What fdt_get_path writes when it succeeds. */
  ghost predicate Wrote(b: seq<u8>, g: Got) {
    g.Names? ==> |PathText(g.names)| + 1 <= |b| && b[0..|PathText(g.names)| + 1] == PathText(g.names) + [0]
  }

  lemma {:induction false} JoinSome(ns: seq<seq<u8>>)
    requires ns != []
    ensures |Join(ns)| >= 1
  {
  }

  /** An offset that is no node's is a bad offset, however much room there is. */
  lemma {:induction false} PathNowhere(s: seq<u8>, vs: seq<Visit>, ns: seq<seq<u8>>, node: int, len: int)
    requires NotVisited(vs, node)
    ensures PathRun(s, vs, ns, node, len) == Failed(BADOFFSET)
    decreases |vs|
  {
    hide PathStep, NodeName;
    if vs != [] { PathNowhere(s, vs[1..], PathStep(ns, vs[0].depth, NodeName(s, vs[0].off), len), node, len); }
  }

  ghost predicate NotVisited(vs: seq<Visit>, node: int) {
    forall i :: 0 <= i < |vs| ==> vs[i].off != node
  }

  lemma {:induction false} StartHolding(b: seq<u8>)
    ensures Holding(b, 0, []) && SlashFree([])
  {
  }

  /** A loop over the tour is at a node, and what it still goes through ends just behind the root. */
  ghost predicate OnTour(s: seq<u8>, off: int, depth: int, end: int) {
    && NodeStart(s, off) > off >= 0 && NextTag(s, off).tag == FDT_BEGIN_NODE && Aligned(off)
    && Deeper(Onward(s, off, depth), 0) && Halt(s, off, depth) == Visit(end, -1)
    && off < end && AllBefore(Onward(s, off, depth), end)
  }

  lemma {:induction false} TourStarts(s: seq<u8>, f: Forest)
    requires Holds(s, f) && f.Node?
    ensures OnTour(s, 0, 0, NodeSize(f)) && NodeName(s, 0) == f.name
      && (NoSlashes(f.kids) ==> PlainVisits(s, Onward(s, 0, 0)))
  {
    hide At, TokAt, TokWords, Words, Be32, NodeStart, NodeName, Visits, LastHop, NextTag;
    AtIff(s, 0, f);
    VisitsNode(s, 0, f);
    NextTagAt(s, 0, Head(f));
    NodeNameIs(s, 0, f);
    PreorderDeep(f.kids, TokSize(Head(f)), 1);
    PreorderBefore(f.kids, TokSize(Head(f)), 1, NodeSize(f));
    if NoSlashes(f.kids) { PlainPreorder(s, TokSize(Head(f)), f.kids, 1); }
    assert 0 + TokSize(Head(f)) == TokSize(Head(f)) && 0 + NodeSize(f) == NodeSize(f);
  }

  lemma {:induction false} TourNext(s: seq<u8>, off: int, depth: int, end: int)
    requires OnTour(s, off, depth, end) && depth >= 0 && end >= 0
    ensures var v := NextNode(s, off, depth, true);
      && v.off >= 0 && Left(s, v.off) < Left(s, off)
      && (v.depth < 0 ==> v.off == end && Onward(s, off, depth) == [])
      && (v.depth >= 0 ==>
         v.depth >= 1 && OnTour(s, v.off, v.depth, end) && Onward(s, off, depth) == [v] + Onward(s, v.off, v.depth))
  {
    hide NextTag, NodeName, Aligned, NodeStart, Onward, Halt, Hop;
    OnwardStep(s, off, depth);
    var v := NextNode(s, off, depth, true);
    if v.off >= 0 && v.depth >= 0 { DeeperNext(v, Onward(s, v.off, v.depth), end); }
  }

  lemma {:induction false} DeeperNext(v: Visit, more: seq<Visit>, end: int)
    requires Deeper([v] + more, 0) && AllBefore([v] + more, end)
    ensures v.depth >= 1 && Deeper(more, 0) && v.off < end && AllBefore(more, end)
  {
    var vs := [v] + more;
    assert vs[0] == v && forall i :: 0 <= i < |more| ==> vs[i + 1] == more[i];
  }

  /** One unfolding of what comes after a node. */
  lemma {:induction false} OnwardStep(s: seq<u8>, off: int, depth: int)
    requires NodeStart(s, off) >= 0 && off >= 0 && depth >= 0 && Aligned(off)
    ensures var v := NextNode(s, off, depth, true);
      if v.off < 0 || v.depth < 0 then
        Onward(s, off, depth) == [] && Halt(s, off, depth) == v && (v.off >= 0 ==> v.off > off)
      else
        && v.off > off && NodeStart(s, v.off) > v.off && NextTag(s, v.off).tag == FDT_BEGIN_NODE && Aligned(v.off)
        && Onward(s, off, depth) == [v] + Onward(s, v.off, v.depth) && Halt(s, off, depth) == Halt(s, v.off, v.depth)
  {
    hide NextTag, Aligned;
    NextTagForm(s, off);
    var v := Hop(s, NodeStart(s, off), depth, true);
    if v.off >= 0 && v.depth >= 0 {
      AlignedMod(v.off);
      NextTagForm(s, v.off);
    }
  }

  lemma {:induction false} PlainNext(s: seq<u8>, v: Visit, more: seq<Visit>)
    requires PlainVisits(s, [v] + more)
    ensures SLASH !in NodeName(s, v.off) && PlainVisits(s, more)
  {
    hide NodeName;
    var vs := [v] + more;
    assert vs[0] == v && forall i :: 0 <= i < |more| ==> vs[i + 1] == more[i];
  }

  /** No run of the loop inside the root ends with a read outside the buffer. */
  lemma {:induction false} RunErrors(s: seq<u8>, vs: seq<Visit>, ns: seq<seq<u8>>, node: int, len: int)
    ensures GotErr(PathRun(s, vs, ns, node, len)) in {0, BADOFFSET, NOSPACE}
    decreases |vs|
  {
    hide PathStep, NodeName;
    if vs != [] && vs[0].off < node {
      RunErrors(s, vs[1..], PathStep(ns, vs[0].depth, NodeName(s, vs[0].off), len), node, len);
    }
  }

  lemma {:induction false} StepSome(ns: seq<seq<u8>>, depth: nat, name: seq<u8>, len: int)
    requires len >= 1 && (if depth == 0 then ns == [] && name == [] else ns != [])
    ensures PathStep(ns, depth, name, len) != []
  {
  }

  /** fdt_get_path. For an offset at or behind the end of the root it reads before the start of its buffer. */
  method GetPath(s: seq<u8>, nodeoffset: int, buf: Buffer, buflen: int, ghost f: Forest) returns (err: int)
    requires Holds(s, f) && f.Node? && f.name == [] && NoSlashes(f.kids)
    requires buf.Valid() && buflen <= |buf.bytes|
    modifies buf, buf.data
    ensures buf.Valid()
    ensures buflen < 2 ==> err == NOSPACE
    ensures err == READS_OUTSIDE <==> buflen >= 2 && nodeoffset >= NodeSize(f)
    ensures buflen >= 2 && nodeoffset < NodeSize(f) ==>
      var g := PathRun(s, Tour(s), [], nodeoffset, buflen); err == GotErr(g) && Wrote(buf.bytes, g)
    ensures buflen >= 2 && nodeoffset < NodeSize(f) && NotVisited(Tour(s), nodeoffset) ==> err == BADOFFSET
  {
    hide At, TokAt, TokWords, Words, Be32, Join, Stored, Holding, PathStep, NextTag, Aligned, NodeStart, NameAt,
      Visits, LastHop, Hop, PathText, PlainVisits, Onward, Halt;
    if buflen < 2 { return NOSPACE; }
    if NotVisited(Tour(s), nodeoffset) { PathNowhere(s, Tour(s), [], nodeoffset, buflen); }
    ghost var g := PathRun(s, Tour(s), [], nodeoffset, buflen);
    RunErrors(s, Tour(s), [], nodeoffset, buflen);
    TourStarts(s, f);
    StartHolding(buf.bytes);
    ghost var ns: seq<seq<u8>>, end := [], NodeSize(f);
    var offset, depth, p, pdepth := 0, 0, 0, 0;
    while offset >= 0 && offset <= nodeoffset
      invariant buf.Valid() && buflen <= |buf.bytes| && 0 <= p <= buflen && 0 <= pdepth == |ns|
      invariant Holding(buf.bytes, p, ns) && SlashFree(ns) && 0 <= offset
      invariant depth < 0 ==> offset == end && g == Failed(BADOFFSET) && ns != []
      invariant depth >= 0 ==> OnTour(s, offset, depth, end) && offset < end && SLASH !in NodeName(s, offset)
      invariant depth >= 0 ==>
        PlainVisits(s, Onward(s, offset, depth)) && if depth == 0 then ns == [] && offset == 0 else ns != []
      invariant depth >= 0 ==>
        PathRun(s, [Visit(offset, depth)] + Onward(s, offset, depth), ns, nodeoffset, buflen) == g
      decreases Left(s, offset)
    {
      ghost var more := Onward(s, offset, depth);
      assert ([Visit(offset, depth)] + more)[1..] == more;
      var name := if depth < 0 then [] else NameAt(s, offset);
      if depth >= 0 { StepSome(ns, depth, name, buflen); }
      p, pdepth, ns := PathTurn(buf, buflen, p, pdepth, depth, name, ns);
      if p < 0 { return p; }
      if offset == nodeoffset {
        if pdepth < depth + 1 { return NOSPACE; }
        HoldingSize(buf.bytes, p, ns);
        JoinSome(ns);
        ghost var b, p0 := buf.bytes, p;
        if p > 1 { p := p - 1; }
        buf.Store(p, [0]);
        CloseText(b, buf.bytes, p0, p, ns);
        return 0;
      }
      TourNext(s, offset, depth, end);
      var v := NextNodeLoop(s, offset, depth, true);
      if v.depth >= 0 { PlainNext(s, v, Onward(s, v.off, v.depth)); }
      offset, depth := v.off, v.depth;
    }
    return BADOFFSET;
  }

  /** NOSPACE exactly when the path and its NUL do not fit; otherwise the text is the path. */
  lemma {:induction false} GetPathExact(s: seq<u8>, f: Forest, c: Ctx, n: Forest, len: int)
    requires Holds(s, f) && f.Node? && f.name == [] && n.Node? && OkC(c) && Ok(n) && f == Plug(c, n)
      && (c.Hole? || c.Into?) && len >= 2
    ensures var g := PathRun(s, Tour(s), [], Offset(c), len);
      if |PathOf(c, n)| + 1 > len then g == Failed(NOSPACE) else g.Names? && PathText(g.names) == PathOf(c, n)
  {
    hide At, TokAt, TokWords, Words, Be32, Tour, PathRun, Join;
    InsideRoot(c, n);
    GetPathRuns(s, f, c, n, len);
    JoinPath(c, n);
  }

  lemma {:induction false} InsideRoot(c: Ctx, n: Forest)
    requires OkC(c) && Ok(n) && n.Node? && (c.Hole? || c.Into?)
    ensures var f := Plug(c, n); f.Node? && Ok(f) && Offset(c) < NodeSize(f) && Steps(c, n)[0] == f.name
  {
    hide TokWords, Words;
    PlugStep(c, n);
    if c.Into? { SizePlug(c.c, n); }
  }

  // ---------- Ancestors ----------

  /** The loop of fdt_supernode_atdepth_offset. */
  function SuperRun(s: seq<u8>, vs: seq<Visit>, node: int, k: int, sup: int): Visit
    decreases |vs|
  {
    if vs == [] || vs[0].off > node then Visit(BADOFFSET, 0)
    else
      var up := if vs[0].depth == k then vs[0].off else sup;
      if vs[0].off < node then SuperRun(s, vs[1..], node, k, up)
      else Visit(if k > vs[0].depth then NOTFOUND else up, vs[0].depth)
  }

  lemma {:induction false} SuperNowhere(s: seq<u8>, vs: seq<Visit>, node: int, k: int, sup: int)
    requires NotVisited(vs, node)
    ensures SuperRun(s, vs, node, k, sup).off == BADOFFSET
    decreases |vs|
  {
    if vs != [] { SuperNowhere(s, vs[1..], node, k, if vs[0].depth == k then vs[0].off else sup); }
  }

  /** Where the walk goes from the end of the root, when no other node follows. */
  lemma {:induction false} PastRoot(s: seq<u8>, f: Forest)
    requires Holds(s, f) && f.Node? && !f.rest.Node?
    ensures NextNode(s, NodeSize(f), -1, true) == Visit(BADOFFSET, -1)
  {
    hide At, TokAt, TokWords, Words, Be32, NextTag, Hop, Aligned;
    AtIff(s, 0, f);
    assert 0 + NodeSize(f) == NodeSize(f);
    AtFits(s, NodeSize(f), f.rest);
    AtIff(s, NodeSize(f), f.rest);
    if f.rest.Empty? { BlockEnd(s, NodeSize(f)); } else { NextTagAt(s, NodeSize(f), Head(f.rest)); }
  }

  lemma {:induction false} BlockEnd(s: seq<u8>, off: nat)
    requires off + 4 <= |s| && Be32(s, off) == FDT_END
    ensures NextTag(s, off).tag == FDT_END
  {
    hide Be32;
  }

  /**
   fdt_supernode_atdepth_offset; `nodedepth` is set when the node is met. The end of the root is taken for a
   node of depth -1, and an offset behind it is reported as a damaged structure.
   */
  method SupernodeAtDepth(s: seq<u8>, nodeoffset: int, k: int, ghost f: Forest) returns (r: int, nodedepth: int)
    requires Holds(s, f) && f.Node? && (f.rest.Node? ==> nodeoffset < NodeSize(f))
    ensures k < 0 ==> r == NOTFOUND
    ensures k >= 0 ==>
      Visit(r, nodedepth) ==
      if nodeoffset < NodeSize(f) then SuperRun(s, Tour(s), nodeoffset, k, INTERNAL)
      else if nodeoffset == NodeSize(f) then Visit(NOTFOUND, -1)
      else Visit(BADSTRUCTURE, 0)
    ensures k >= 0 && nodeoffset < NodeSize(f) && NotVisited(Tour(s), nodeoffset) ==> r == BADOFFSET
  {
    hide At, TokAt, TokWords, Words, Be32, NextTag, Aligned, NodeStart, Visits, LastHop, Hop, Onward, Halt, PlainVisits;
    nodedepth := 0;
    if k < 0 { return NOTFOUND, 0; }
    if NotVisited(Tour(s), nodeoffset) { SuperNowhere(s, Tour(s), nodeoffset, k, INTERNAL); }
    ghost var g, end := SuperRun(s, Tour(s), nodeoffset, k, INTERNAL), NodeSize(f);
    TourStarts(s, f);
    if !f.rest.Node? { PastRoot(s, f); }
    var offset, depth, sup := 0, 0, INTERNAL;
    while offset >= 0 && offset <= nodeoffset
      invariant offset < 0 ==> offset == BADOFFSET && nodeoffset > end
      invariant offset >= 0 && depth < 0 ==> depth == -1 && offset == end && g == Visit(BADOFFSET, 0)
      invariant depth >= 0 ==> OnTour(s, offset, depth, end)
      invariant depth >= 0 ==> SuperRun(s, [Visit(offset, depth)] + Onward(s, offset, depth), nodeoffset, k, sup) == g
      decreases offset >= 0, Left(s, offset)
    {
      ghost var more := Onward(s, offset, depth);
      assert ([Visit(offset, depth)] + more)[1..] == more;
      if depth == k { sup := offset; }
      if offset == nodeoffset { return if k > depth then NOTFOUND else sup, depth; }
      if depth >= 0 { TourNext(s, offset, depth, end); }
      var v := NextNodeLoop(s, offset, depth, true);
      offset, depth := v.off, v.depth;
    }
    return if offset == NOTFOUND || offset >= 0 then BADOFFSET else if offset == BADOFFSET then BADSTRUCTURE
      else offset, 0;
  }

  /** The offsets of the nodes on the way to the hole, and of the node in it. */
  ghost function Line(c: Ctx, off: int): (r: seq<int>)
    requires OkC(c)
    ensures |r| > 0
  {
    match c
    case Hole => [off]
    case Into(_, _, d, _) => [off] + Line(d, off + TokSize(HeadC(c)))
    case PastNode(_, _, kids, d) => Line(d, off + TokSize(HeadC(c)) + Size(kids) + TokSize(End))
    case _ => Line(c.c, off + TokSize(HeadC(c)))
  }

  /** The candidate after some nodes. */
  function SupAfter(vs: seq<Visit>, k: int, sup: int): int
    decreases |vs|
  {
    if vs == [] then sup else SupAfter(vs[1..], k, if vs[0].depth == k then vs[0].off else sup)
  }

  lemma {:induction false} SuperPast(s: seq<u8>, a: seq<Visit>, b: seq<Visit>, node: int, k: int, sup: int)
    requires AllBefore(a, node)
    ensures SuperRun(s, a + b, node, k, sup) == SuperRun(s, b, node, k, SupAfter(a, k, sup))
      && (Deeper(a, k) ==> SupAfter(a, k, sup) == sup)
    decreases |a|
  {
    if a == [] {
      assert a + b == b;
    } else {
      assert (a + b)[1..] == a[1..] + b;
      SuperPast(s, a[1..], b, node, k, if a[0].depth == k then a[0].off else sup);
    }
  }

  /** The ancestor at depth `k` is found, `d` being the depth of the list that the context is in. */
  lemma {:induction false} SuperTo(s: seq<u8>, off: nat, c: Ctx, n: Forest, d: nat, k: nat, sup: int, more: seq<Visit>)
    requires n.Node? && OkC(c) && Ok(n)
    ensures Ok(Plug(c, n))
    ensures SuperRun(s, Preorder(Plug(c, n), off, d) + more, off + Offset(c), k, sup) ==
            var e := d + |Line(c, off)| - 1;
            Visit(if k > e then NOTFOUND else if k < d then sup else Line(c, off)[k - d], e)
    decreases c
  {
    hide TokWords, Words, Ok, Preorder, SuperRun;
    PlugStep(c, n);
    if c.Hole? {
      SuperHere(s, off, n, d, k, sup, more);
    } else {
      PreorderStep(c, n, off, d);
      match c {
        case PastProp(_, _, _, e) => SuperTo(s, off + TokSize(HeadC(c)), e, n, d, k, sup, more);
        case PastNop(e) => SuperTo(s, off + TokSize(HeadC(c)), e, n, d, k, sup, more);
        case PastNode(_, _, kids, e) =>
          var i, j := off + TokSize(HeadC(c)), off + NodeSize(Plug(c, n));
          var x, y := Preorder(kids, i, d + 1), Preorder(Plug(e, n), j, d);
          var a := [Visit(off, d)] + x;
          assert (a + y) + more == a + (y + more);
          SuperOver(s, off, Plug(c, n), d, k, sup, y + more, off + Offset(c));
          SuperTo(s, j, e, n, d, k, SupAfter(a, k, sup), more);
        case Into(_, _, e, rest) =>
          var i := off + TokSize(HeadC(c));
          var x, y := Preorder(Plug(e, n), i, d + 1), Preorder(rest, off + NodeSize(Plug(c, n)), d);
          SuperInto(s, off, d, k, sup, x, y, more, off + Offset(c));
          SuperTo(s, i, e, n, d + 1, k, if d == k then off else sup, y + more);
      }
    }
  }

  lemma {:induction false} SuperHere(s: seq<u8>, off: nat, n: Forest, d: nat, k: nat, sup: int, more: seq<Visit>)
    requires n.Node? && Ok(n)
    ensures SuperRun(s, Preorder(n, off, d) + more, off, k, sup)
      == Visit(if k > d then NOTFOUND else if k < d then sup else off, d)
  {
    hide TokWords, Words;
    assert (Preorder(n, off, d) + more)[0] == Visit(off, d);
  }

  lemma {:induction false} SuperOver(s: seq<u8>, off: nat, m: Forest, d: nat, k: nat, sup: int, more: seq<Visit>,
                                     node: int)
    requires m.Node? && Ok(m) && off + NodeSize(m) <= node
    ensures var a := [Visit(off, d)] + Preorder(m.kids, off + TokSize(Head(m)), d + 1);
      && SuperRun(s, a + more, node, k, sup) == SuperRun(s, more, node, k, SupAfter(a, k, sup))
         && (k < d ==> SupAfter(a, k, sup) == sup)
  {
    hide TokWords, Words, SuperRun, SupAfter;
    var i := off + TokSize(Head(m));
    PreorderBefore(m.kids, i, d + 1, node);
    PreorderDeep(m.kids, i, d + 1);
    SuperPast(s, [Visit(off, d)] + Preorder(m.kids, i, d + 1), more, node, k, sup);
  }

  lemma {:induction false} SuperInto(s: seq<u8>, off: nat, d: nat, k: nat, sup: int, x: seq<Visit>, y: seq<Visit>,
                                     more: seq<Visit>, node: int)
    requires off < node
    ensures SuperRun(s, ([Visit(off, d)] + (x + y)) + more, node, k, sup)
      == SuperRun(s, x + (y + more), node, k, if d == k then off else sup)
  {
    var vs := ([Visit(off, d)] + (x + y)) + more;
    assert vs[0] == Visit(off, d) && vs[1..] == x + (y + more);
  }

  lemma {:induction false} SuperStops(s: seq<u8>, a: seq<Visit>, b: seq<Visit>, node: int, k: int, sup: int)
    requires forall i :: 0 <= i < |b| ==> b[i].off > node
    ensures SuperRun(s, a + b, node, k, sup) == SuperRun(s, a, node, k, sup)
    decreases |a|
  {
    if a == [] {
      assert a + b == b;
    } else {
      assert (a + b)[1..] == a[1..] + b;
      SuperStops(s, a[1..], b, node, k, if a[0].depth == k then a[0].off else sup);
    }
  }

  /**
   fdt_supernode_atdepth_offset returns the true ancestor, NOTFOUND exactly below the node's own depth, and that depth.
   */
  lemma {:induction false} SupernodeIs(s: seq<u8>, f: Forest, c: Ctx, n: Forest, k: nat)
    requires Holds(s, f) && f.Node? && n.Node? && OkC(c) && Ok(n) && f == Plug(c, n) && (c.Hole? || c.Into?)
    ensures var line := Line(c, 0);
      SuperRun(s, Tour(s), Offset(c), k, INTERNAL) == Visit(if k >= |line| then NOTFOUND else line[k], |line| - 1)
  {
    hide At, TokAt, TokWords, Words, Be32, Tour, SuperRun, Line;
    InsideRoot(c, n);
    var more := Preorder(f.rest, NodeSize(f), 0);
    TourIs(s, f);
    PreorderAfter(f.rest, NodeSize(f), 0);
    SuperStops(s, Tour(s), more, Offset(c), k, INTERNAL);
    assert Preorder(f, 0, 0) + [] == Preorder(f, 0, 0);
    SuperTo(s, 0, c, n, 0, k, INTERNAL, []);
  }

  /** fdt_parent_offset: the node just above, and NOTFOUND for the root. */
  method ParentOffset(s: seq<u8>, nodeoffset: int, ghost f: Forest, ghost c: Ctx, ghost n: Forest) returns (r: int)
    requires Holds(s, f) && f.Node? && n.Node? && OkC(c) && Ok(n) && f == Plug(c, n) && (c.Hole? || c.Into?)
      && nodeoffset == Offset(c)
    ensures var line := Line(c, 0); r == if |line| == 1 then NOTFOUND else line[|line| - 2]
  {
    hide At, TokAt, TokWords, Words, Be32, Tour, SuperRun, Line, Offset, Ok;
    InsideRoot(c, n);
    LineStarts(c);
    SupernodeIs(s, f, c, n, 0);
    var err, nodedepth := SupernodeAtDepth(s, nodeoffset, 0, f);
    if err != 0 { return if err < 0 then err else INTERNAL; }
    if nodedepth < 0 { return nodedepth; }
    if nodedepth >= 1 { SupernodeIs(s, f, c, n, nodedepth - 1); }
    var parent, _ := SupernodeAtDepth(s, nodeoffset, nodedepth - 1, f);
    return parent;
  }

  lemma {:induction false} LineStarts(c: Ctx)
    requires OkC(c) && (c.Hole? || c.Into?)
    ensures Line(c, 0)[0] == 0
  {
  }
}
