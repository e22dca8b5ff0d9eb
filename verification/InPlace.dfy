/** What an edit in place leaves alone: forests that differ in the bytes of property values only. */
module InPlace {
  import opened Bytes
  import opened Memory
  import opened Structure
  import opened Zipper
  import opened Lookup
  import T = Tree
  import opened Edit

  // ---------- Same tokens, other values ----------

  /** The same tokens, except that values of properties named in `names` may hold other bytes. */
  ghost predicate Alike(f: Forest, g: Forest, st: seq<u8>, names: iset<seq<u8>>) {
    match f
    case Empty => g.Empty?
    case Nop(rest) => g.Nop? && Alike(rest, g.rest, st, names)
    case Node(name, npad, kids, rest) =>
      g.Node? && g.name == name && g.npad == npad && Alike(kids, g.kids, st, names) && Alike(rest, g.rest, st, names)
    case Prop(nameoff, val, pad, rest) =>
      && g.Prop? && g.nameoff == nameoff && g.pad == pad && |g.val| == |val| && Alike(rest, g.rest, st, names)
      && (g.val == val || (Str(st, nameoff).Some? && Str(st, nameoff).value in names))
  }

  /** Any value may have changed. */
  ghost function AnyName(): iset<seq<u8>> {
    iset n: seq<u8> | |n| >= 0
  }

  lemma {:induction false} AlikeSame(f: Forest, st: seq<u8>, names: iset<seq<u8>>)
    ensures Alike(f, f, st, names)
    decreases f
  {
    hide Str;
    match f {
      case Empty =>
      case Node(_, _, kids, rest) => AlikeSame(kids, st, names); AlikeSame(rest, st, names);
      case Prop(_, _, _, rest) => AlikeSame(rest, st, names);
      case Nop(rest) => AlikeSame(rest, st, names);
    }
  }

  lemma {:induction false} AlikeTrans(f: Forest, g: Forest, h: Forest, st: seq<u8>, a: iset<seq<u8>>, b: iset<seq<u8>>,
                                      c: iset<seq<u8>>)
    requires Alike(f, g, st, a) && Alike(g, h, st, b) && a <= c && b <= c
    ensures Alike(f, h, st, c)
    decreases f
  {
    hide Str;
    match f {
      case Empty =>
      case Node(_, _, kids, rest) =>
        AlikeTrans(kids, g.kids, h.kids, st, a, b, c);
        AlikeTrans(rest, g.rest, h.rest, st, a, b, c);
      case Prop(_, _, _, rest) => AlikeTrans(rest, g.rest, h.rest, st, a, b, c);
      case Nop(rest) => AlikeTrans(rest, g.rest, h.rest, st, a, b, c);
    }
  }

  lemma {:induction false} AlikePlug(c: Ctx, f: Forest, g: Forest, st: seq<u8>, names: iset<seq<u8>>)
    requires Alike(f, g, st, names)
    ensures Alike(Plug(c, f), Plug(c, g), st, names)
  {
    hide Str;
    if !c.Hole? { AlikePlug(c.c, f, g, st, names); }
    match c {
      case PastNode(_, _, kids, _) => AlikeSame(kids, st, names);
      case Into(_, _, _, rest) => AlikeSame(rest, st, names);
      case _ =>
    }
  }

  lemma {:induction false} AlikeSize(f: Forest, g: Forest, st: seq<u8>, names: iset<seq<u8>>)
    requires Ok(f) && Alike(f, g, st, names)
    ensures Ok(g) && Size(g) == Size(f)
    ensures !f.Empty? ==> TokSize(Head(g)) == TokSize(Head(f))
    ensures f.Node? ==> NodeSize(g) == NodeSize(f)
    decreases f
  {
    hide Str;
    match f {
      case Empty =>
      case Node(_, _, kids, rest) => AlikeSize(kids, g.kids, st, names); AlikeSize(rest, g.rest, st, names);
      case Prop(_, _, _, rest) => AlikeSize(rest, g.rest, st, names);
      case Nop(rest) => AlikeSize(rest, g.rest, st, names);
    }
  }

  /** One property of a node given another value of the same length. */
  lemma {:induction false} AlikeReset(n: Forest, st: seq<u8>, name: seq<u8>, t: Token)
    requires n.Node? && t.PropTok? && PropFocus(n.kids, st, name).Prop?
    requires var g := PropFocus(n.kids, st, name);
      && Str(st, g.nameoff) == Some(name) && Plug(PropCtx(n.kids, st, name), g) == n.kids
      && t.nameoff == g.nameoff && t.pad == g.pad && |t.val| == |g.val|
    ensures Alike(n, Reset(n, st, name, t), st, iset{name})
  {
    hide Str, PropCtx, PropFocus, Plug;
    var d, g := PropCtx(n.kids, st, name), PropFocus(n.kids, st, name);
    AlikeSame(g.rest, st, iset{name});
    AlikeSame(n.rest, st, iset{name});
    AlikePlug(d, g, Prop(t.nameoff, t.val, t.pad, g.rest), st, iset{name});
  }

  /** The first child that matches a name is the same one, at the same place. */
  lemma {:induction false} AlikeChild(f: Forest, g: Forest, st: seq<u8>, names: iset<seq<u8>>, off: int, name: seq<u8>)
    requires Ok(f) && Alike(f, g, st, names)
    ensures Ok(g) && FindChild(g, off, name) == FindChild(f, off, name)
    ensures Alike(ChildFocus(f, name), ChildFocus(g, name), st, names)
    decreases f
  {
    hide Str, TokWords, Words, NameEq;
    AlikeSize(f, g, st, names);
    match f {
      case Empty =>
      case Node(_, _, _, rest) => AlikeChild(rest, g.rest, st, names, off + NodeSize(f), name);
      case Prop(_, _, _, rest) => AlikeChild(rest, g.rest, st, names, off + TokSize(Head(f)), name);
      case Nop(rest) => AlikeChild(rest, g.rest, st, names, off + TokSize(Head(f)), name);
    }
  }

  lemma {:induction false} AlikeProp(f: Forest, g: Forest, st: seq<u8>, names: iset<seq<u8>>, off: int, name: seq<u8>)
    requires Ok(f) && Alike(f, g, st, names)
    ensures Ok(g) && FindProp(g, off, st, name) == FindProp(f, off, st, name)
    decreases f
  {
    hide Str, TokWords, Words;
    AlikeSize(f, g, st, names);
    match f {
      case Prop(_, _, _, rest) => AlikeProp(rest, g.rest, st, names, off + TokSize(Head(f)), name);
      case Nop(rest) => AlikeProp(rest, g.rest, st, names, off + TokSize(NopTok), name);
      case _ =>
    }
  }

  // ---------- What a tree does not show ----------

  /**
   The same values wherever a lookup does not get to: in properties whose name is in `seen` or came before in the
   run, and in properties behind a node.
   */
  ghost predicate SameHidden(f: Forest, g: Forest, st: seq<u8>, seen: iset<seq<u8>>) {
    match f
    case Empty => g.Empty?
    case Nop(rest) => g.Nop? && SameHidden(rest, g.rest, st, seen)
    case Node(_, _, kids, rest) =>
      g.Node? && SameHidden(kids, g.kids, st, iset{}) && SameHidden(rest, g.rest, st, AnyName())
    case Prop(nameoff, val, _, rest) =>
      g.Prop? && match Str(st, nameoff)
                 case None => g.val == val && SameHidden(rest, g.rest, st, seen)
                 case Some(n) => (n in seen ==> g.val == val) && SameHidden(rest, g.rest, st, seen + iset{n})
  }

  /** The same tokens; only values that a lookup sees, of properties named in `names`, may hold other bytes. */
  ghost predicate Revised(f: Forest, g: Forest, st: seq<u8>, names: iset<seq<u8>>) {
    Alike(f, g, st, names) && SameHidden(f, g, st, iset{})
  }

  lemma {:induction false} HiddenSame(f: Forest, st: seq<u8>, seen: iset<seq<u8>>)
    ensures SameHidden(f, f, st, seen)
    decreases f
  {
    hide Str, AnyName;
    match f {
      case Empty =>
      case Node(_, _, kids, rest) => HiddenSame(kids, st, iset{}); HiddenSame(rest, st, AnyName());
      case Prop(nameoff, _, _, rest) =>
        HiddenSame(rest, st, seen);
        if Str(st, nameoff).Some? { HiddenSame(rest, st, seen + iset{Str(st, nameoff).value}); }
      case Nop(rest) => HiddenSame(rest, st, seen);
    }
  }

  lemma {:induction false} HiddenTrans(f: Forest, g: Forest, h: Forest, st: seq<u8>, seen: iset<seq<u8>>,
                                       a: iset<seq<u8>>)
    requires Alike(f, g, st, a) && SameHidden(f, g, st, seen) && SameHidden(g, h, st, seen)
    ensures SameHidden(f, h, st, seen)
    decreases f
  {
    hide Str, AnyName;
    match f {
      case Empty =>
      case Node(_, _, kids, rest) =>
        HiddenTrans(kids, g.kids, h.kids, st, iset{}, a);
        HiddenTrans(rest, g.rest, h.rest, st, AnyName(), a);
      case Prop(nameoff, _, _, rest) =>
        if Str(st, nameoff).Some? {
          HiddenTrans(rest, g.rest, h.rest, st, seen + iset{Str(st, nameoff).value}, a);
        } else {
          HiddenTrans(rest, g.rest, h.rest, st, seen, a);
        }
      case Nop(rest) => HiddenTrans(rest, g.rest, h.rest, st, seen, a);
    }
  }

  lemma {:induction false} HiddenPlug(c: Ctx, f: Forest, g: Forest, st: seq<u8>, seen: iset<seq<u8>>)
    requires f.Node? && g.Node? && g.rest == f.rest && SameHidden(f, g, st, iset{})
    ensures SameHidden(Plug(c, f), Plug(c, g), st, seen)
    decreases c
  {
    hide Str, AnyName;
    match c {
      case Hole =>
      case PastProp(nameoff, _, _, d) =>
        HiddenPlug(d, f, g, st, seen);
        if Str(st, nameoff).Some? { HiddenPlug(d, f, g, st, seen + iset{Str(st, nameoff).value}); }
      case PastNop(d) => HiddenPlug(d, f, g, st, seen);
      case PastNode(_, _, kids, d) => HiddenSame(kids, st, iset{}); HiddenPlug(d, f, g, st, AnyName());
      case Into(_, _, d, rest) => HiddenPlug(d, f, g, st, iset{}); HiddenSame(rest, st, AnyName());
    }
  }

  lemma {:induction false} HiddenReset(f: Forest, st: seq<u8>, name: seq<u8>, t: Token, seen: iset<seq<u8>>)
    requires t.PropTok? && PropFocus(f, st, name).Prop? && name !in seen
    requires Str(st, PropFocus(f, st, name).nameoff) == Some(name)
    ensures var g := PropFocus(f, st, name);
      SameHidden(f, Plug(PropCtx(f, st, name), Prop(t.nameoff, t.val, t.pad, g.rest)), st, seen)
    decreases f
  {
    hide Str;
    match f {
      case Prop(nameoff, _, _, rest) =>
        if Str(st, nameoff) == Some(name) {
          HiddenSame(rest, st, seen + iset{name});
        } else if Str(st, nameoff).Some? {
          HiddenReset(rest, st, name, t, seen + iset{Str(st, nameoff).value});
        } else {
          HiddenReset(rest, st, name, t, seen);
        }
      case Nop(rest) => HiddenReset(rest, st, name, t, seen);
      case _ =>
    }
  }

  lemma {:induction false} RevisedSame(f: Forest, st: seq<u8>, names: iset<seq<u8>>)
    ensures Revised(f, f, st, names)
  {
    hide Alike, SameHidden;
    AlikeSame(f, st, names);
    HiddenSame(f, st, iset{});
  }

  lemma {:induction false} RevisedTrans(f: Forest, g: Forest, h: Forest, st: seq<u8>, a: iset<seq<u8>>,
                                        b: iset<seq<u8>>, c: iset<seq<u8>>)
    requires Revised(f, g, st, a) && Revised(g, h, st, b) && a <= c && b <= c
    ensures Revised(f, h, st, c)
  {
    hide Alike, SameHidden;
    AlikeTrans(f, g, h, st, a, b, c);
    HiddenTrans(f, g, h, st, iset{}, a);
  }

  lemma {:induction false} RevisedPlug(c: Ctx, f: Forest, g: Forest, st: seq<u8>, names: iset<seq<u8>>)
    requires f.Node? && g.Node? && g.rest == f.rest && Revised(f, g, st, names)
    ensures Revised(Plug(c, f), Plug(c, g), st, names)
  {
    hide Alike, SameHidden, Plug;
    AlikePlug(c, f, g, st, names);
    HiddenPlug(c, f, g, st, iset{});
  }

  lemma {:induction false} RevisedWith(n: Forest, f: Forest, st: seq<u8>, names: iset<seq<u8>>)
    requires n.Node? && Revised(n.kids, f, st, names)
    ensures Revised(n, WithKids(n, f), st, names)
  {
    AlikeSame(n.rest, st, names);
    HiddenSame(n.rest, st, AnyName());
  }

  lemma {:induction false} RevisedKids(n: Forest, m: Forest, st: seq<u8>, names: iset<seq<u8>>)
    requires n.Node? && Revised(n, m, st, names)
    ensures m.Node? && m.name == n.name && m.npad == n.npad && Revised(n.kids, m.kids, st, names)
  {
  }

  lemma {:induction false} RevisedReset(n: Forest, st: seq<u8>, name: seq<u8>, t: Token)
    requires n.Node? && t.PropTok? && PropFocus(n.kids, st, name).Prop?
    requires var g := PropFocus(n.kids, st, name);
      && Str(st, g.nameoff) == Some(name) && Plug(PropCtx(n.kids, st, name), g) == n.kids
      && t.nameoff == g.nameoff && t.pad == g.pad && |t.val| == |g.val|
    ensures Revised(n, Reset(n, st, name, t), st, iset{name})
  {
    hide Alike, Str, PropCtx, PropFocus, Plug, AnyName;
    AlikeReset(n, st, name, t);
    HiddenReset(n.kids, st, name, t, iset{});
    HiddenSame(n.rest, st, AnyName());
  }

  /** Two maps agree, except perhaps on some names. */
  ghost predicate AgreeBut(a: map<seq<u8>, seq<u8>>, b: map<seq<u8>, seq<u8>>, seen: iset<seq<u8>>) {
    forall k :: k in a && k in b && k !in seen ==> a[k] == b[k]
  }

  lemma {:induction false} DeterminedFrom(f: Forest, a: Forest, b: Forest, st: seq<u8>, x: iset<seq<u8>>,
                                          y: iset<seq<u8>>, seen: iset<seq<u8>>)
    requires Alike(f, a, st, x) && Alike(f, b, st, y) && SameHidden(f, a, st, seen) && SameHidden(f, b, st, seen)
    requires AgreeBut(T.Props(a, st), T.Props(b, st), seen) && T.Kids(a, st) == T.Kids(b, st)
    ensures a == b
    decreases f
  {
    hide Str, AnyName;
    match f {
      case Empty =>
      case Nop(rest) => DeterminedFrom(rest, a.rest, b.rest, st, x, y, seen);
      case Prop(nameoff, _, _, rest) =>
        if Str(st, nameoff).Some? {
          var n := Str(st, nameoff).value;
          assert n in T.Props(a, st) && n in T.Props(b, st);
          forall k | k in T.Props(a.rest, st) && k in T.Props(b.rest, st) && k !in seen + iset{n}
            ensures T.Props(a.rest, st)[k] == T.Props(b.rest, st)[k]
          {
            assert T.Props(a, st)[k] == T.Props(b, st)[k];
          }
          DeterminedFrom(rest, a.rest, b.rest, st, x, y, seen + iset{n});
        } else {
          DeterminedFrom(rest, a.rest, b.rest, st, x, y, seen);
        }
      case Node(_, _, kids, rest) =>
        var p, q := T.Kids(a, st), T.Kids(b, st);
        assert p[0] == q[0] && p[1..] == q[1..];
        assert p[1..] == T.Kids(a.rest, st) && q[1..] == T.Kids(b.rest, st);
        DeterminedFrom(kids, a.kids, b.kids, st, x, y, iset{});
        AllSeen(T.Props(a.rest, st), T.Props(b.rest, st));
        DeterminedFrom(rest, a.rest, b.rest, st, x, y, AnyName());
    }
  }

  lemma {:induction false} AllSeen(a: map<seq<u8>, seq<u8>>, b: map<seq<u8>, seq<u8>>)
    ensures AgreeBut(a, b, AnyName())
  {
  }

  /** A revision of a node's contents is determined by the tree that it reads as. */
  lemma {:induction false} Determined(n: Forest, a: Forest, b: Forest, st: seq<u8>, x: iset<seq<u8>>, y: iset<seq<u8>>)
    requires n.Node? && Revised(n, a, st, x) && Revised(n, b, st, y) && a.Node? && b.Node?
    requires T.TreeOf(a, st) == T.TreeOf(b, st)
    ensures a.kids == b.kids
  {
    hide Alike, SameHidden, T.Props, T.Kids;
    RevisedKids(n, a, st, x);
    RevisedKids(n, b, st, y);
    DeterminedFrom(n.kids, a.kids, b.kids, st, x, y, iset{});
  }

  // ---------- The bytes of a node ----------

  /** A node's own bytes: its tag, its name and its properties, up to the first child. */
  ghost function Span(n: Forest): nat
    requires Ok(n) && n.Node?
  {
    OkRun(n.kids);
    TokSize(Head(n)) + Offset(RunCtx(n.kids))
  }

  lemma {:induction false} AlikeRun(f: Forest, g: Forest, st: seq<u8>, names: iset<seq<u8>>)
    requires Ok(f) && Alike(f, g, st, names)
    ensures OkC(RunCtx(f)) && OkC(RunCtx(g)) && Offset(RunCtx(g)) == Offset(RunCtx(f))
    decreases f
  {
    hide Str, Words;
    AlikeSize(f, g, st, names);
    OkRun(f);
    OkRun(g);
    match f {
      case Prop(_, _, _, rest) => AlikeRun(rest, g.rest, st, names);
      case Nop(rest) => AlikeRun(rest, g.rest, st, names);
      case _ =>
    }
  }

  lemma {:induction false} AlikeSpan(n: Forest, m: Forest, st: seq<u8>, names: iset<seq<u8>>)
    requires Ok(n) && n.Node? && Alike(n, m, st, names)
    ensures Ok(m) && Span(m) == Span(n)
  {
    hide Str, Words, RunCtx, Offset, TokWords;
    AlikeSize(n, m, st, names);
    AlikeRun(n.kids, m.kids, st, names);
  }

  /** Properties lie in the node's own bytes. */
  lemma {:induction false} PropInRun(f: Forest, st: seq<u8>, name: seq<u8>)
    requires Ok(f) && PropFocus(f, st, name).Prop?
    ensures OkC(PropCtx(f, st, name)) && Ok(PropFocus(f, st, name)) && OkC(RunCtx(f))
    ensures Offset(PropCtx(f, st, name)) + TokSize(Head(PropFocus(f, st, name))) <= Offset(RunCtx(f))
    decreases f
  {
    hide Str, TokWords, Words;
    PropCtxIs(f, 0, st, name);
    OkRun(f);
    match f {
      case Prop(nameoff, _, _, rest) =>
        OkRun(rest);
        if Str(st, nameoff) != Some(name) { PropInRun(rest, st, name); }
      case Nop(rest) => PropInRun(rest, st, name);
      case _ =>
    }
  }

  lemma {:induction false} PropInSpan(c: Ctx, n: Forest, st: seq<u8>, name: seq<u8>)
    requires OkC(c) && Ok(n) && n.Node? && PropFocus(n.kids, st, name).Prop?
    ensures OkC(PropCtx(n.kids, st, name)) && Ok(PropFocus(n.kids, st, name)) && Offset(c) <= PropOff(c, n, st, name)
    ensures PropOff(c, n, st, name) + TokSize(Head(PropFocus(n.kids, st, name))) <= Offset(c) + Span(n)
  {
    hide Str, TokWords, Words, PropCtx, PropFocus, RunCtx, Offset;
    PropInRun(n.kids, st, name);
  }

  lemma {:induction false} SpanFits(n: Forest)
    requires Ok(n) && n.Node?
    ensures Span(n) <= NodeSize(n)
  {
    hide TokWords, Words, RunCtx, RunTail, Offset;
    OkRun(n.kids);
    InsertFocus(n.kids, [], [], []);
    SizePlug(RunCtx(n.kids), RunTail(n.kids));
  }

  // ---------- Disjoint pieces ----------

  /** The `m` bytes at `a` and the `k` bytes at `b` do not overlap. */
  predicate Disjoint(a: int, m: int, b: int, k: int) {
    a + m <= b || b + k <= a
  }

  lemma {:induction false} TokKept(s: seq<u8>, s': seq<u8>, p: nat, k: nat, off: nat, t: Token)
    requires TokAt(s, off, t) && Patched(s, s', p, k) && Disjoint(p, k, off, TokSize(t))
    ensures TokAt(s', off, t)
  {
    hide TokAt, TokWords, Patched;
    TokFits(s, off, t);
    PatchedSize(s, s', p, k);
    Untouched(s, s', p, k, off, off + TokSize(t));
    TokMove(s, off, s', off, TokSize(t), t);
  }

  lemma {:induction false} AtKept(s: seq<u8>, s': seq<u8>, p: nat, k: nat, off: nat, f: Forest)
    requires At(s, off, f) && Patched(s, s', p, k) && Disjoint(p, k, off, Size(f))
    ensures At(s', off, f)
  {
    hide At, Words, Patched;
    AtFits(s, off, f);
    PatchedSize(s, s', p, k);
    Untouched(s, s', p, k, off, off + Size(f));
    AtMove(s, off, s', off, Size(f), f);
  }
}
