/** Edits of an encoded node: where they land, what they do to the bytes and what they do to the tree. */
module Edit {
  import opened Bytes
  import opened Structure
  import opened Zipper
  import opened Walk
  import opened Lookup
  import opened Check
  import opened Tree
  import opened Memory

  // ---------- Places ----------

  /** The way to the first property of a name in the leading run, and the forest from there on. */
  ghost function PropCtx(f: Forest, st: seq<u8>, name: seq<u8>): Ctx {
    match f
    case Prop(nameoff, val, pad, rest) =>
      if Str(st, nameoff) == Some(name) then Hole else PastProp(nameoff, val, pad, PropCtx(rest, st, name))
    case Nop(rest) => PastNop(PropCtx(rest, st, name))
    case _ => Hole
  }

  ghost function PropFocus(f: Forest, st: seq<u8>, name: seq<u8>): Forest {
    match f
    case Prop(nameoff, _, _, rest) => if Str(st, nameoff) == Some(name) then f else PropFocus(rest, st, name)
    case Nop(rest) => PropFocus(rest, st, name)
    case _ => f
  }

  lemma {:induction false} PropCtxIs(f: Forest, off: int, st: seq<u8>, name: seq<u8>)
    requires Ok(f)
    ensures var c, g := PropCtx(f, st, name), PropFocus(f, st, name);
      && Plug(c, g) == f && OkC(c) && Ok(g)
      && (FindProp(f, off, st, name).Some? ==> g.Prop? && Str(st, g.nameoff) == Some(name)
                                               && FindProp(f, off, st, name) == Some(off + Offset(c)))
      && (FindProp(f, off, st, name).Some? <==> name in Props(f, st))
      && (FindProp(f, off, st, name).Some? ==> Props(f, st)[name] == g.val)
    decreases f
  {
    hide Str, TokWords;
    match f {
      case Prop(_, _, _, rest) => PropCtxIs(rest, off + TokSize(Head(f)), st, name);
      case Nop(rest) => PropCtxIs(rest, off + TokSize(NopTok), st, name);
      case _ =>
    }
  }

  /** The way past the whole leading run of properties and NOPs. */
  ghost function RunCtx(f: Forest): Ctx {
    match f
    case Prop(nameoff, val, pad, rest) => PastProp(nameoff, val, pad, RunCtx(rest))
    case Nop(rest) => PastNop(RunCtx(rest))
    case _ => Hole
  }

  ghost function RunTail(f: Forest): Forest {
    match f
    case Prop(_, _, _, rest) => RunTail(rest)
    case Nop(rest) => RunTail(rest)
    case _ => f
  }

  // ---------- What the edits mean ----------

  /** A property of that name at the front of the focus decides the map; the rest of the list is kept. */
  lemma {:induction false} SetFocus(f: Forest, st: seq<u8>, name: seq<u8>, nameoff: u32, val: seq<u8>, pad: seq<u8>)
    requires PropFocus(f, st, name).Prop? && Str(st, nameoff) == Some(name)
    ensures var g := Plug(PropCtx(f, st, name), Prop(nameoff, val, pad, PropFocus(f, st, name).rest));
      Props(g, st) == Props(f, st)[name := val] && Kids(g, st) == Kids(f, st)
  {
    hide Str;
    match f {
      case Prop(no, _, _, rest) => if Str(st, no) != Some(name) { SetFocus(rest, st, name, nameoff, val, pad); }
      case Nop(rest) => SetFocus(rest, st, name, nameoff, val, pad);
      case _ =>
    }
  }

  lemma {:induction false} SameFocus(f: Forest, st: seq<u8>, name: seq<u8>, nameoff: u32, val: seq<u8>, pad: seq<u8>)
    requires PropFocus(f, st, name).Prop? && Str(st, nameoff) == Some(name)
    ensures var g := Plug(PropCtx(f, st, name), Prop(nameoff, val, pad, PropFocus(f, st, name).rest));
      PropCtx(g, st, name) == PropCtx(f, st, name)
  {
    hide Str;
    match f {
      case Prop(no, _, _, rest) => if Str(st, no) != Some(name) { SameFocus(rest, st, name, nameoff, val, pad); }
      case Nop(rest) => SameFocus(rest, st, name, nameoff, val, pad);
      case _ =>
    }
  }

  /** No property name occurs twice in the leading run. */
  ghost predicate Unique(f: Forest, st: seq<u8>) {
    match f
    case Prop(nameoff, _, _, rest) =>
      Unique(rest, st) && (Str(st, nameoff).Some? ==> Str(st, nameoff).value !in Props(rest, st))
    case Nop(rest) => Unique(rest, st)
    case _ => true
  }

  /** The properties of a name's first occurrence and all after it, but for that one. */
  ghost function Below(f: Forest, st: seq<u8>, name: seq<u8>): map<seq<u8>, seq<u8>> {
    var g := PropFocus(f, st, name);
    if g.Prop? then Props(g.rest, st) else map[]
  }

  /** A map without its entry for a name, or with the next one that the entry had hidden. */
  ghost function Uncovered(m: map<seq<u8>, seq<u8>>, name: seq<u8>, below: map<seq<u8>, seq<u8>>): map<seq<u8>,
                           seq<u8>> {
    if name in below then m[name := below[name]] else m - {name}
  }

  lemma {:induction false} DropFocus(f: Forest, st: seq<u8>, name: seq<u8>)
    requires PropFocus(f, st, name).Prop?
    ensures var g := Plug(PropCtx(f, st, name), PropFocus(f, st, name).rest);
      Props(g, st) == Uncovered(Props(f, st), name, Below(f, st, name)) && Kids(g, st) == Kids(f, st)
  {
    hide Str;
    match f {
      case Prop(no, _, _, rest) => if Str(st, no) != Some(name) { DropFocus(rest, st, name); }
      case Nop(rest) => DropFocus(rest, st, name);
      case _ =>
    }
  }

  /** With distinct property names nothing is hidden: deleting a property removes its name. */
  lemma {:induction false} UniqueBelow(f: Forest, st: seq<u8>, name: seq<u8>)
    requires Unique(f, st)
    ensures name !in Below(f, st, name) && Uncovered(Props(f, st), name, Below(f, st, name)) == Props(f, st) - {name}
    decreases f
  {
    hide Str;
    match f {
      case Prop(no, _, _, rest) => UniqueBelow(rest, st, name);
      case Nop(rest) => UniqueBelow(rest, st, name);
      case _ =>
    }
  }

  /** A node put after the leading run becomes the first child. */
  lemma {:induction false} InsertFocus(f: Forest, st: seq<u8>, name: seq<u8>, pad: seq<u8>)
    ensures Plug(RunCtx(f), RunTail(f)) == f && !RunTail(f).Prop? && !RunTail(f).Nop?
    ensures var g := Plug(RunCtx(f), Node(name, pad, Empty, RunTail(f)));
      Props(g, st) == Props(f, st) && Kids(g, st) == [Tree(name, map[], [])] + Kids(f, st)
  {
    hide Str;
    match f {
      case Prop(_, _, _, rest) => InsertFocus(rest, st, name, pad);
      case Nop(rest) => InsertFocus(rest, st, name, pad);
      case _ =>
    }
  }

  // ---------- What the edits do to the bytes ----------

  /** The context of a place `d` inside the contents of a node `n` that is at `c`. */
  ghost function Inside(c: Ctx, n: Forest, d: Ctx): Ctx
    requires n.Node?
  {
    Compose(c, Into(n.name, n.npad, d, n.rest))
  }

  ghost function WithKids(n: Forest, kids: Forest): Forest
    requires n.Node?
  {
    Node(n.name, n.npad, kids, n.rest)
  }

  lemma {:induction false} InsideIs(c: Ctx, n: Forest, d: Ctx, x: Forest)
    requires n.Node? && OkC(c) && Ok(n) && OkC(d) && Ok(x)
    ensures Plug(Inside(c, n, d), x) == Plug(c, WithKids(n, Plug(d, x)))
    ensures OkC(Inside(c, n, d)) && Offset(Inside(c, n, d)) == Offset(c) + TokSize(Head(n)) + Offset(d)
  {
    hide TokWords, Words, TokOk;
    var i := Into(n.name, n.npad, d, n.rest);
    PlugCompose(c, i, x);
    PlugCompose(c, i, Empty);
    OkPlug(c, Plug(i, Empty));
    OkPlug(d, Empty);
    OffsetCompose(c, i);
  }

  /** Replacing `m` bytes by `m'` bytes in front of a tail that only moves. */
  lemma {:induction false} Refill(s: seq<u8>, s': seq<u8>, c: Ctx, f: Forest, m: nat, g: Forest, m': nat, tail: Forest)
    requires OkC(c) && Ok(f) && Ok(g) && Ok(tail) && Holds(s, Plug(c, f)) && |s'| <= INT_MAX
    requires Size(f) == m + Size(tail) && Size(g) == m' + Size(tail)
    requires Spliced(s, Offset(c), m, s', m') && At(s', Offset(c), g)
    ensures Holds(s', Plug(c, g))
  {
    hide Be32, Plug, Ok, Offset, Words, At;
    var o, k := Offset(c), Size(tail);
    SizePlug(c, f);
    Move(s, o + m, s', o + m', |s| - o - m, k, |s| - o - m - k);
    assert Spliced(s, o, m + k, s', m' + k);
    hide Spliced;
    HoldsSplice(s, s', c, f, g);
  }

  lemma {:induction false} TailMoves(s: seq<u8>, s': seq<u8>, o: nat, m: nat, m': nat, tail: Forest)
    requires Spliced(s, o, m, s', m') && At(s, o + m, tail) && Aligned(o + m')
    ensures At(s', o + m', tail)
  {
    hide At, Words, Ok;
    AtFits(s, o + m, tail);
    Move(s, o + m, s', o + m', |s| - o - m, 0, Size(tail));
    AtMove(s, o + m, s', o + m', Size(tail), tail);
  }

  /** The bytes of one token replaced or inserted before `tail`, at place `d` of node `n`. */
  lemma {:induction false} PutProp(s: seq<u8>, s': seq<u8>, c: Ctx, n: Forest, d: Ctx, f: Forest, m: nat, tail: Forest,
                                   t: Token)
    requires n.Node? && OkC(c) && Ok(n) && OkC(d) && Ok(f) && Ok(tail) && n.kids == Plug(d, f)
    requires Holds(s, Plug(c, n)) && |s'| <= INT_MAX && Size(f) == m + Size(tail)
    requires var o := Offset(c) + TokSize(Head(n)) + Offset(d);
      At(s, o + m, tail) && Spliced(s, o, m, s', TokSize(t)) && TokAt(s', o, t) && t.PropTok?
    ensures Ok(Prop(t.nameoff, t.val, t.pad, tail))
    ensures Holds(s', Plug(c, WithKids(n, Plug(d, Prop(t.nameoff, t.val, t.pad, tail)))))
  {
    hide Be32, Plug, Offset, Words, At, Spliced, TokAt, Inside, TokWords;
    var g := Prop(t.nameoff, t.val, t.pad, tail);
    var e := Inside(c, n, d);
    InsideIs(c, n, d, f);
    InsideIs(c, n, d, g);
    assert WithKids(n, Plug(d, f)) == n;
    TokFits(s', Offset(e), t);
    TailMoves(s, s', Offset(e), m, TokSize(t), tail);
    AtIff(s', Offset(e), g);
    Refill(s, s', e, f, m, g, TokSize(t), tail);
  }

  /** The first `m` bytes at a place cut out: what followed them is now there. */
  lemma {:induction false} CutOut(s: seq<u8>, s': seq<u8>, c: Ctx, f: Forest, m: nat, tail: Forest)
    requires OkC(c) && Ok(f) && Ok(tail) && Holds(s, Plug(c, f)) && Size(f) == m + Size(tail)
    requires At(s, Offset(c) + m, tail) && Spliced(s, Offset(c), m, s', 0) && Aligned(Offset(c))
    ensures Holds(s', Plug(c, tail))
  {
    hide Be32, Plug, Offset, Words, At, Spliced;
    TailMoves(s, s', Offset(c), m, 0, tail);
    SplicedSize(s, s', Offset(c), m, 0);
    Refill(s, s', c, f, m, tail, 0, tail);
  }

  lemma {:induction false} SplicedSize(s: seq<u8>, s': seq<u8>, o: nat, m: nat, m': nat)
    requires Spliced(s, o, m, s', m')
    ensures |s'| == |s| - m + m' && o + m <= |s|
  {
  }

  /** `k` NOPs before a list. */
  ghost function Nops(k: nat, f: Forest): Forest {
    if k == 0 then f else Nop(Nops(k - 1, f))
  }

  /** NOPs are invisible: a list with NOPs in front reads as the list. */
  lemma {:induction false} NopsRead(k: nat, f: Forest, st: seq<u8>)
    ensures Props(Nops(k, f), st) == Props(f, st) && Kids(Nops(k, f), st) == Kids(f, st)
    ensures Named(Nops(k, f), st) == Named(f, st)
  {
    if k > 0 { NopsRead(k - 1, f, st); }
  }

  /** Every word from `o` up to `o + 4 * k` is FDT_NOP. */
  ghost predicate AllNops(s: seq<u8>, o: nat, k: nat)
    requires o + 4 * k <= |s|
    decreases k
  {
    k == 0 || (Be32(s, o) == FDT_NOP && AllNops(s, o + 4, k - 1))
  }

  /** One more word, written without touching the ones before it. */
  lemma {:induction false} MoreNops(s: seq<u8>, s': seq<u8>, o: nat, k: nat)
    requires o + 4 * k + 4 <= |s| == |s'| && AllNops(s, o, k)
    requires s[0..o + 4 * k] == s'[0..o + 4 * k] && Be32(s', o + 4 * k) == FDT_NOP
    ensures AllNops(s', o, k + 1)
    decreases k
  {
    hide Be32;
    if k > 0 {
      Move32(s, 0, s', 0, o + 4 * k, o);
      MoreNops(s, s', o + 4, k - 1);
    }
  }

  lemma {:induction false} NopsAt(s: seq<u8>, o: nat, k: nat, f: Forest)
    requires Aligned(o) && o + 4 * k <= |s| && AllNops(s, o, k) && At(s, o + 4 * k, f)
    ensures At(s, o, Nops(k, f)) && Size(Nops(k, f)) == 4 * k + Size(f)
    decreases k
  {
    hide Be32, Aligned, At, Words, TokAt, NextTag;
    if k > 0 {
      AlignedAdd(o, 1);
      NopsAt(s, o + 4, k - 1, f);
      WordTokAt(s, o, NopTok);
      AtIff(s, o, Nops(k, f));
    }
  }

  /** Overwriting the first `4 * k` bytes at a place with NOPs: what followed them has not moved. */
  lemma {:induction false} NopOut(s: seq<u8>, s': seq<u8>, c: Ctx, f: Forest, k: nat, tail: Forest)
    requires OkC(c) && Ok(f) && Ok(tail) && Holds(s, Plug(c, f)) && Size(f) == 4 * k + Size(tail)
    requires At(s, Offset(c) + 4 * k, tail) && Patched(s, s', Offset(c), 4 * k) && AllNops(s', Offset(c), k)
      && Aligned(Offset(c))
    ensures Holds(s', Plug(c, Nops(k, tail)))
  {
    hide Be32, Plug, Offset, Words, At, AllNops;
    var o := Offset(c);
    assert Spliced(s, o, 4 * k, s', 4 * k);
    AtFits(s, o + 4 * k, tail);
    hide Spliced;
    TailMoves(s, s', o, 4 * k, 4 * k, tail);
    NopsAt(s', o, k, tail);
    Refill(s, s', c, f, 4 * k, Nops(k, tail), 4 * k, tail);
  }

  /** A new empty node inserted at a place. */
  lemma {:induction false} PutNode(s: seq<u8>, s': seq<u8>, c: Ctx, tail: Forest, t: Token)
    requires OkC(c) && Ok(tail) && Holds(s, Plug(c, tail)) && At(s, Offset(c), tail) && |s'| <= INT_MAX
    requires Spliced(s, Offset(c), 0, s', TokSize(t) + 4) && TokAt(s', Offset(c), t) && t.Begin?
    requires TokAt(s', Offset(c) + TokSize(t), End)
    ensures Holds(s', Plug(c, Node(t.name, t.pad, Empty, tail)))
  {
    hide Be32, Plug, Offset, At, Spliced, TokAt, TokWords;
    var o, g := Offset(c), Node(t.name, t.pad, Empty, tail);
    TokFits(s', o, t);
    TokFits(s', o + TokSize(t), End);
    AtIff(s', o + TokSize(t), Empty);
    AtIff(s', o, g);
    TailMoves(s, s', o, 0, TokSize(t) + 4, tail);
    Refill(s, s', c, tail, 0, g, TokSize(t) + 4, tail);
  }

  lemma {:induction false} NodeAt(s: seq<u8>, c: Ctx, n: Forest)
    requires OkC(c) && Ok(n) && n.Node? && Holds(s, Plug(c, n))
    ensures At(s, Offset(c), n) && NodeStart(s, Offset(c)) == Offset(c) + TokSize(Head(n))
      && TokAt(s, Offset(c), Head(n))
    ensures Ok(n.kids) && Ok(n.rest) && At(s, Offset(c) + TokSize(Head(n)), n.kids)
      && At(s, Offset(c) + NodeSize(n), n.rest)
    ensures TokAt(s, Offset(c) + TokSize(Head(n)) + Size(n.kids), End)
    ensures Size(n) == NodeSize(n) + Size(n.rest) && Offset(c) + Size(n) <= |s| && Aligned(Offset(c))
    ensures Offset(c) + TokSize(Head(n)) + Size(n.kids) + 4 == Offset(c) + NodeSize(n)
  {
    hide Be32, Words, At, TokAt, TokWords, Plug, NodeStart, Visits, LastHop;
    AtPlug(s, 0, c, n);
    assert 0 + Offset(c) == Offset(c);
    AtIff(s, Offset(c), n);
    AtFits(s, Offset(c), n);
    VisitsNode(s, Offset(c), n);
  }

  /** Where a property of a node is, in offsets, in bytes and as a place of the forest. */
  ghost function PropOff(c: Ctx, n: Forest, st: seq<u8>, name: seq<u8>): int
    requires OkC(c) && Ok(n) && n.Node? && OkC(PropCtx(n.kids, st, name))
  {
    Offset(c) + TokSize(Head(n)) + Offset(PropCtx(n.kids, st, name))
  }

  lemma {:induction false} FocusAt(s: seq<u8>, c: Ctx, n: Forest, st: seq<u8>, name: seq<u8>)
    requires OkC(c) && Ok(n) && n.Node? && Holds(s, Plug(c, n))
    ensures var d, g := PropCtx(n.kids, st, name), PropFocus(n.kids, st, name);
      && OkC(d) && Ok(g) && Plug(d, g) == n.kids && At(s, Offset(c), n)
      && GetProp(s, st, Offset(c), name) == (if name in Props(n.kids, st) then PropOff(c, n, st, name) else NOTFOUND)
      && (name in Props(n.kids, st) ==>
            var o := PropOff(c, n, st, name);
            && g.Prop? && Str(st, g.nameoff) == Some(name) && Props(n.kids, st)[name] == g.val
            && TokAt(s, o, Head(g)) && Ok(g.rest) && At(s, o + TokSize(Head(g)), g.rest)
            && Size(g) == TokSize(Head(g)) + Size(g.rest) && o + TokSize(Head(g)) <= |s|)
  {
    hide Be32, Words, At, TokAt, TokWords, GetProp, Str, Plug, PropCtx, PropFocus, FindProp, Props;
    NodeAt(s, c, n);
    var i := Offset(c) + TokSize(Head(n));
    GetPropIs(s, Offset(c), n, st, name);
    PropCtxIs(n.kids, i, st, name);
    var d, g := PropCtx(n.kids, st, name), PropFocus(n.kids, st, name);
    if name in Props(n.kids, st) {
      AtPlug(s, i, d, g);
      AtIff(s, i + Offset(d), g);
    }
  }

  /** The node with its property's token replaced, or with a new property in front. */
  ghost function Reset(n: Forest, st: seq<u8>, name: seq<u8>, t: Token): Forest
    requires n.Node? && t.PropTok? && PropFocus(n.kids, st, name).Prop?
  {
    WithKids(n, Plug(PropCtx(n.kids, st, name), Prop(t.nameoff, t.val, t.pad, PropFocus(n.kids, st, name).rest)))
  }

  ghost function Preset(n: Forest, t: Token): Forest
    requires n.Node? && t.PropTok?
  {
    WithKids(n, Prop(t.nameoff, t.val, t.pad, n.kids))
  }

  ghost function SetIn(t: Tree, name: seq<u8>, val: seq<u8>): Tree {
    t.(props := t.props[name := val])
  }

  lemma {:induction false} NamedFocus(c: Ctx, n: Forest, d: Ctx, f: Forest, g: Forest, st: seq<u8>)
    requires n.Node? && n.kids == Plug(d, f) && Named(Plug(c, n), st)
    requires Named(f, st) ==> Named(g, st)
    ensures Named(f, st) && Named(g, st) && Named(Plug(c, WithKids(n, Plug(d, g))), st)
  {
    NamedPlug(c, n, st);
    NamedPlug(d, f, st);
    NamedPlug(d, g, st);
    NamedPlug(c, WithKids(n, Plug(d, g)), st);
  }

  lemma {:induction false} SetExisting(s: seq<u8>, s': seq<u8>, c: Ctx, n: Forest, st: seq<u8>, name: seq<u8>, t: Token)
    requires OkC(c) && Ok(n) && n.Node? && Holds(s, Plug(c, n)) && Named(Plug(c, n), st) && |s'| <= INT_MAX
    requires name in Props(n.kids, st) && OkC(PropCtx(n.kids, st, name)) && t.PropTok?
    requires var g := PropFocus(n.kids, st, name); var o := PropOff(c, n, st, name);
      g.Prop? && Ok(g) && t.nameoff == g.nameoff && Spliced(s, o, TokSize(Head(g)), s', TokSize(t)) && TokAt(s', o, t)
    ensures var n2 := Reset(n, st, name, t);
      && Ok(n2) && Holds(s', Plug(c, n2)) && Named(Plug(c, n2), st)
      && TreeOf(n2, st) == SetIn(TreeOf(n, st), name, t.val)
  {
    hide Be32, Words, At, TokAt, TokWords, GetProp, Str, Plug, PropCtx, PropFocus, Props, Kids, Spliced, Holds;
    FocusAt(s, c, n, st, name);
    var d, g := PropCtx(n.kids, st, name), PropFocus(n.kids, st, name);
    PutProp(s, s', c, n, d, g, TokSize(Head(g)), g.rest, t);
    SetFocus(n.kids, st, name, t.nameoff, t.val, t.pad);
    NamedFocus(c, n, d, g, Prop(t.nameoff, t.val, t.pad, g.rest), st);
    OkPlug(d, Prop(t.nameoff, t.val, t.pad, g.rest));
  }

  lemma {:induction false} SetNew(s: seq<u8>, s': seq<u8>, c: Ctx, n: Forest, st: seq<u8>, st': seq<u8>, name: seq<u8>,
                                  t: Token)
    requires OkC(c) && Ok(n) && n.Node? && Holds(s, Plug(c, n)) && Named(Plug(c, n), st) && |s'| <= INT_MAX
    requires Extends(st, st') && t.PropTok? && Str(st', t.nameoff) == Some(name)
    requires var o := Offset(c) + TokSize(Head(n)); Spliced(s, o, 0, s', TokSize(t)) && TokAt(s', o, t)
    ensures var n2 := Preset(n, t);
      && Ok(n2) && Holds(s', Plug(c, n2)) && Named(Plug(c, n2), st')
      && TreeOf(n2, st') == SetIn(TreeOf(n, st), name, t.val)
  {
    hide Be32, Words, At, TokAt, TokWords, Str, Plug, Spliced, Holds, Extends;
    NodeAt(s, c, n);
    PlugHole(n.kids);
    PlugHole(Prop(t.nameoff, t.val, t.pad, n.kids));
    PutProp(s, s', c, n, Hole, n.kids, 0, n.kids, t);
    ExtendsKeeps(Plug(c, n), st, st');
    NamedPlug(c, n, st);
    ExtendsKeeps(n.kids, st, st');
    NamedFocus(c, n, Hole, n.kids, Prop(t.nameoff, t.val, t.pad, n.kids), st');
  }

  lemma {:induction false} PlugHole(f: Forest)
    ensures Plug(Hole, f) == f && OkC(Hole) && Offset(Hole) == 0
  {
  }

  /** The node without its property of that name: its token gone, or overwritten with NOPs. */
  ghost function Dropped(n: Forest, st: seq<u8>, name: seq<u8>, k: nat): Forest
    requires n.Node? && PropFocus(n.kids, st, name).Prop?
  {
    WithKids(n, Plug(PropCtx(n.kids, st, name), Nops(k, PropFocus(n.kids, st, name).rest)))
  }

  ghost function DelIn(t: Tree, name: seq<u8>, below: map<seq<u8>, seq<u8>>): Tree {
    t.(props := Uncovered(t.props, name, below))
  }

  /** Deleting a property and overwriting it with NOPs read the same. */
  lemma {:induction false} DroppedReads(n: Forest, st: seq<u8>, name: seq<u8>, k: nat, c: Ctx)
    requires n.Node? && PropFocus(n.kids, st, name).Prop? && Named(Plug(c, n), st) && Ok(n) && OkC(c)
    ensures var n2 := Dropped(n, st, name, k);
      TreeOf(n2, st) == DelIn(TreeOf(n, st), name, Below(n.kids, st, name)) && Named(Plug(c, n2), st)
  {
    hide Str, Plug, PropCtx, PropFocus, Props, Kids, Uncovered, Below;
    var d, g := PropCtx(n.kids, st, name), PropFocus(n.kids, st, name);
    PropCtxIs(n.kids, 0, st, name);
    DropFocus(n.kids, st, name);
    NopsRead(k, g.rest, st);
    PlugReads(d, g.rest, Nops(k, g.rest), st);
    NamedFocus(c, n, d, g, Nops(k, g.rest), st);
  }

  /** A property cut out of the block. */
  lemma {:induction false} CutProp(s: seq<u8>, s': seq<u8>, c: Ctx, n: Forest, st: seq<u8>, name: seq<u8>)
    requires OkC(c) && Ok(n) && n.Node? && Holds(s, Plug(c, n)) && OkC(PropCtx(n.kids, st, name))
    requires name in Props(n.kids, st) && Ok(PropFocus(n.kids, st, name)) && PropFocus(n.kids, st, name).Prop?
    requires Spliced(s, PropOff(c, n, st, name), TokSize(Head(PropFocus(n.kids, st, name))), s', 0)
    ensures Ok(Dropped(n, st, name, 0)) && Holds(s', Plug(c, Dropped(n, st, name, 0)))
  {
    hide Be32, Words, At, TokAt, TokWords, GetProp, Str, Plug, PropCtx, PropFocus, Props, Spliced, Holds, Inside,
      Aligned, Offset;
    FocusAt(s, c, n, st, name);
    var d, g := PropCtx(n.kids, st, name), PropFocus(n.kids, st, name);
    InsideIs(c, n, d, g);
    InsideIs(c, n, d, g.rest);
    OkPlug(d, g.rest);
    assert WithKids(n, n.kids) == n && Nops(0, g.rest) == g.rest;
    CutOut(s, s', Inside(c, n, d), g, TokSize(Head(g)), g.rest);
  }

  /** A property overwritten with NOPs. */
  lemma {:induction false} NopProp(s: seq<u8>, s': seq<u8>, c: Ctx, n: Forest, st: seq<u8>, name: seq<u8>)
    requires OkC(c) && Ok(n) && n.Node? && Holds(s, Plug(c, n)) && OkC(PropCtx(n.kids, st, name))
    requires name in Props(n.kids, st) && Ok(PropFocus(n.kids, st, name)) && PropFocus(n.kids, st, name).Prop?
    requires var o, k := PropOff(c, n, st, name), TokWords(Head(PropFocus(n.kids, st, name)));
      Patched(s, s', o, 4 * k) && AllNops(s', o, k)
    ensures var k := TokWords(Head(PropFocus(n.kids, st, name)));
      Ok(Dropped(n, st, name, k)) && Holds(s', Plug(c, Dropped(n, st, name, k)))
  {
    hide Be32, Words, At, TokAt, TokWords, GetProp, Str, Plug, PropCtx, PropFocus, Props, Patched, AllNops, Holds,
      Inside, Aligned, Offset;
    FocusAt(s, c, n, st, name);
    var d, g := PropCtx(n.kids, st, name), PropFocus(n.kids, st, name);
    var k := TokWords(Head(g));
    InsideIs(c, n, d, g);
    OkNops(k, g.rest);
    InsideIs(c, n, d, Nops(k, g.rest));
    OkPlug(d, Nops(k, g.rest));
    assert WithKids(n, n.kids) == n;
    NopOut(s, s', Inside(c, n, d), g, k, g.rest);
  }

  lemma {:induction false} OkNops(k: nat, f: Forest)
    requires Ok(f)
    ensures Ok(Nops(k, f))
  {
    if k > 0 { OkNops(k - 1, f); }
  }

  // ---------- Children ----------

  /** The first child whose name matches, by position. */
  ghost function ChildIndex(ts: seq<Tree>, name: seq<u8>): int {
    if ts == [] then -1
    else if NameEq(ts[0].name, name) then 0
    else if ChildIndex(ts[1..], name) < 0 then -1 else ChildIndex(ts[1..], name) + 1
  }

  ghost function ChildCtx(f: Forest, name: seq<u8>): Ctx {
    match f
    case Empty => Hole
    case Prop(nameoff, val, pad, rest) => PastProp(nameoff, val, pad, ChildCtx(rest, name))
    case Nop(rest) => PastNop(ChildCtx(rest, name))
    case Node(nm, npad, kids, rest) => if NameEq(nm, name) then Hole else PastNode(nm, npad, kids, ChildCtx(rest, name))
  }

  ghost function ChildFocus(f: Forest, name: seq<u8>): Forest {
    match f
    case Empty => f
    case Node(nm, _, _, rest) => if NameEq(nm, name) then f else ChildFocus(rest, name)
    case _ => ChildFocus(f.rest, name)
  }

  lemma {:induction false} ChildPlace(f: Forest, off: int, name: seq<u8>)
    requires Ok(f)
    ensures var c, g := ChildCtx(f, name), ChildFocus(f, name);
      && Plug(c, g) == f && OkC(c) && Ok(g)
      && FindChild(f, off, name) == if g.Node? then Some(off + Offset(c)) else None
    decreases f
  {
    hide NameEq, TokWords;
    match f {
      case Empty =>
      case Prop(_, _, _, rest) => ChildPlace(rest, off + TokSize(Head(f)), name);
      case Nop(rest) => ChildPlace(rest, off + TokSize(Head(f)), name);
      case Node(_, _, _, rest) => ChildPlace(rest, off + NodeSize(f), name);
    }
  }

  lemma {:induction false} ChildTree(f: Forest, name: seq<u8>, st: seq<u8>)
    ensures var g, i := ChildFocus(f, name), ChildIndex(Kids(f, st), name);
      && i < |Kids(f, st)| && (i >= 0 <==> g.Node?)
      && (i >= 0 ==> Kids(f, st)[i] == TreeOf(g, st) && NameEq(g.name, name))
    decreases f
  {
    hide NameEq, Props;
    match f {
      case Empty =>
      case Prop(_, _, _, rest) => ChildTree(rest, name, st);
      case Nop(rest) => ChildTree(rest, name, st);
      case Node(_, _, _, rest) =>
        ChildTree(rest, name, st);
        assert Kids(f, st)[1..] == Kids(rest, st);
    }
  }

  /** The child that a name focuses on, by the children's names. */
  lemma {:induction false} FocusByName(f: Forest, name: seq<u8>)
    ensures forall k: nat :: FirstCalled(ChildNames(f), name, k) ==>
      NthNode(f, k).Some? && ChildFocus(f, name) == NthNode(f, k).value
    ensures NoneCalled(ChildNames(f), name) <==> !ChildFocus(f, name).Node?
    decreases f
  {
    hide NameEq, Called, FirstCalled, NoneCalled;
    match f {
      case Empty => NoNames(name);
      case Prop(_, _, _, rest) => FocusByName(rest, name);
      case Nop(rest) => FocusByName(rest, name);
      case Node(x, _, _, rest) =>
        CalledIs(x, name);
        AllNames(x, ChildNames(rest), name);
        FocusByName(rest, name);
        forall k: nat | FirstCalled(ChildNames(f), name, k)
          ensures NthNode(f, k).Some? && ChildFocus(f, name) == NthNode(f, k).value
        {
          FirstCalledNext(x, ChildNames(rest), name, k);
        }
    }
  }


  /** Replacing that child replaces one entry of the list of children. */
  lemma {:induction false} ChildReset(f: Forest, name: seq<u8>, g: Forest, st: seq<u8>)
    requires ChildFocus(f, name).Node? && g.Node? && g.rest == ChildFocus(f, name).rest
    ensures var i := ChildIndex(Kids(f, st), name);
      && 0 <= i < |Kids(f, st)|
      && Kids(Plug(ChildCtx(f, name), g), st) == Kids(f, st)[i := TreeOf(g, st)]
      && Props(Plug(ChildCtx(f, name), g), st) == Props(f, st)
    decreases f
  {
    hide NameEq;
    match f {
      case Prop(_, _, _, rest) => ChildReset(rest, name, g, st);
      case Nop(rest) => ChildReset(rest, name, g, st);
      case Node(nm, _, _, rest) =>
        assert Kids(f, st)[1..] == Kids(rest, st);
        if !NameEq(nm, name) { ChildReset(rest, name, g, st); }
      case Empty =>
    }
  }

  /** A node's tag, its name in zeroed words, and FDT_END_NODE. */
  lemma {:induction false} NodeBytes(s: seq<u8>, s1: seq<u8>, s2: seq<u8>, s3: seq<u8>, s4: seq<u8>, o: nat,
                                     name: seq<u8>, pad: seq<u8>)
    requires 0 !in name && |pad| == PadLen(|name| + 1) && Aligned(o)
    requires var t := TokSize(Begin(name, pad));
      && Spliced(s, o, 0, s1, t + 4)
      && Patched(s1, s2, o, 4) && s2[o..o + 4] == Put32(FDT_BEGIN_NODE)
      && Patched(s2, s3, o + 4, t - 4) && s3[o + 4..o + t] == name + [0] + pad
      && Patched(s3, s4, o + t, 4) && s4[o + t..o + t + 4] == Put32(FDT_END_NODE)
    ensures var t := Begin(name, pad);
      Spliced(s, o, 0, s4, TokSize(t) + 4) && TokAt(s4, o, t) && TokAt(s4, o + TokSize(t), End)
  {
    hide Be32, Put32, Aligned, PadLen, TokWords, Spliced, Patched, TokAt;
    var b := Begin(name, pad);
    var t := TokSize(b);
    TokSizes(b);
    SplicedSize(s, s1, o, 0, t + 4);
    PatchedSize(s1, s2, o, 4);
    PatchedSize(s2, s3, o + 4, t - 4);
    PatchedSize(s3, s4, o + t, 4);
    SplicePatch(s, o, 0, s1, t + 4, s2, o, 4);
    SplicePatch(s, o, 0, s2, t + 4, s3, o + 4, t - 4);
    SplicePatch(s, o, 0, s3, t + 4, s4, o + t, 4);
    PatchWord(s2, o, FDT_BEGIN_NODE);
    PatchWord(s4, o + t, FDT_END_NODE);
    PatchKeeps(s2, s3, o + 4, t - 4, o);
    PatchKeeps(s3, s4, o + t, 4, o);
    Untouched(s3, s4, o + t, 4, o + 4, o + t);
    BeginTok(s4, o, name, pad);
    AlignedAdd(o, TokWords(b));
    EndTok(s4, o + t);
  }

  lemma {:induction false} BeginTok(s: seq<u8>, o: nat, name: seq<u8>, pad: seq<u8>)
    requires 0 !in name && |pad| == PadLen(|name| + 1) && Aligned(o) && o + TokSize(Begin(name, pad)) <= |s|
    requires Be32(s, o) == FDT_BEGIN_NODE && s[o + 4..o + TokSize(Begin(name, pad))] == name + [0] + pad
    ensures TokAt(s, o, Begin(name, pad))
  {
    hide Be32, Aligned, PadLen, TokWords;
    TokSizes(Begin(name, pad));
    NameBytes(s, o + 4, name, pad);
  }

  lemma {:induction false} EndTok(s: seq<u8>, o: nat)
    requires Aligned(o) && o + 4 <= |s| && Be32(s, o) == FDT_END_NODE
    ensures TokAt(s, o, End)
  {
    hide Be32, Aligned;
  }

  lemma {:induction false} NameBytes(s: seq<u8>, x: nat, name: seq<u8>, pad: seq<u8>)
    requires x + |name| + 1 + |pad| <= |s| && s[x..x + |name| + 1 + |pad|] == name + [0] + pad
    ensures s[x..x + |name|] == name && s[x + |name|] == 0 && s[x + |name| + 1..x + |name| + 1 + |pad|] == pad
  {
    var v, n := name + [0] + pad, |name| + 1 + |pad|;
    Slice(s, x, n, 0, |name|);
    Slice(s, x, n, |name| + 1, n);
    assert v[0..|name|] == name && v[|name| + 1..n] == pad;
    assert s[x..x + n][|name|] == v[|name|] == 0;
  }

  /** Patches inside the new piece of a splice keep it a splice. */
  lemma {:induction false} SplicePatch(s: seq<u8>, o: nat, n: nat, s1: seq<u8>, n': nat, s2: seq<u8>, x: nat, k: nat)
    requires Spliced(s, o, n, s1, n') && Patched(s1, s2, x, k) && o <= x && x + k <= o + n'
    ensures Spliced(s, o, n, s2, n')
  {
    Move(s1, 0, s2, 0, x, 0, o);
    Move(s1, x + k, s2, x + k, |s1| - x - k, o + n' - x - k, |s1| - o - n');
  }

  /** The node with a new empty child, its first. */
  ghost function Adopted(n: Forest, name: seq<u8>, pad: seq<u8>): Forest
    requires n.Node?
  {
    WithKids(n, Plug(RunCtx(n.kids), Node(name, pad, Empty, RunTail(n.kids))))
  }

  ghost function AddIn(t: Tree, name: seq<u8>): Tree {
    t.(children := [Tree(name, map[], [])] + t.children)
  }

  lemma {:induction false} OkRun(f: Forest)
    requires Ok(f)
    ensures OkC(RunCtx(f)) && Ok(RunTail(f))
  {
    InsertFocus(f, [], [], []);
    OkPlug(RunCtx(f), RunTail(f));
  }

  lemma {:induction false} Adopt(s: seq<u8>, s': seq<u8>, c: Ctx, n: Forest, st: seq<u8>, t: Token)
    requires OkC(c) && Ok(n) && n.Node? && Holds(s, Plug(c, n)) && Named(Plug(c, n), st) && |s'| <= INT_MAX
    requires OkC(RunCtx(n.kids)) && t.Begin?
    requires var o := Offset(c) + TokSize(Head(n)) + Offset(RunCtx(n.kids));
      Spliced(s, o, 0, s', TokSize(t) + 4) && TokAt(s', o, t) && TokAt(s', o + TokSize(t), End)
    ensures var n2 := Adopted(n, t.name, t.pad);
      && Ok(n2) && Holds(s', Plug(c, n2)) && Named(Plug(c, n2), st)
      && TreeOf(n2, st) == AddIn(TreeOf(n, st), t.name)
  {
    hide Be32, Words, At, TokAt, TokWords, Str, Plug, RunCtx, RunTail, Props, Kids, Spliced, Holds, Inside, Aligned,
      Offset;
    var d, f := RunCtx(n.kids), RunTail(n.kids);
    var g := Node(t.name, t.pad, Empty, f);
    NodeAt(s, c, n);
    OkRun(n.kids);
    InsertFocus(n.kids, st, t.name, t.pad);
    assert WithKids(n, n.kids) == n;
    InsideIs(c, n, d, f);
    NodeAtInside(s, c, n, d, f);
    PutNode(s, s', Inside(c, n, d), f, t);
    OkPlug(d, g);
    InsideIs(c, n, d, g);
    NamedFocus(c, n, d, f, g, st);
  }

  lemma {:induction false} NodeAtInside(s: seq<u8>, c: Ctx, n: Forest, d: Ctx, f: Forest)
    requires OkC(c) && Ok(n) && n.Node? && Holds(s, Plug(c, n)) && n.kids == Plug(d, f) && OkC(d) && Ok(f)
    ensures OkC(Inside(c, n, d)) && At(s, Offset(Inside(c, n, d)), f)
  {
    hide Be32, At, TokAt, TokWords, Plug, Inside, Offset;
    NodeAt(s, c, n);
    InsideIs(c, n, d, f);
    AtPlug(s, Offset(c) + TokSize(Head(n)), d, f);
  }

  /** The first tag after a run of properties and NOPs. */
  function SkipRun(s: seq<u8>, off: nat): int
    decreases |s| - off
  {
    var t := NextTag(s, off);
    if t.tag != FDT_PROP && t.tag != FDT_NOP then off
    else if t.next == off then DIVERGES
    else SkipRun(s, t.next)
  }

  method SkipRunLoop(s: seq<u8>, off: nat) returns (r: int)
    ensures r == SkipRun(s, off)
  {
    hide NextTag;
    r := off;
    var tag, next := NextTagScan(s, r);
    while tag == FDT_PROP || tag == FDT_NOP
      invariant 0 <= r && Step(tag, next) == NextTag(s, r) && SkipRun(s, r) == SkipRun(s, off)
      decreases |s| - r
    {
      if next == r { return DIVERGES; }
      r := next;
      tag, next := NextTagScan(s, r);
    }
  }

  lemma {:induction false} SkipRunIs(s: seq<u8>, off: nat, f: Forest)
    requires At(s, off, f) && TokAt(s, off + Size(f), End)
    ensures OkC(RunCtx(f)) && SkipRun(s, off) == off + Offset(RunCtx(f))
    decreases f
  {
    hide NextTag, TokAt, TokWords, At, Words;
    AtIff(s, off, f);
    OkRun(f);
    match f {
      case Empty => NextTagAt(s, off, End);
      case Node(_, _, _, _) => NextTagAt(s, off, Head(f));
      case Nop(rest) =>
        NextTagAt(s, off, Head(f));
        SkipRunIs(s, off + TokSize(Head(f)), rest);
      case Prop(_, _, _, rest) =>
        NextTagAt(s, off, Head(f));
        SkipRunIs(s, off + TokSize(Head(f)), rest);
    }
  }

  /** A node cut out of the block, or overwritten with NOPs. */
  lemma {:induction false} CutNode(s: seq<u8>, s': seq<u8>, c: Ctx, n: Forest, st: seq<u8>)
    requires OkC(c) && Ok(n) && n.Node? && Holds(s, Plug(c, n)) && Named(Plug(c, n), st)
    requires Spliced(s, Offset(c), NodeSize(n), s', 0)
    ensures Ok(n.rest) && Holds(s', Plug(c, n.rest)) && Named(Plug(c, n.rest), st)
  {
    hide Be32, Words, At, TokAt, TokWords, Plug, Spliced, Holds, Aligned, Offset;
    NodeAt(s, c, n);
    CutOut(s, s', c, n, NodeSize(n), n.rest);
    NamedPlug(c, n, st);
    NamedPlug(c, n.rest, st);
  }

  ghost function NodeWords(n: Forest): nat
    requires n.Node? && Ok(n)
  {
    TokWords(Head(n)) + Words(n.kids) + 1
  }

  lemma {:induction false} BlankNode(s: seq<u8>, s': seq<u8>, c: Ctx, n: Forest, st: seq<u8>)
    requires OkC(c) && Ok(n) && n.Node? && Holds(s, Plug(c, n)) && Named(Plug(c, n), st)
    requires Patched(s, s', Offset(c), 4 * NodeWords(n)) && AllNops(s', Offset(c), NodeWords(n))
    ensures var f := Nops(NodeWords(n), n.rest);
      && NodeSize(n) == 4 * NodeWords(n) && Holds(s', Plug(c, f)) && Named(Plug(c, f), st) && Ok(n.rest)
      && Kids(Plug(c, f), st) == Kids(Plug(c, n.rest), st) && Props(Plug(c, f), st) == Props(Plug(c, n.rest), st)
  {
    hide Be32, At, TokAt, Plug, Patched, AllNops, Holds, Aligned, Offset, Props, Kids;
    var k := NodeWords(n);
    NodeAt(s, c, n);
    NopOut(s, s', c, n, k, n.rest);
    NamedPlug(c, n, st);
    NamedPlug(c, Nops(k, n.rest), st);
    NopsRead(k, n.rest, st);
    PlugReads(c, Nops(k, n.rest), n.rest, st);
  }

  /** A value with some of its bytes overwritten. */
  function Overwrite(val: seq<u8>, x: nat, v: seq<u8>): (w: seq<u8>)
    requires x + |v| <= |val|
    ensures |w| == |val|
  {
    val[..x] + v + val[x + |v|..]
  }

  lemma {:induction false} PatchProp(s: seq<u8>, s': seq<u8>, c: Ctx, n: Forest, st: seq<u8>, name: seq<u8>, x: nat,
                                     v: seq<u8>, g: Forest)
    requires OkC(c) && Ok(n) && n.Node? && Holds(s, Plug(c, n)) && Named(Plug(c, n), st)
    requires name in Props(n.kids, st) && OkC(PropCtx(n.kids, st, name))
    requires g == PropFocus(n.kids, st, name) && g.Prop? && x + |v| <= |g.val|
    requires var o := PropOff(c, n, st, name); Patched(s, s', o + 12 + x, |v|) && s'[o + 12 + x..o + 12 + x + |v|] == v
    ensures var w := Overwrite(g.val, x, v); var n2 := Reset(n, st, name, PropTok(g.nameoff, w, g.pad));
      && Ok(n2) && Holds(s', Plug(c, n2)) && Named(Plug(c, n2), st)
      && TreeOf(n2, st) == SetIn(TreeOf(n, st), name, w)
  {
    hide Be32, Words, At, TokAt, TokWords, GetProp, Str, Plug, PropCtx, PropFocus, Props, Kids, Aligned, TreeOf, SetIn,
      Named, Spliced, Patched, Overwrite;
    FocusAt(s, c, n, st, name);
    var o := PropOff(c, n, st, name);
    var t := PropTok(g.nameoff, Overwrite(g.val, x, v), g.pad);
    PropWords(s, o, Head(g));
    PatchedTok(s, s', o, Head(g), x, v);
    WiderPatch(s, s', o, TokSize(t), o + 12 + x, |v|);
    PatchedSize(s, s', o + 12 + x, |v|);
    SetExisting(s, s', c, n, st, name, t);
  }

  /** Overwriting part of a value moves no property. */
  lemma {:induction false} SamePlace(s: seq<u8>, s': seq<u8>, c: Ctx, n: Forest, st: seq<u8>, name: seq<u8>, t: Token)
    requires OkC(c) && Ok(n) && n.Node? && Holds(s, Plug(c, n)) && name in Props(n.kids, st)
    requires PropFocus(n.kids, st, name).Prop? && t.PropTok? && Str(st, t.nameoff) == Some(name)
    requires var n2 := Reset(n, st, name, t); Ok(n2) && Holds(s', Plug(c, n2)) && name in Props(n2.kids, st)
    ensures GetProp(s', st, Offset(c), name) == GetProp(s, st, Offset(c), name)
  {
    hide Be32, Words, At, TokAt, TokWords, GetProp, Str, Plug, PropCtx, PropFocus, Props, Holds, Offset;
    SameFocus(n.kids, st, name, t.nameoff, t.val, t.pad);
    FocusAt(s, c, n, st, name);
    FocusAt(s', c, Reset(n, st, name, t), st, name);
  }

  lemma {:induction false} WiderPatch(s: seq<u8>, s': seq<u8>, o: nat, n: nat, x: nat, k: nat)
    requires Patched(s, s', x, k) && o <= x && x + k <= o + n <= |s|
    ensures Spliced(s, o, n, s', n)
  {
    Move(s, 0, s', 0, x, 0, o);
    Move(s, x + k, s', x + k, |s| - x - k, o + n - x - k, |s| - o - n);
  }

  lemma {:induction false} PatchedTok(s: seq<u8>, s': seq<u8>, o: nat, t: Token, x: nat, v: seq<u8>)
    requires TokAt(s, o, t) && t.PropTok? && x + |v| <= |t.val|
    requires Patched(s, s', o + 12 + x, |v|) && s'[o + 12 + x..o + 12 + x + |v|] == v
    ensures var u := PropTok(t.nameoff, Overwrite(t.val, x, v), t.pad); TokSize(u) == TokSize(t) && TokAt(s', o, u)
  {
    hide Be32, Aligned, Patched, Overwrite;
    var p, k := o + 12 + x, |v|;
    PatchKeeps(s, s', p, k, o);
    PatchKeeps(s, s', p, k, o + 4);
    PatchKeeps(s, s', p, k, o + 8);
    PatchedSize(s, s', p, k);
    PatchedValue(s, s', o + 12, t.val, x, v);
    Untouched(s, s', p, k, o + 12 + |t.val|, o + 12 + |t.val| + |t.pad|);
  }

  lemma {:induction false} PatchedValue(s: seq<u8>, s': seq<u8>, b: nat, val: seq<u8>, x: nat, v: seq<u8>)
    requires x + |v| <= |val| && b + |val| <= |s| && s[b..b + |val|] == val
    requires Patched(s, s', b + x, |v|) && s'[b + x..b + x + |v|] == v
    ensures s'[b..b + |val|] == Overwrite(val, x, v)
  {
    hide Patched;
    var l, k := |val|, |v|;
    PatchedSize(s, s', b + x, k);
    Untouched(s, s', b + x, k, b, b + x);
    Untouched(s, s', b + x, k, b + x + k, b + l);
    Slice(s, b, l, 0, x);
    Slice(s, b, l, x + k, l);
    ThreeParts(s', b, b + x, b + x + k, b + l);
  }

  lemma {:induction false} ThreeParts(s: seq<u8>, i: nat, j: nat, k: nat, l: nat)
    requires i <= j <= k <= l <= |s|
    ensures s[i..l] == s[i..j] + s[j..k] + s[k..l]
  {
  }
}
