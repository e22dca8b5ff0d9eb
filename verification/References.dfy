/**
 overlay_update_local_references: the references of an overlay moved in place, its fixup lists read from the same blob.
 */
module References {
  import opened Bytes
  import opened Memory
  import opened Structure
  import opened Zipper
  import Walk
  import opened Lookup
  import Check
  import opened Tree
  import opened Edit
  import opened InPlace
  import opened Blob
  import Rw
  import opened Phandle
  import opened Overlay

  // ---------- Where the source returns what ----------

  /** The bytes of a blob from the start of its structure block on. */
  function Reach(h: Header): int {
    h.totalsize - h.offStruct
  }

  /** The offset of the value of property `prop` of the node that `names` leads to from a node at `node`. */
  ghost function ValuePlace(n: Forest, node: int, st: seq<u8>, names: seq<seq<u8>>, prop: seq<u8>): int
    requires n.Node? && Ok(n)
    decreases |names|
  {
    var i := node + TokSize(Head(n));
    if names == [] then
      match FindProp(n.kids, i, st, prop) case Some(o) => o + 12 case None => -1
    else
      ChildPlace(n.kids, i, names[0]);
      match FindChild(n.kids, i, names[0])
      case Some(o) => ValuePlace(ChildFocus(n.kids, names[0]), o, st, names[1..], prop)
      case None => -1
  }

  /** The error for a word at offset `p` of a value at `at` that is not inside that value. */
  function MissErr(at: int, p: int, reach: int): int {
    if at + p + 4 > reach then READS_OUTSIDE else BADOVERLAY
  }

  /**
   What the source returns. A listed offset that does not lie inside its value is an error, but the word there is
   read before that is found out: READS_OUTSIDE when it lies behind the blob.
   */
  ghost function FixErr<T>(r: Fix<T>, n: Forest, node: int, st: seq<u8>, reach: int): int
    requires n.Node? && Ok(n)
  {
    match r
    case Fixed(_) => 0
    case Unfit => BADOVERLAY
    case Missed(names, prop, p) => MissErr(ValuePlace(n, node, st, names, prop), p, reach)
  }

  lemma {:induction false} AlikePlace(n: Forest, m: Forest, node: int, st: seq<u8>, names: seq<seq<u8>>, prop: seq<u8>)
    requires n.Node? && Ok(n) && Alike(n, m, st, AnyName())
    ensures Ok(m) && ValuePlace(m, node, st, names, prop) == ValuePlace(n, node, st, names, prop)
    decreases |names|
  {
    hide TokWords, Words, Str, FindProp, FindChild, ChildFocus, Ok, Plug;
    AlikeSize(n, m, st, AnyName());
    var i := node + TokSize(Head(n));
    AtIff([], 0, n);
    if names == [] {
      AlikeProp(n.kids, m.kids, st, AnyName(), i, prop);
    } else {
      AlikeChild(n.kids, m.kids, st, AnyName(), i, names[0]);
      ChildPlace(n.kids, i, names[0]);
      ChildPlace(m.kids, i, names[0]);
      if FindChild(n.kids, i, names[0]).Some? {
        AlikePlace(ChildFocus(n.kids, names[0]), ChildFocus(m.kids, names[0]), FindChild(n.kids, i, names[0]).value,
          st, names[1..], prop);
      }
    }
  }

  lemma {:induction false} AlikeErr<T>(r: Fix<T>, n: Forest, m: Forest, node: int, st: seq<u8>, reach: int)
    requires n.Node? && Ok(n) && Alike(n, m, st, AnyName())
    ensures Ok(m) && FixErr(r, m, node, st, reach) == FixErr(r, n, node, st, reach)
  {
    hide Alike, SameHidden, ValuePlace, Ok;
    AlikeSize(n, m, st, AnyName());
    if r.Missed? { AlikePlace(n, m, node, st, r.names, r.prop); }
  }

  lemma {:induction false} ErrZero<T>(r: Fix<T>, n: Forest, node: int, st: seq<u8>, reach: int)
    requires n.Node? && Ok(n)
    ensures FixErr(r, n, node, st, reach) == 0 <==> r.Fixed?
    ensures FixErr(r, n, node, st, reach) <= 0
  {
    hide Ok, ValuePlace;
  }

  // ---------- The lists ----------

  /** One element of a list by itself. */
  ghost function Alone(g: Forest): Forest
    requires !g.Empty?
  {
    g.(rest := Empty)
  }

  /** A fixup node by itself at `fixup` of the structure block. */
  ghost predicate ListsAt(s: seq<u8>, st: seq<u8>, fixup: int, x: Forest) {
    At(s, fixup, x) && x.Node? && x.rest.Empty? && Check.Named(x.kids, st)
  }

  lemma {:induction false} AloneAt(s: seq<u8>, st: seq<u8>, off: nat, g: Forest)
    requires At(s, off, g) && g.Node? && Check.Named(g.kids, st)
    ensures ListsAt(s, st, off, Alone(g)) && Size(Alone(g)) == NodeSize(Alone(g)) == NodeSize(g) <= Size(g)
  {
    hide TokAt, TokWords, Words, Check.Named;
    AtIff(s, off, g);
    AtIff(s, off, Alone(g));
    AtFits(s, off + NodeSize(g), g.rest);
    AtIff(s, off + NodeSize(g), Empty);
  }

  lemma {:induction false} ListsKept(s: seq<u8>, s': seq<u8>, st: seq<u8>, p: nat, k: nat, fixup: nat, x: Forest)
    requires ListsAt(s, st, fixup, x) && Patched(s, s', p, k) && Disjoint(p, k, fixup, NodeSize(x))
    ensures ListsAt(s', st, fixup, x)
  {
    hide At, TokAt, TokWords, Words, Patched, Check.Named;
    AtIff(s, fixup, x);
    AtIff(s, fixup + NodeSize(x), Empty);
    AtKept(s, s', p, k, fixup, x);
  }

  lemma {:induction false} CursorKept(s: seq<u8>, s': seq<u8>, st: seq<u8>, p: nat, k: nat, off: nat, f: Forest)
    requires CursorAt(s, st, off, f) && Patched(s, s', p, k) && Disjoint(p, k, off, Size(f) + 4)
    ensures CursorAt(s', st, off, f)
  {
    hide At, TokAt, Words, Patched, Check.Named;
    AtKept(s, s', p, k, off, f);
    TokKept(s, s', p, k, off + Size(f), End);
  }

  /** No child of the node `n` at `node` that a fixup in `f` names overlaps the `m` bytes at `a`. */
  ghost predicate Spares(n: Forest, node: int, f: Forest, a: int, m: int)
    requires n.Node? && Ok(n)
  {
    match f
    case Empty => true
    case Node(name, _, _, rest) => ChildSpares(n, node, name, a, m) && Spares(n, node, rest, a, m)
    case _ => Spares(n, node, f.rest, a, m)
  }

  ghost predicate ChildSpares(n: Forest, node: int, name: seq<u8>, a: int, m: int)
    requires n.Node? && Ok(n)
  {
    var i := node + TokSize(Head(n));
    ChildPlace(n.kids, i, name);
    match FindChild(n.kids, i, name)
    case Some(o) => Disjoint(o, NodeSize(ChildFocus(n.kids, name)), a, m)
    case None => true
  }

  /** Moving the references of `n` as the fixup node `x` says writes nothing into `x`. */
  ghost predicate Clear(n: Forest, node: int, x: Forest, fixup: int)
    requires n.Node? && Ok(n) && x.Node? && Ok(x)
  {
    Disjoint(node, Span(n), fixup, NodeSize(x)) && Spares(n, node, x.kids, fixup, NodeSize(x))
  }

  lemma {:induction false} AlikeSpares(n: Forest, m: Forest, node: int, f: Forest, a: int, k: int, st: seq<u8>)
    requires n.Node? && Ok(n) && Alike(n, m, st, AnyName()) && Spares(n, node, f, a, k)
    ensures Ok(m) && Spares(m, node, f, a, k)
    decreases f
  {
    hide TokWords, Words, Alike, SameHidden, FindChild, ChildFocus, Ok, ChildSpares;
    AlikeSize(n, m, st, AnyName());
    match f {
      case Empty =>
      case Node(name, _, _, rest) =>
        AlikeChildSpares(n, m, node, name, a, k, st);
        AlikeSpares(n, m, node, rest, a, k, st);
      case Prop(_, _, _, rest) => AlikeSpares(n, m, node, rest, a, k, st);
      case Nop(rest) => AlikeSpares(n, m, node, rest, a, k, st);
    }
  }

  lemma {:induction false} AlikeChildSpares(n: Forest, m: Forest, node: int, name: seq<u8>, a: int, k: int, st: seq<u8>)
    requires n.Node? && Ok(n) && Alike(n, m, st, AnyName()) && ChildSpares(n, node, name, a, k)
    ensures Ok(m) && ChildSpares(m, node, name, a, k)
  {
    hide TokWords, Words, Str, FindChild, ChildFocus, Ok;
    AlikeSize(n, m, st, AnyName());
    AtIff([], 0, n);
    var i := node + TokSize(Head(n));
    AlikeChild(n.kids, m.kids, st, AnyName(), i, name);
    ChildPlace(n.kids, i, name);
    ChildPlace(m.kids, i, name);
    if FindChild(n.kids, i, name).Some? {
      AlikeSize(ChildFocus(n.kids, name), ChildFocus(m.kids, name), st, AnyName());
    }
  }

  /** A child lies inside its parent, behind the parent's own bytes. */
  lemma {:induction false} ChildBounds(n: Forest, node: int, name: seq<u8>)
    requires n.Node? && Ok(n) && ChildFocus(n.kids, name).Node?
    ensures var i, g := node + TokSize(Head(n)), ChildFocus(n.kids, name);
      && Ok(g) && FindChild(n.kids, i, name).Some?
      && var o := FindChild(n.kids, i, name).value; node < o && o + NodeSize(g) + 4 <= node + NodeSize(n)
  {
    hide TokWords, Words, FindChild, ChildFocus, ChildCtx, Ok, Plug, Offset;
    AtIff([], 0, n);
    var i, d, g := node + TokSize(Head(n)), ChildCtx(n.kids, name), ChildFocus(n.kids, name);
    ChildPlace(n.kids, i, name);
    SizePlug(d, g);
    AtIff([], 0, g);
  }

  /** A node that does not overlap a piece has no child that does. */
  lemma {:induction false} SparesAll(n: Forest, node: int, f: Forest, a: int, m: int)
    requires n.Node? && Ok(n) && Disjoint(node, NodeSize(n), a, m)
    ensures Spares(n, node, f, a, m)
    decreases f
  {
    hide TokWords, Words, FindChild, ChildFocus, Ok;
    AtIff([], 0, n);
    match f {
      case Empty =>
      case Node(name, _, _, rest) =>
        ChildPlace(n.kids, node + TokSize(Head(n)), name);
        if ChildFocus(n.kids, name).Node? { ChildBounds(n, node, name); }
        SparesAll(n, node, rest, a, m);
      case Prop(_, _, _, rest) => SparesAll(n, node, rest, a, m);
      case Nop(rest) => SparesAll(n, node, rest, a, m);
    }
  }

  /** A node beside the fixup node stays clear of it, whatever the lists say. */
  lemma {:induction false} BesideClear(n: Forest, node: int, x: Forest, fixup: int)
    requires n.Node? && Ok(n) && x.Node? && Ok(x) && Disjoint(node, NodeSize(n), fixup, NodeSize(x))
    ensures Clear(n, node, x, fixup)
  {
    hide TokWords, Words, Spares, Ok, Span;
    SpanFits(n);
    SparesAll(n, node, x.kids, fixup, NodeSize(x));
  }

  // ---------- Edits in place ----------

  /** What an edit in place keeps of a blob: everything but `k` bytes at `node`, and there the layout of the node. */
  ghost predicate Edited(h: Header, m: seq<u8>, m': seq<u8>, node: int, n: Forest, n': Forest, k: nat) {
    && Ordered(h, |m|) && |m'| == |m| && Rsv(h, m') == Rsv(h, m) && Strings(h, m') == Strings(h, m)
    && n.Node? && n'.Node? && n'.rest == n.rest && Revised(n, n', Strings(h, m), AnyName())
    && 0 <= node && Patched(Struct(h, m), Struct(h, m'), node, k)
  }

  lemma {:induction false} EditedParts(h: Header, m: seq<u8>, m': seq<u8>, node: int, n: Forest, n': Forest, k: nat)
    requires Edited(h, m, m', node, n, n', k)
    ensures Ordered(h, |m|) && |m'| == |m| && Rsv(h, m') == Rsv(h, m) && Strings(h, m') == Strings(h, m)
    ensures n.Node? && n'.Node? && n'.rest == n.rest && Revised(n, n', Strings(h, m), AnyName())
    ensures 0 <= node && Patched(Struct(h, m), Struct(h, m'), node, k) && node + k <= |Struct(h, m)|
  {
    hide Alike, SameHidden, Struct, Strings, Rsv, Ordered;
  }

  lemma {:induction false} EditedNone(h: Header, m: seq<u8>, c: Ctx, n: Forest)
    requires Ordered(h, |m|) && OkC(c) && Ok(n) && n.Node? && Holds(Struct(h, m), Plug(c, n))
    ensures Edited(h, m, m, Offset(c), n, n, Span(n)) && Edited(h, m, m, Offset(c), n, n, NodeSize(n))
    ensures Span(n) <= NodeSize(n)
  {
    hide At, TokAt, Plug, Offset, Holds, Span, Alike, SameHidden, Struct, Strings, Rsv;
    RevisedSame(n, Strings(h, m), AnyName());
    SpanFits(n);
    NodeAt(Struct(h, m), c, n);
  }

  /** Two edits of a node's own bytes are one. */
  lemma {:induction false} EditedMore(h: Header, m: seq<u8>, m1: seq<u8>, m2: seq<u8>, node: int, n: Forest, n1: Forest,
                                      n2: Forest)
    requires Ok(n) && n.Node? && Edited(h, m, m1, node, n, n1, Span(n))
    requires Ok(n1) && n1.Node? && Edited(h, m1, m2, node, n1, n2, Span(n1))
    ensures Edited(h, m, m2, node, n, n2, Span(n)) && Span(n1) == Span(n)
  {
    hide Alike, SameHidden, Patched, Span, Struct, Strings, Rsv, Ordered;
    var st := Strings(h, m);
    AlikeSpan(n, n1, st, AnyName());
    RevisedTrans(n, n1, n2, st, AnyName(), AnyName(), AnyName());
    PatchedTrans(Struct(h, m), Struct(h, m1), Struct(h, m2), node, Span(n));
  }

  /** Two edits anywhere inside a node are one. */
  lemma {:induction false} EditedTwice(h: Header, m: seq<u8>, m1: seq<u8>, m2: seq<u8>, node: int, n: Forest,
                                       n1: Forest,
                                       n2: Forest)
    requires Ok(n) && n.Node? && Edited(h, m, m1, node, n, n1, NodeSize(n))
    requires Ok(n1) && n1.Node? && Edited(h, m1, m2, node, n1, n2, NodeSize(n1))
    ensures Edited(h, m, m2, node, n, n2, NodeSize(n))
  {
    hide Alike, SameHidden, Patched, TokWords, Words, Struct, Strings, Rsv, Ordered;
    var st := Strings(h, m);
    AlikeSize(n, n1, st, AnyName());
    RevisedTrans(n, n1, n2, st, AnyName(), AnyName(), AnyName());
    PatchedTrans(Struct(h, m), Struct(h, m1), Struct(h, m2), node, NodeSize(n));
  }

  lemma {:induction false} EditedWiden(h: Header, m: seq<u8>, m': seq<u8>, node: int, n: Forest, n': Forest, k: nat,
                                       l: nat)
    requires Edited(h, m, m', node, n, n', k) && k <= l && node + l <= h.sizeStruct
    ensures Edited(h, m, m', node, n, n', l)
  {
    hide Alike, SameHidden, Patched, Struct, Strings, Rsv, Ordered;
    Widen(Struct(h, m), Struct(h, m'), node, k, node, l);
  }

  // ---------- The words of one property ----------

  lemma {:induction false} StructWord(h: Header, m: seq<u8>, x: nat)
    requires Ordered(h, |m|) && x + 4 <= h.sizeStruct
    ensures Be32(m, h.offStruct + x) == Be32(Struct(h, m), x)
  {
    hide Be32;
    var s := Struct(h, m);
    assert m[h.offStruct..h.offStruct + h.sizeStruct] == s[0..h.sizeStruct];
    Move32(m, h.offStruct, s, 0, h.sizeStruct, x);
  }

  lemma {:induction false} LoadedWord(m: seq<u8>, x: nat, w: seq<u8>)
    requires x + 4 <= |m| && w == m[x..x + 4]
    ensures |w| == 4 && Be32(w, 0) == Be32(m, x)
  {
  }

  lemma {:induction false} FixStep(s: seq<u8>, at: nat, v: seq<u8>, p: u32, delta: u32)
    requires at + |v| <= |s| && s[at..at + |v|] == v && p + 4 <= |v|
    ensures Bump(v, p, delta) == Overwrite(v, p, Put32(Add32(Be32(s, at + p), delta)))
  {
    hide Be32, Put32, Add32, Overwrite;
    assert v[0..|v|] == v;
    Move32(s, at, v, 0, |v|, p);
  }

  /** The property `name` of a node has the value `v`. */
  ghost predicate Valued(n: Forest, st: seq<u8>, name: seq<u8>, v: seq<u8>)
    requires n.Node?
  {
    name in Props(n.kids, st) && Props(n.kids, st)[name] == v
  }

  /** One listed word of the value `v`, read at the value's place in the blob and written back in place. */
  method FixCell(fdt: Rw.Fdt, node: nat, name: seq<u8>, at: nat, poffset: u32, delta: u32, ghost c: Ctx,
                 ghost n: Forest, ghost v: seq<u8>)
    returns (err: int, ghost n2: Forest)
    requires fdt.Valid() && fdt.Encodes(c, n) && node == Offset(c)
    requires Valued(n, Strings(fdt.h, fdt.mem.bytes), name, v)
    requires GetProp(Struct(fdt.h, fdt.mem.bytes), Strings(fdt.h, fdt.mem.bytes), node, name) == at
    modifies fdt, fdt.mem, fdt.mem.data
    ensures fdt.Valid() && fdt.Encodes(c, n2) && fdt.h == old(fdt.h)
    ensures Edited(fdt.h, old(fdt.mem.bytes), fdt.mem.bytes, node, n, n2, Span(n))
    ensures var st := old(Strings(fdt.h, fdt.mem.bytes));
      if poffset + 4 > |v| then err == MissErr(at + 12, poffset, Reach(fdt.h))
      else
        && err == 0 && TreeOf(n2, st) == SetIn(TreeOf(n, st), name, Bump(v, poffset, delta))
        && GetProp(Struct(fdt.h, fdt.mem.bytes), st, node, name) == at
  {
    hide Struct, Strings, Rsv, Props, GetProp, Plug, PropCtx, PropFocus, Holds, Be32, Str, Aligned, At, TokAt, Kids,
      Check.Named, TokWords, Words, Put32, Offset, Overwrite, Add32, Bump, Patched, Alike, SameHidden, Span, Edited,
        TreeOf;
    ghost var s, st, m := Struct(fdt.h, fdt.mem.bytes), Strings(fdt.h, fdt.mem.bytes), fdt.mem.bytes;
    FocusAt(s, c, n, st, name);
    EditedNone(fdt.h, m, c, n);
    PropWords(s, at, Head(PropFocus(n.kids, st, name)));
    n2 := n;
    var x := fdt.h.offStruct + at + 12 + poffset;
    if x + 4 > fdt.h.totalsize { return READS_OUTSIDE, n; }
    var word := fdt.mem.Load(x, 4);
    LoadedWord(m, x, word);
    if poffset + 4 <= |v| {
      StructWord(fdt.h, m, at + 12 + poffset);
      FixStep(s, at + 12, v, poffset, delta);
    }
    err, n2 := fdt.SetpropInplacePartial(node, name, poffset, Put32(Add32(Be32(word, 0), delta)), c, n);
    if err == NOSPACE { return BADOVERLAY, n; }
    EditedWord(fdt.h, m, fdt.mem.bytes, node, n, n2, name, at + 12 + poffset);
  }

  lemma {:induction false} EditedWord(h: Header, m: seq<u8>, m': seq<u8>, node: nat, n: Forest, n': Forest,
                                      name: seq<u8>,
                                      x: nat)
    requires Ok(n) && n.Node? && Edited(h, m, m, node, n, n, Span(n)) && Ordered(h, |m|) && |m'| == |m|
    requires Rsv(h, m') == Rsv(h, m) && Strings(h, m') == Strings(h, m)
    requires n'.Node? && n'.rest == n.rest && Revised(n, n', Strings(h, m), iset{name})
    requires Patched(Struct(h, m), Struct(h, m'), x, 4) && node <= x && x + 4 <= node + Span(n)
    ensures Edited(h, m, m', node, n, n', Span(n))
  {
    hide Alike, SameHidden, Patched, Span, Struct, Strings, Rsv, Ordered;
    RevisedTrans(n, n, n', Strings(h, m), AnyName(), iset{name}, AnyName());
    PatchedFits(Struct(h, m), Struct(h, m), node, Span(n));
    Widen(Struct(h, m), Struct(h, m'), x, 4, node, Span(n));
  }

  lemma {:induction false} CellStep(s: seq<u8>, p: nat, val: seq<u8>, i: nat)
    requires |val| % 4 == 0 && 4 * i < |val| && p + |val| <= |s| && s[p..p + |val|] == val
    ensures 4 * i + 4 <= |val| && Cells(val[4 * i..]) == [Be32(s, p + 4 * i)] + Cells(val[4 * i + 4..])
  {
    hide Be32;
    var v := val[4 * i..];
    assert v[4..] == val[4 * i + 4..];
    Move32(s, p, val[0..|val|], 0, |val|, 4 * i);
    Move32(val, 4 * i, v[0..|v|], 0, |v|, 0);
    assert val[0..|val|] == val && v[0..|v|] == v;
  }

  lemma {:induction false} FixCons(v: seq<u8>, p: u32, ps: seq<u32>, delta: u32)
    ensures FixValue(v, [p] + ps, delta) == if p + 4 > |v| then Failed(p) else FixValue(Bump(v, p, delta), ps, delta)
  {
    hide Bump;
    assert ([p] + ps)[1..] == ps;
  }

  lemma {:induction false} FixEmpty(v: seq<u8>, delta: u32)
    ensures FixValue(v, Cells([]), delta) == Done(v)
  {
  }

  /** The inner loop: the words of one property at the offsets listed in the `len` bytes at `p`. */
  method FixProperty(fdt: Rw.Fdt, node: nat, name: seq<u8>, at: nat, p: nat, len: nat, delta: u32, ghost c: Ctx,
                     ghost n: Forest)
    returns (err: int, ghost n2: Forest)
    requires fdt.Valid() && fdt.Encodes(c, n) && node == Offset(c)
      && name in Props(n.kids, Strings(fdt.h, fdt.mem.bytes))
    requires GetProp(Struct(fdt.h, fdt.mem.bytes), Strings(fdt.h, fdt.mem.bytes), node, name) == at
    requires p + len <= fdt.h.sizeStruct && len % 4 == 0 && Disjoint(node, Span(n), p, len)
    modifies fdt, fdt.mem, fdt.mem.data
    ensures fdt.Valid() && fdt.Encodes(c, n2) && fdt.h == old(fdt.h)
    ensures Edited(fdt.h, old(fdt.mem.bytes), fdt.mem.bytes, node, n, n2, Span(n))
    ensures var st := old(Strings(fdt.h, fdt.mem.bytes));
      match FixValue(Props(n.kids, st)[name], Cells(old(Struct(fdt.h, fdt.mem.bytes))[p..p + len]), delta)
      case Failed(q) => err == MissErr(at + 12, q, Reach(fdt.h))
      case Done(v) => err == 0 && TreeOf(n2, st) == SetIn(TreeOf(n, st), name, v)
  {
    hide Struct, Strings, Rsv, Props, GetProp, Plug, Holds, Be32, Str, Kids, Check.Named, Offset, Cells, FixValue,
      Bump, Patched, Alike, SameHidden, Span, Edited, Ordered;
    ghost var h, m0, st := fdt.h, fdt.mem.bytes, Strings(fdt.h, fdt.mem.bytes);
    ghost var val, v0 := Struct(h, m0)[p..p + len], Props(n.kids, st)[name];
    ghost var cur := v0;
    EditedNone(h, m0, c, n);
    n2 := n;
    assert val[0..] == val;
    var i := 0;
    while 4 * i < len
      invariant fdt.Valid() && fdt.Encodes(c, n2) && fdt.h == h && 0 <= 4 * i <= len
      invariant Edited(h, m0, fdt.mem.bytes, node, n, n2, Span(n)) && Strings(h, fdt.mem.bytes) == st
      invariant Valued(n2, st, name, cur) && GetProp(Struct(h, fdt.mem.bytes), st, node, name) == at
      invariant FixValue(cur, Cells(val[4 * i..]), delta) == FixValue(v0, Cells(val), delta)
      invariant TreeOf(n2, st) == SetIn(TreeOf(n, st), name, cur)
    {
      var s, _ := fdt.Blocks();
      ghost var n1, m1 := n2, fdt.mem.bytes;
      EditedParts(h, m0, m1, node, n, n1, Span(n));
      Untouched(Struct(h, m0), s, node, Span(n), p, p + len);
      CellStep(s, p, val, i);
      var poffset := Be32(s, p + 4 * i);
      FixCons(cur, poffset, Cells(val[4 * i + 4..]), delta);
      err, n2 := FixCell(fdt, node, name, at, poffset, delta, c, n2, cur);
      EditedMore(h, m0, m1, fdt.mem.bytes, node, n, n1, n2);
      EditedParts(h, m0, fdt.mem.bytes, node, n, n2, Span(n));
      if err != 0 { return; }
      cur := Bump(cur, poffset, delta);
      i := i + 1;
    }
    err := 0;
    assert val[4 * i..] == [];
    FixEmpty(cur, delta);
  }

  // ---------- The properties of a fixup node ----------

  lemma {:induction false} FixTail(m: map<seq<u8>, seq<u8>>, f: Forest, st: seq<u8>, delta: u32)
    ensures FixProps(m, f, st, delta) == FixProps(m, PropTail(f), st, delta) && !PropTail(f).Nop?
    decreases f
  {
    if f.Nop? { FixTail(m, f.rest, st, delta); }
  }

  lemma {:induction false} FixAlone(m: map<seq<u8>, seq<u8>>, g: Forest, st: seq<u8>, delta: u32)
    requires g.Prop? && Str(st, g.nameoff).Some?
    ensures var name := Str(st, g.nameoff).value;
      FixProps(m, Alone(g), st, delta) ==
      if |g.val| % 4 != 0 || name !in m then Unfit
      else match FixValue(m[name], Cells(g.val), delta) case Failed(p) => Missed([], name, p)
        case Done(v) => Fixed(m[name := v])
    ensures FixProps(m, g, st, delta) ==
      match FixProps(m, Alone(g), st, delta) case Fixed(m2) => FixProps(m2, g.rest, st, delta) case r => r
  {
    hide Str, FixValue, Cells;
  }

  /** One property of the fixup node: the words it lists are moved in the tree node. */
  method UpdateProp(fdt: Rw.Fdt, node: nat, q: nat, delta: u32, ghost c: Ctx, ghost n: Forest, ghost g: Forest)
    returns (err: int, ghost n2: Forest)
    requires fdt.Valid() && fdt.Encodes(c, n) && node == Offset(c)
    requires g.Prop? && Ok(g) && TokAt(Struct(fdt.h, fdt.mem.bytes), q, Head(g))
      && Str(Strings(fdt.h, fdt.mem.bytes), g.nameoff).Some?
    requires Disjoint(node, Span(n), q, TokSize(Head(g)))
    modifies fdt, fdt.mem, fdt.mem.data
    ensures fdt.Valid() && fdt.Encodes(c, n2) && fdt.h == old(fdt.h)
    ensures Edited(fdt.h, old(fdt.mem.bytes), fdt.mem.bytes, node, n, n2, Span(n))
    ensures var st := old(Strings(fdt.h, fdt.mem.bytes)); var t := TreeOf(n, st);
      var r := FixProps(t.props, Alone(g), st, delta);
      err == FixErr(r, n, node, st, Reach(fdt.h)) && (r.Fixed? ==> TreeOf(n2, st) == t.(props := r.value))
  {
    hide Struct, Strings, Rsv, Props, GetProp, Plug, PropCtx, PropFocus, Holds, Be32, Str, Aligned, At, TokAt, Kids,
      Check.Named, TokWords, Words, Offset, Ordered, Cells, FixValue, FixProps, Patched, Alike, SameHidden, Span,
        FindProp, Edited;
    var s, st := fdt.Blocks();
    EditedNone(fdt.h, fdt.mem.bytes, c, n);
    PropWords(s, q, Head(g));
    n2 := n;
    var name, len := Str(st, Be32(s, q + 8)).value, Be32(s, q + 4);
    FixAlone(Props(n.kids, st), g, st, delta);
    if len % 4 != 0 { return BADOVERLAY, n; }
    FocusAt(s, c, n, st, name);
    GetPropIs(s, node, n, st, name);
    var at := GetPropLoop(s, st, node, name);
    if at == NOTFOUND { return BADOVERLAY, n; }
    if at < 0 { return at, n; }
    err, n2 := FixProperty(fdt, node, name, at, q + 12, len, delta, c, n);
  }

  /** The property under a cursor lies in the fixup node, and so does everything behind it. */
  lemma {:induction false} CursorRoom(s: seq<u8>, st: seq<u8>, p: nat, f: Forest)
    requires CursorAt(s, st, p, f) && FirstProp(f, p) >= 0
    ensures var q, g := FirstProp(f, p), PropTail(f);
      g.Prop? && Ok(g) && Ok(g.rest) && p <= q && q + TokSize(Head(g)) + Size(g.rest) == p + Size(f)
  {
    hide At, TokAt, TokWords, Words, Check.Named;
    PropTailIs(s, p, f, st, map[]);
    AtIff(s, FirstProp(f, p), PropTail(f));
  }

  /** On to the property behind one that is where it was. */
  lemma {:induction false} CursorMoves(s: seq<u8>, s': seq<u8>, st: seq<u8>, p: nat, k: nat, q: nat, g: Forest)
    requires g.Prop? && Ok(g) && TokAt(s, q, Head(g)) && CursorAt(s, st, q + TokSize(Head(g)), g.rest)
      && Patched(s, s', p, k)
    requires Disjoint(p, k, q, TokSize(Head(g)) + Size(g.rest) + 4)
    ensures var i := q + TokSize(Head(g));
      CursorAt(s', st, i, g.rest) && NextTag(s', q).next == i && NextProp(s', i) == FirstProp(g.rest, i)
  {
    hide At, TokAt, TokWords, Words, Check.Named, Patched, NextTag, NextProp;
    var i := q + TokSize(Head(g));
    TokKept(s, s', p, k, q, Head(g));
    NextTagAt(s', q, Head(g));
    CursorKept(s, s', st, p, k, i, g.rest);
    NextPropIs(s', i, g.rest);
  }

  lemma {:induction false} FixDone(m: map<seq<u8>, seq<u8>>, f: Forest, off: int, st: seq<u8>, delta: u32)
    requires Ok(f) && FirstProp(f, off) < 0 <= off
    ensures FixProps(m, f, st, delta) == Fixed(m)
    decreases f
  {
    hide Str, TokWords;
    if f.Nop? { FixDone(m, f.rest, off + TokSize(NopTok), st, delta); }
  }

  /** The property under the cursor, and why moving the words it lists writes nothing into the lists. */
  lemma {:induction false} PropReady(s: seq<u8>, st: seq<u8>, node: int, n: Forest, p: nat, f: Forest)
    requires CursorAt(s, st, p, f) && FirstProp(f, p) >= 0 && Ok(n) && n.Node?
    requires Disjoint(node, Span(n), p, Size(f) + 4)
    ensures var q, g := FirstProp(f, p), PropTail(f);
      && g.Prop? && Ok(g) && Ok(g.rest) && p <= q && q + TokSize(Head(g)) + Size(g.rest) == p + Size(f)
      && TokAt(s, q, Head(g)) && Str(st, g.nameoff).Some? && CursorAt(s, st, q + TokSize(Head(g)), g.rest)
      && Disjoint(node, Span(n), q, TokSize(Head(g)))
      && Disjoint(node, Span(n), q, TokSize(Head(g)) + Size(g.rest) + 4)
  {
    hide At, TokAt, TokWords, Words, Check.Named, Str, NextTag, NextProp, PropTail, FirstProp, CursorAt, Span;
    CursorProp(s, st, p, f, map[]);
    CursorRoom(s, st, p, f);
  }

  /** One turn of the loop over the properties: the one under the cursor, and on to the next. */
  method UpdateTurn(fdt: Rw.Fdt, node: nat, prop: nat, delta: u32, ghost c: Ctx, ghost n: Forest, ghost p: nat,
                    ghost f: Forest)
    returns (err: int, next: int, ghost n2: Forest)
    requires fdt.Valid() && fdt.Encodes(c, n) && node == Offset(c)
    requires CursorAt(Struct(fdt.h, fdt.mem.bytes), Strings(fdt.h, fdt.mem.bytes), p, f) && prop == FirstProp(f, p)
    requires Disjoint(node, Span(n), p, Size(f) + 4)
    modifies fdt, fdt.mem, fdt.mem.data
    ensures fdt.Valid() && fdt.Encodes(c, n2) && fdt.h == old(fdt.h)
    ensures Edited(fdt.h, old(fdt.mem.bytes), fdt.mem.bytes, node, n, n2, Span(n))
    ensures var st := old(Strings(fdt.h, fdt.mem.bytes)); var t := TreeOf(n, st); var g := PropTail(f);
      && g.Prop? && Ok(g) && p <= prop && prop + TokSize(Head(g)) + Size(g.rest) == p + Size(f)
      && var r, r1 := FixProps(t.props, f, st, delta), FixProps(t.props, Alone(g), st, delta);
         && err == FixErr(r1, n, node, st, Reach(fdt.h)) && (!r1.Fixed? ==> r == r1)
         && (r1.Fixed? ==>
               && TreeOf(n2, st) == t.(props := r1.value) && r == FixProps(r1.value, g.rest, st, delta)
               && CursorAt(Struct(fdt.h, fdt.mem.bytes), st, prop + TokSize(Head(g)), g.rest)
               && next == FirstProp(g.rest, prop + TokSize(Head(g))))
  {
    hide Struct, Strings, Rsv, Plug, Holds, Be32, Str, Aligned, At, TokAt, Kids, Props, Check.Named, TokWords, Words,
      Offset, Ordered, FixProps, FirstProp, NextTag, NextProp, PropTail, Patched, Alike, SameHidden, Span, ValuePlace,
        CursorAt, FixErr, Edited, TreeOf;
    ghost var s, st, h, m := Struct(fdt.h, fdt.mem.bytes), Strings(fdt.h, fdt.mem.bytes), fdt.h, fdt.mem.bytes;
    ghost var t, g := TreeOf(n, st), PropTail(f);
    PropReady(s, st, node, n, p, f);
    FixTail(t.props, f, st, delta);
    FixAlone(t.props, g, st, delta);
    next := NOTFOUND;
    err, n2 := UpdateProp(fdt, node, prop, delta, c, n, g);
    ErrZero(FixProps(t.props, Alone(g), st, delta), n, node, st, Reach(h));
    if err != 0 { return; }
    EditedParts(h, m, fdt.mem.bytes, node, n, n2, Span(n));
    var now, _ := fdt.Blocks();
    CursorMoves(s, now, st, node, Span(n), prop, g);
    next := NextPropLoop(now, NextTag(now, prop).next);
  }

  /** The loop over the properties of the fixup node. */
  method UpdateProps(fdt: Rw.Fdt, node: nat, fixup: nat, delta: u32, ghost c: Ctx, ghost n: Forest, ghost x: Forest)
    returns (err: int, ghost n2: Forest)
    requires fdt.Valid() && fdt.Encodes(c, n) && node == Offset(c)
    requires ListsAt(Struct(fdt.h, fdt.mem.bytes), Strings(fdt.h, fdt.mem.bytes), fixup, x)
    requires Disjoint(node, Span(n), fixup, NodeSize(x))
    modifies fdt, fdt.mem, fdt.mem.data
    ensures fdt.Valid() && fdt.Encodes(c, n2) && fdt.h == old(fdt.h)
    ensures Edited(fdt.h, old(fdt.mem.bytes), fdt.mem.bytes, node, n, n2, Span(n))
    ensures var st := old(Strings(fdt.h, fdt.mem.bytes)); var t := TreeOf(n, st);
      var r := FixProps(t.props, x.kids, st, delta);
      err == FixErr(r, n, node, st, Reach(fdt.h)) && (r.Fixed? ==> TreeOf(n2, st) == t.(props := r.value))
  {
    hide Struct, Strings, Rsv, Plug, Holds, Be32, Str, Aligned, At, TokAt, Kids, Props, Check.Named, TokWords, Words,
      Offset, Ordered, FixProps, FirstProp, NextTag, NextProp, PropTail, Walk.NodeStart, Patched, Alike, SameHidden,
        Span, ValuePlace, CursorAt, FixErr, Edited, TreeOf;
    var s, st := fdt.Blocks();
    ghost var h, m0 := fdt.h, fdt.mem.bytes;
    EditedNone(h, m0, c, n);
    AtIff(s, fixup, x);
    CursorStart(s, st, fixup, x);
    ghost var t, end := TreeOf(n, st), fixup + NodeSize(x);
    ghost var p, f := fixup + TokSize(Head(x)), x.kids;
    var start := Walk.NodeStart(s, fixup);
    var prop := NextPropLoop(s, start);
    n2 := n;
    while prop >= 0
      invariant fdt.Valid() && fdt.Encodes(c, n2) && fdt.h == h
      invariant Edited(h, m0, fdt.mem.bytes, node, n, n2, Span(n)) && Strings(h, fdt.mem.bytes) == st
      invariant fixup <= p && Ok(f) && p + Size(f) + 4 == end && CursorAt(Struct(h, fdt.mem.bytes), st, p, f)
      invariant prop == FirstProp(f, p)
      invariant TreeOf(n2, st) == t.(props := TreeOf(n2, st).props)
      invariant FixProps(TreeOf(n2, st).props, f, st, delta) == FixProps(t.props, x.kids, st, delta)
      decreases Size(f)
    {
      ghost var g, n1, m1 := PropTail(f), n2, fdt.mem.bytes;
      EditedParts(h, m0, m1, node, n, n1, Span(n));
      AlikeSpan(n, n1, st, AnyName());
      ghost var q := prop;
      err, prop, n2 := UpdateTurn(fdt, node, prop, delta, c, n2, p, f);
      EditedMore(h, m0, m1, fdt.mem.bytes, node, n, n1, n2);
      EditedParts(h, m1, fdt.mem.bytes, node, n1, n2, Span(n1));
      ghost var r := FixProps(TreeOf(n1, st).props, Alone(g), st, delta);
      AlikeErr(r, n, n1, node, st, Reach(h));
      ErrZero(r, n, node, st, Reach(h));
      if err != 0 { return; }
      p, f := q + TokSize(Head(g)), g.rest;
    }
    FixDone(TreeOf(n2, st).props, f, p, st, delta);
    ErrZero(FixProps(TreeOf(n2, st).props, f, st, delta), n, node, st, Reach(h));
    err := 0;
  }

  // ---------- The subnodes of a fixup node ----------

  lemma {:induction false} FixKidsTail(ts: seq<Tree>, f: Forest, st: seq<u8>, delta: u32)
    ensures FixKids(ts, f, st, delta) == FixKids(ts, RunTail(f), st, delta) && (RunTail(f).Empty? || RunTail(f).Node?)
    decreases f
  {
    hide FixTree;
    if f.Prop? || f.Nop? { FixKidsTail(ts, f.rest, st, delta); }
  }

  lemma {:induction false} FixKidsAlone(ts: seq<Tree>, g: Forest, st: seq<u8>, delta: u32)
    requires g.Node?
    ensures var i := ChildIndex(ts, g.name);
      FixKids(ts, Alone(g), st, delta) ==
      if !(0 <= i < |ts|) then Unfit
      else match FixTree(ts[i], g.kids, st, delta)
           case Unfit => Unfit
           case Missed(names, prop, p) => Missed([g.name] + names, prop, p)
           case Fixed(u) => Fixed(ts[i := u])
    ensures FixKids(ts, g, st, delta) ==
      match FixKids(ts, Alone(g), st, delta) case Fixed(us) => FixKids(us, g.rest, st, delta) case r => r
  {
    hide FixTree, ChildIndex;
  }

  lemma {:induction false} SparesTail(n: Forest, node: int, f: Forest, a: int, m: int)
    requires n.Node? && Ok(n) && Spares(n, node, f, a, m)
    ensures Spares(n, node, RunTail(f), a, m)
    decreases f
  {
    hide ChildSpares, Ok;
    if f.Prop? || f.Nop? { SparesTail(n, node, f.rest, a, m); }
  }

  /** The names that lead to a property from a node lead to it from the child that the first of them finds. */
  lemma {:induction false} ChildErr(r: Fix<Tree>, rs: Fix<seq<Tree>>, n: Forest, node: int, name: seq<u8>, st: seq<u8>,
                                    reach: int)
    requires n.Node? && Ok(n) && ChildFocus(n.kids, name).Node?
    requires match r case Fixed(_) => rs.Fixed? case Unfit => rs == Unfit
      case Missed(names, prop, p) => rs == Missed([name] + names, prop, p)
    ensures var g, o := ChildFocus(n.kids, name), FindChild(n.kids, node + TokSize(Head(n)), name);
      Ok(g) && o.Some? && FixErr(rs, n, node, st, reach) == FixErr(r, g, o.value, st, reach)
  {
    hide TokWords, Words, FindChild, ChildFocus, Ok, FindProp;
    ChildBounds(n, node, name);
    if r.Missed? {
      assert ([name] + r.names)[0] == name && ([name] + r.names)[1..] == r.names;
    }
  }

  ghost predicate ChildClear(n: Forest, node: int, x: Forest, fixup: int)
    requires n.Node? && Ok(n) && x.Node? && Ok(x)
  {
    var i := node + TokSize(Head(n));
    ChildPlace(n.kids, i, x.name);
    match FindChild(n.kids, i, x.name)
    case Some(o) => Clear(ChildFocus(n.kids, x.name), o, x, fixup)
    case None => true
  }

  /** Only the child that a name finds has changed. */
  ghost predicate ChildPatched(s: seq<u8>, s': seq<u8>, n: Forest, node: int, name: seq<u8>)
    requires n.Node? && Ok(n)
  {
    var i := node + TokSize(Head(n));
    ChildPlace(n.kids, i, name);
    match FindChild(n.kids, i, name)
    case Some(o) => o >= 0 && Patched(s, s', o, NodeSize(ChildFocus(n.kids, name)))
    case None => s' == s
  }

  /** The fixup subnode under the cursor, and why moving the references it lists writes nothing into it. */
  lemma {:induction false} KidReady(s: seq<u8>, st: seq<u8>, p: nat, f: Forest, n: Forest, node: int, fixup: int,
                                    x: Forest)
    requires CursorAt(s, st, p, f) && FirstNode(f, p) >= 0 && n.Node? && Ok(n) && x.Node? && Ok(x)
    requires fixup <= p && p + Size(f) + 4 == fixup + NodeSize(x) && Spares(n, node, f, fixup, NodeSize(x))
    ensures var q, g := FirstNode(f, p), RunTail(f);
      && g.Node? && Ok(g) && Ok(g.rest) && p <= q && q + NodeSize(g) + Size(g.rest) == p + Size(f)
      && ListsAt(s, st, q, Alone(g)) && Size(Alone(g)) <= Size(f) && ChildClear(n, node, Alone(g), q)
      && ChildSpares(n, node, g.name, fixup, NodeSize(x)) && Spares(n, node, g.rest, fixup, NodeSize(x))
  {
    hide At, TokAt, TokWords, Words, Check.Named, Ok, FindChild, ChildFocus, Clear, NextTag, Span;
    RunTailIs(s, p, f, st, []);
    var q, g := FirstNode(f, p), RunTail(f);
    NamedNode(g, st);
    AtIff(s, q, g);
    AloneAt(s, st, q, g);
    SparesTail(n, node, f, fixup, NodeSize(x));
    var i := node + TokSize(Head(n));
    AtIff([], 0, n);
    ChildPlace(n.kids, i, g.name);
    if FindChild(n.kids, i, g.name).Some? {
      BesideClear(ChildFocus(n.kids, g.name), FindChild(n.kids, i, g.name).value, Alone(g), q);
    }
  }

  lemma {:induction false} NamedNode(g: Forest, st: seq<u8>)
    requires g.Node? && Check.Named(g, st)
    ensures Check.Named(g.kids, st)
  {
  }

  lemma {:induction false} AlikeNode(n: Forest, m: Forest, st: seq<u8>)
    requires n.Node? && Alike(n, m, st, AnyName())
    ensures m.Node? && m.name == n.name
  {
  }

  lemma {:induction false} PatchedFits(s: seq<u8>, s': seq<u8>, p: nat, k: nat)
    requires Patched(s, s', p, k)
    ensures p + k <= |s'| == |s|
  {
  }

  /** On to the next subnode of the fixup node, whose lists are as they were. */
  lemma {:induction false} KidNext(s: seq<u8>, s': seq<u8>, st: seq<u8>, p: nat, f: Forest, n: Forest, n2: Forest,
                                   node: int,
                                   fixup: int, x: Forest)
    requires CursorAt(s, st, p, f) && FirstNode(f, p) >= 0 && n.Node? && Ok(n) && x.Node? && Ok(x)
    requires fixup <= p && p + Size(f) + 4 == fixup + NodeSize(x) && Spares(n, node, f, fixup, NodeSize(x))
    requires Alike(n, n2, st, AnyName()) && RunTail(f).Node? && ChildPatched(s, s', n, node, RunTail(f).name)
    ensures var q, g := FirstNode(f, p), RunTail(f);
      && Ok(g) && CursorAt(s', st, q + NodeSize(g), g.rest) && NextSubnode(s', q) == FirstNode(g.rest, q + NodeSize(g))
      && n2.Node? && Ok(n2) && Spares(n2, node, g.rest, fixup, NodeSize(x))
  {
    hide At, TokAt, TokWords, Words, Check.Named, Ok, FindChild, ChildFocus, NextTag, Patched, Alike, SameHidden,
      Spares, ChildClear, NextSubnode, Walk.NodeStart, FirstNode, RunTail, CursorAt, ListsAt;
    KidReady(s, st, p, f, n, node, fixup, x);
    var g := RunTail(f);
    var i := node + TokSize(Head(n));
    AtIff([], 0, n);
    ChildPlace(n.kids, i, g.name);
    if FindChild(n.kids, i, g.name).Some? {
      CursorKept(s, s', st, FindChild(n.kids, i, g.name).value, NodeSize(ChildFocus(n.kids, g.name)), p, f);
    }
    CursorNode(s', st, p, f, []);
    AlikeNode(n, n2, st);
    AlikeSpares(n, n2, node, g.rest, fixup, NodeSize(x), st);
  }

  /** An edit of a child is an edit of its parent. */
  lemma {:induction false} EditedChild(h: Header, m: seq<u8>, m': seq<u8>, node: nat, n: Forest, name: seq<u8>,
                                       g2: Forest)
    requires n.Node? && Ok(n) && ChildFocus(n.kids, name).Node? && Edited(h, m, m, node, n, n, NodeSize(n))
    requires FindChild(n.kids, node + TokSize(Head(n)), name).Some? && Ok(ChildFocus(n.kids, name))
    requires var o, g := FindChild(n.kids, node + TokSize(Head(n)), name).value, ChildFocus(n.kids, name);
      Edited(h, m, m', o, g, g2, NodeSize(g))
    ensures Edited(h, m, m', node, n, WithKids(n, Plug(ChildCtx(n.kids, name), g2)), NodeSize(n)) && Ordered(h, |m|)
    ensures |m'| == |m| && ChildPatched(Struct(h, m), Struct(h, m'), n, node, name)
    ensures g2.Node? && g2.rest == ChildFocus(n.kids, name).rest && Strings(h, m') == Strings(h, m)
  {
    hide Alike, SameHidden, Patched, Struct, Strings, Rsv, Ordered, FindChild, ChildFocus, ChildCtx, Ok, Plug,
      TokWords, Words;
    AtIff([], 0, n);
    var i, g, d, st := node + TokSize(Head(n)), ChildFocus(n.kids, name), ChildCtx(n.kids, name), Strings(h, m);
    var o := FindChild(n.kids, i, name).value;
    ChildPlace(n.kids, i, name);
    ChildBounds(n, node, name);
    PatchedFits(Struct(h, m), Struct(h, m), node, NodeSize(n));
    Widen(Struct(h, m), Struct(h, m'), o, NodeSize(g), node, NodeSize(n));
    RevisedPlug(d, g, g2, st, AnyName());
    RevisedWith(n, Plug(d, g2), st, AnyName());
  }

  /** One subnode of the fixup node, with the child of the tree node that it names. */
  method UpdateChild(fdt: Rw.Fdt, node: nat, fixup: nat, delta: u32, ghost c: Ctx, ghost n: Forest, ghost x: Forest)
    returns (err: int, ghost n2: Forest)
    requires fdt.Valid() && fdt.Encodes(c, n) && node == Offset(c)
    requires ListsAt(Struct(fdt.h, fdt.mem.bytes), Strings(fdt.h, fdt.mem.bytes), fixup, x)
    requires ChildClear(n, node, x, fixup)
    modifies fdt, fdt.mem, fdt.mem.data
    ensures fdt.Valid() && fdt.Encodes(c, n2) && fdt.h == old(fdt.h)
    ensures Edited(fdt.h, old(fdt.mem.bytes), fdt.mem.bytes, node, n, n2, NodeSize(n))
    ensures ChildPatched(old(Struct(fdt.h, fdt.mem.bytes)), Struct(fdt.h, fdt.mem.bytes), n, node, x.name)
    ensures var st := old(Strings(fdt.h, fdt.mem.bytes)); var t := TreeOf(n, st);
      var r := FixKids(t.children, x, st, delta);
      err == FixErr(r, n, node, st, Reach(fdt.h)) && (r.Fixed? ==> TreeOf(n2, st) == t.(children := r.value))
    decreases Size(x), 2
  {
    hide Struct, Strings, Rsv, Plug, Holds, Be32, Str, Aligned, At, TokAt, Kids, Props, Check.Named, TokWords, Words,
      Offset, Ordered, FixKids, FixTree, NextTag, NameAt, ChildIndex, ChildFocus, ChildCtx, SubnodeOffset, Inside,
        FindChild, Patched, Alike, SameHidden, Clear, ValuePlace, Edited;
    var s, st := fdt.Blocks();
    ghost var h, m := fdt.h, fdt.mem.bytes;
    EditedNone(h, m, c, n);
    AtIff(s, fixup, x);
    NextTagAt(s, fixup, Head(x));
    NodeNamedAt(s, fixup, Head(x), []);
    var name := NameAt(s, fixup);
    NodeAt(s, c, n);
    ChildTree(n.kids, name, st);
    ChildPlace(n.kids, node + TokSize(Head(n)), name);
    SubnodeFinds(s, node, n, name);
    FixKidsAlone(Kids(n.kids, st), x, st, delta);
    var child := SubnodeLoop(s, node, name);
    n2 := n;
    if child == NOTFOUND { return BADOVERLAY, n; }
    if child < 0 { return child, n; }
    ghost var g, d := ChildFocus(n.kids, name), ChildCtx(n.kids, name);
    ChildInside(s, c, n, name, st);
    ghost var g2;
    err, g2 := UpdateNode(fdt, child, fixup, delta, Inside(c, n, d), g, x);
    EditedChild(h, m, fdt.mem.bytes, node, n, name, g2);
    ChildOutside(Struct(h, fdt.mem.bytes), c, n, name, g2, st);
    n2 := WithKids(n, Plug(d, g2));
    ChildErr(FixTree(TreeOf(g, st), x.kids, st, delta), FixKids(Kids(n.kids, st), x, st, delta), n, node, name, st,
      Reach(h));
  }

  /** The loop over the subnodes of the fixup node. */
  method UpdateKids(fdt: Rw.Fdt, node: nat, fixup: nat, delta: u32, ghost c: Ctx, ghost n: Forest, ghost x: Forest)
    returns (err: int, ghost n2: Forest)
    requires fdt.Valid() && fdt.Encodes(c, n) && node == Offset(c)
    requires ListsAt(Struct(fdt.h, fdt.mem.bytes), Strings(fdt.h, fdt.mem.bytes), fixup, x)
    requires Spares(n, node, x.kids, fixup, NodeSize(x))
    modifies fdt, fdt.mem, fdt.mem.data
    ensures fdt.Valid() && fdt.Encodes(c, n2) && fdt.h == old(fdt.h)
    ensures Edited(fdt.h, old(fdt.mem.bytes), fdt.mem.bytes, node, n, n2, NodeSize(n))
    ensures var st := old(Strings(fdt.h, fdt.mem.bytes)); var t := TreeOf(n, st);
      var r := FixKids(t.children, x.kids, st, delta);
      err == FixErr(r, n, node, st, Reach(fdt.h)) && (r.Fixed? ==> TreeOf(n2, st) == t.(children := r.value))
    decreases Size(x), 0
  {
    hide Struct, Strings, Rsv, Plug, Holds, Be32, Str, Aligned, At, TokAt, Kids, Props, Check.Named, TokWords, Words,
      Offset, Ordered, FixTree, FixKids, NextTag, NameAt, ChildIndex, NextSubnode, FirstSubnode, FirstNode, RunTail,
        RunCtx, Walk.NodeStart, NextProp, FirstProp, Patched, Alike, SameHidden, CursorAt, Spares, ChildSpares,
          ChildClear, ChildPatched, ValuePlace, FixErr, FindChild, ChildFocus, Edited;
    var s, st := fdt.Blocks();
    ghost var h, m0 := fdt.h, fdt.mem.bytes;
    EditedNone(h, m0, c, n);
    AtIff(s, fixup, x);
    CursorStart(s, st, fixup, x);
    ghost var t, end := TreeOf(n, st), fixup + NodeSize(x);
    ghost var p, f, ts := fixup + TokSize(Head(x)), x.kids, t.children;
    var child := FirstSubnode(s, fixup);
    n2 := n;
    while child >= 0
      invariant fdt.Valid() && fdt.Encodes(c, n2) && fdt.h == h && s == Struct(h, fdt.mem.bytes)
      invariant Edited(h, m0, fdt.mem.bytes, node, n, n2, NodeSize(n)) && Strings(h, fdt.mem.bytes) == st
      invariant fixup <= p && Ok(f) && p + Size(f) + 4 == end && CursorAt(s, st, p, f) && child == FirstNode(f, p)
      invariant Spares(n2, node, f, fixup, NodeSize(x))
      invariant TreeOf(n2, st) == t.(children := ts)
      invariant FixKids(ts, f, st, delta) == FixKids(t.children, x.kids, st, delta)
      decreases Size(f)
    {
      ghost var g, n1, m1, s1 := RunTail(f), n2, fdt.mem.bytes, s;
      KidReady(s, st, p, f, n2, node, fixup, x);
      FixKidsTail(ts, f, st, delta);
      FixKidsAlone(ts, g, st, delta);
      err, n2 := UpdateChild(fdt, node, child, delta, c, n2, Alone(g));
      var now, _ := fdt.Blocks();
      s := now;
      EditedTwice(h, m0, m1, fdt.mem.bytes, node, n, n1, n2);
      EditedParts(h, m1, fdt.mem.bytes, node, n1, n2, NodeSize(n1));
      EditedParts(h, m0, m1, node, n, n1, NodeSize(n));
      AlikeErr(FixKids(ts, Alone(g), st, delta), n, n1, node, st, Reach(h));
      ErrZero(FixKids(ts, Alone(g), st, delta), n, node, st, Reach(h));
      if err != 0 { return; }
      KidNext(s1, s, st, p, f, n1, n2, node, fixup, x);
      p, f, ts := child + NodeSize(g), g.rest, TreeOf(n2, st).children;
      child := NextSubnodeLoop(s, child);
    }
    FixKidsTail(ts, f, st, delta);
    NoMoreKids(ts, f, p, st, delta);
    ErrZero(FixKids(ts, f, st, delta), n, node, st, Reach(h));
    err := 0;
  }

  /** overlay_update_local_node_references. */
  method UpdateNode(fdt: Rw.Fdt, node: nat, fixup: nat, delta: u32, ghost c: Ctx, ghost n: Forest, ghost x: Forest)
    returns (err: int, ghost n2: Forest)
    requires fdt.Valid() && fdt.Encodes(c, n) && node == Offset(c)
    requires ListsAt(Struct(fdt.h, fdt.mem.bytes), Strings(fdt.h, fdt.mem.bytes), fixup, x) && Clear(n, node, x, fixup)
    modifies fdt, fdt.mem, fdt.mem.data
    ensures fdt.Valid() && fdt.Encodes(c, n2) && fdt.h == old(fdt.h)
    ensures Edited(fdt.h, old(fdt.mem.bytes), fdt.mem.bytes, node, n, n2, NodeSize(n))
    ensures var st := old(Strings(fdt.h, fdt.mem.bytes)); var r := FixTree(TreeOf(n, st), x.kids, st, delta);
      err == FixErr(r, n, node, st, Reach(fdt.h)) && (r.Fixed? ==> TreeOf(n2, st) == r.value)
    decreases Size(x), 1
  {
    hide Struct, Strings, Rsv, Plug, Holds, Str, At, Kids, Props, Check.Named, Words, Offset, Ordered, FixProps,
      FixKids, Patched, Alike, SameHidden, Spares, Span, ValuePlace, Edited;
    ghost var h, m, st := fdt.h, fdt.mem.bytes, Strings(fdt.h, fdt.mem.bytes);
    ghost var t := TreeOf(n, st);
    EditedNone(h, m, c, n);
    EditedParts(h, m, m, node, n, n, NodeSize(n));
    err, n2 := UpdateProps(fdt, node, fixup, delta, c, n, x);
    ghost var m1, n1 := fdt.mem.bytes, n2;
    EditedParts(h, m, m1, node, n, n1, Span(n));
    EditedWiden(h, m, m1, node, n, n1, Span(n), NodeSize(n));
    if err != 0 { return; }
    ListsKept(Struct(h, m), Struct(h, m1), st, node, Span(n), fixup, x);
    AlikeSpares(n, n1, node, x.kids, fixup, NodeSize(x), st);
    err, n2 := UpdateKids(fdt, node, fixup, delta, c, n2, x);
    EditedTwice(h, m, m1, fdt.mem.bytes, node, n, n1, n2);
    AlikeErr(FixKids(t.children, x.kids, st, delta), n, n1, node, st, Reach(h));
  }

  lemma {:induction false} NoMoreKids(ts: seq<Tree>, f: Forest, off: int, st: seq<u8>, delta: u32)
    requires Ok(f) && FirstNode(f, off) < 0 <= off
    ensures FixKids(ts, f, st, delta) == Fixed(ts)
    decreases f
  {
    hide TokWords, FixTree;
    if f.Prop? || f.Nop? { NoMoreKids(ts, f.rest, off + TokSize(Head(f)), st, delta); }
  }
}
