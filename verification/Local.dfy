/**
 The first steps of fdt_overlay_apply: the overlay's phandles and references moved out of the way of the base tree's.
 */
module Local {
  import opened Bytes
  import opened Structure
  import opened Zipper
  import opened Lookup
  import opened Tree
  import opened Edit
  import opened InPlace
  import opened Blob
  import Rw
  import opened Phandle
  import opened Fixup
  import Fit
  import opened References
  import Check
  import Path

  /** __local_fixups__ */
  const LOCAL_FIXUPS: seq<u8> := [95, 95, 108, 111, 99, 97, 108, 95, 102, 105, 120, 117, 112, 115, 95, 95]

  /** The fixups of an overlay with root `n`: the contents of the node that the path /__local_fixups__ finds. */
  ghost function Lists(n: Forest): Forest
    requires n.Node?
  {
    var x := ChildFocus(n.kids, LOCAL_FIXUPS);
    if x.Node? then x.kids else Empty
  }

  /** They are the contents of the first child of the root that is called so, by its name, and none if there is none. */
  lemma {:induction false} ListsByName(n: Forest)
    requires n.Node?
    ensures forall k: nat :: FirstCalled(ChildNames(n.kids), LOCAL_FIXUPS, k) ==>
      NthNode(n.kids, k).Some? && Lists(n) == NthNode(n.kids, k).value.kids
    ensures NoneCalled(ChildNames(n.kids), LOCAL_FIXUPS) ==> Lists(n) == Empty
  {
    hide ChildFocus, FirstCalled, NoneCalled;
    FocusByName(n.kids, LOCAL_FIXUPS);
  }

  /** No fixup names the node that holds the fixups. */
  ghost predicate Selfless(f: Forest, ts: seq<Tree>) {
    match f
    case Empty => true
    case Node(name, _, _, rest) =>
      (ChildIndex(ts, name) >= 0 ==> ChildIndex(ts, name) != ChildIndex(ts, LOCAL_FIXUPS)) && Selfless(rest, ts)
    case _ => Selfless(f.rest, ts)
  }

  // ---------- Different children do not overlap ----------

  lemma {:induction false} KidsApart(f: Forest, off: int, st: seq<u8>, a: seq<u8>, b: seq<u8>)
    requires Ok(f) && ChildFocus(f, a).Node? && ChildFocus(f, b).Node?
      && ChildIndex(Kids(f, st), a) != ChildIndex(Kids(f, st), b)
    ensures var x, y, i, j := ChildFocus(f, a), ChildFocus(f, b), FindChild(f, off, a), FindChild(f, off, b);
      Ok(x) && Ok(y) && i.Some? && j.Some? && Disjoint(i.value, NodeSize(x), j.value, NodeSize(y))
    decreases f
  {
    hide NameEq, TokWords, Words, Props;
    KidFound(f, off, a);
    KidFound(f, off, b);
    match f {
      case Prop(_, _, _, rest) => KidsApart(rest, off + TokSize(Head(f)), st, a, b);
      case Nop(rest) => KidsApart(rest, off + TokSize(Head(f)), st, a, b);
      case Node(nm, _, _, rest) =>
        assert Kids(f, st)[1..] == Kids(rest, st);
        if NameEq(nm, a) {
          if !NameEq(nm, b) { KidFound(rest, off + NodeSize(f), b); }
        } else if NameEq(nm, b) {
          KidFound(rest, off + NodeSize(f), a);
        } else {
          KidsApart(rest, off + NodeSize(f), st, a, b);
        }
      case Empty =>
    }
  }

  lemma {:induction false} KidFound(f: Forest, off: int, name: seq<u8>)
    requires Ok(f) && ChildFocus(f, name).Node?
    ensures Ok(ChildFocus(f, name)) && FindChild(f, off, name).Some? && FindChild(f, off, name).value >= off
    decreases f
  {
    hide NameEq, TokWords, Words;
    match f {
      case Prop(_, _, _, rest) => KidFound(rest, off + TokSize(Head(f)), name);
      case Nop(rest) => KidFound(rest, off + TokSize(Head(f)), name);
      case Node(nm, _, _, rest) => if !NameEq(nm, name) { KidFound(rest, off + NodeSize(f), name); }
      case Empty =>
    }
  }

  lemma {:induction false} KidPastRun(f: Forest, off: int, name: seq<u8>)
    requires Ok(f) && ChildFocus(f, name).Node?
    ensures OkC(RunCtx(f)) && FindChild(f, off, name).Some? && off + Offset(RunCtx(f)) <= FindChild(f, off, name).value
    decreases f
  {
    hide NameEq, TokWords, Words;
    OkRun(f);
    KidFound(f, off, name);
    match f {
      case Prop(_, _, _, rest) => KidPastRun(rest, off + TokSize(Head(f)), name);
      case Nop(rest) => KidPastRun(rest, off + TokSize(Head(f)), name);
      case _ =>
    }
  }

  /** Fixups that do not name their own node write nothing into it. */
  lemma {:induction false} SelflessSpares(n: Forest, f: Forest, st: seq<u8>)
    requires n.Node? && Ok(n) && ChildFocus(n.kids, LOCAL_FIXUPS).Node? && Selfless(f, Kids(n.kids, st))
    ensures var x, o := ChildFocus(n.kids, LOCAL_FIXUPS), FindChild(n.kids, TokSize(Head(n)), LOCAL_FIXUPS);
      Ok(x) && o.Some? && Spares(n, 0, f, o.value, NodeSize(x))
    decreases f
  {
    hide TokWords, Words, FindChild, ChildFocus, Ok, ChildIndex, Kids;
    AtIff([], 0, n);
    KidFound(n.kids, TokSize(Head(n)), LOCAL_FIXUPS);
    match f {
      case Empty =>
      case Node(name, _, _, rest) =>
        SelflessSpares(n, rest, st);
        ChildPlace(n.kids, TokSize(Head(n)), name);
        if ChildFocus(n.kids, name).Node? {
          ChildTree(n.kids, name, st);
          KidsApart(n.kids, TokSize(Head(n)), st, name, LOCAL_FIXUPS);
        }
      case Prop(_, _, _, rest) => SelflessSpares(n, rest, st);
      case Nop(rest) => SelflessSpares(n, rest, st);
    }
  }

  lemma {:induction false} SelflessClear(n: Forest, st: seq<u8>)
    requires n.Node? && Ok(n) && ChildFocus(n.kids, LOCAL_FIXUPS).Node? && Selfless(Lists(n), Kids(n.kids, st))
    ensures var x, o := ChildFocus(n.kids, LOCAL_FIXUPS), FindChild(n.kids, TokSize(Head(n)), LOCAL_FIXUPS);
      Ok(x) && Ok(Alone(x)) && o.Some? && NodeSize(Alone(x)) == NodeSize(x) && Clear(n, 0, Alone(x), o.value)
  {
    hide TokWords, Words, FindChild, ChildFocus, Selfless, Kids, Spares, RunCtx, Offset;
    SelflessSpares(n, Lists(n), st);
    KidPastRun(n.kids, TokSize(Head(n)), LOCAL_FIXUPS);
  }

  // ---------- overlay_update_local_references ----------

  lemma {:induction false} LookupLocal(s: seq<u8>)
    ensures Path.LookupPath(s, [SLASH] + LOCAL_FIXUPS, 0) == SubnodeOffset(s, 0, LOCAL_FIXUPS)
  {
    hide SubnodeOffset, Path.LookupPath;
    var names := [LOCAL_FIXUPS];
    assert Path.Slashed(names) == [SLASH] + LOCAL_FIXUPS by { assert names[1..] == []; }
    Path.LookupSlashed(s, names, 0);
    assert names[1..] == [];
  }

  lemma {:induction false} NoLists(t: Tree, st: seq<u8>, delta: u32)
    ensures FixTree(t, Empty, st, delta) == Fixed(t)
  {
  }

  /** overlay_update_local_references. */
  method UpdateLocalReferences(fdto: Rw.Fdt, delta: u32, ghost n: Forest) returns (err: int, ghost n2: Forest)
    requires fdto.Valid() && fdto.Encodes(Hole, n)
    requires Selfless(Lists(n), Kids(n.kids, Strings(fdto.h, fdto.mem.bytes)))
    modifies fdto, fdto.mem, fdto.mem.data
    ensures fdto.Valid() && fdto.Encodes(Hole, n2) && fdto.h == old(fdto.h)
      && Rsv(fdto.h, fdto.mem.bytes) == old(Rsv(fdto.h, fdto.mem.bytes))
    ensures Strings(fdto.h, fdto.mem.bytes) == old(Strings(fdto.h, fdto.mem.bytes)) && n2.rest == n.rest
    ensures Revised(n, n2, Strings(fdto.h, fdto.mem.bytes), AnyName())
    ensures var st := Strings(fdto.h, fdto.mem.bytes); var r := FixTree(TreeOf(n, st), Lists(n), st, delta);
      err == FixErr(r, n, 0, st, Reach(fdto.h)) && (r.Fixed? ==> TreeOf(n2, st) == r.value)
    ensures var st := Strings(fdto.h, fdto.mem.bytes); err == 0 <==> Fit.LevelsFit(TreeOf(n, st), Lists(n), st)
  {
    hide Struct, Strings, Rsv, Plug, Holds, Str, At, TokAt, TokWords, Kids, Props, Check.Named, Words, Ordered,
      FixTree, ValuePlace, Path.LookupPath, SubnodeOffset, Clear, ChildFocus, FindChild, Selfless, Revised,
        Fit.LevelsFit, Fit.FirstUnfit, Lists;
    var s, st := fdto.Blocks();
    Fit.FixIff(TreeOf(n, st), Lists(n), st, delta);
    ListsAre(n);
    PlugHole(n);
    RevisedSame(n, st, AnyName());
    ghost var h, m := fdto.h, fdto.mem.bytes;
    NodeAt(s, Hole, n);
    LookupLocal(s);
    SubnodeFinds(s, 0, n, LOCAL_FIXUPS);
    ChildPlace(n.kids, TokSize(Head(n)), LOCAL_FIXUPS);
    NoLists(TreeOf(n, st), st, delta);
    var fixups := Path.PathOffset(s, [SLASH] + LOCAL_FIXUPS);
    if fixups < 0 { return if fixups == NOTFOUND then 0 else fixups, n; }
    ListsHere(s, st, n);
    SelflessClear(n, st);
    err, n2 := UpdateNode(fdto, 0, fixups, delta, Hole, n, Alone(ChildFocus(n.kids, LOCAL_FIXUPS)));
    EditedParts(h, m, fdto.mem.bytes, 0, n, n2, NodeSize(n));
  }

  lemma {:induction false} ListsAre(n: Forest)
    requires n.Node?
    ensures var x := ChildFocus(n.kids, LOCAL_FIXUPS); Lists(n) == if x.Node? then x.kids else Empty
  {
  }

  lemma {:induction false} ListsHere(s: seq<u8>, st: seq<u8>, n: Forest)
    requires n.Node? && At(s, 0, n) && Check.Named(n, st) && ChildFocus(n.kids, LOCAL_FIXUPS).Node?
    ensures var x, o := ChildFocus(n.kids, LOCAL_FIXUPS), FindChild(n.kids, TokSize(Head(n)), LOCAL_FIXUPS);
      o.Some? && ListsAt(s, st, o.value, Alone(x))
  {
    hide At, TokAt, TokWords, Words, ChildFocus, ChildCtx, FindChild, Ok, Plug, Offset, Check.Named, ListsAt;
    AtIff(s, 0, n);
    var i, d, x := TokSize(Head(n)), ChildCtx(n.kids, LOCAL_FIXUPS), ChildFocus(n.kids, LOCAL_FIXUPS);
    ChildPlace(n.kids, i, LOCAL_FIXUPS);
    AtPlug(s, i, d, x);
    NamedNode(n, st);
    NamedPlug(d, x, st);
    NamedNode(x, st);
    AloneAt(s, st, i + Offset(d), x);
  }

  // ---------- The lists after the phandles have moved ----------

  lemma {:induction false} CellsNone(v: seq<u8>)
    ensures Cells(v) == [] <==> |v| < 4
  {
  }

  /** Moving the phandles changes no list, except lists for properties that are called phandle themselves. */
  lemma {:induction false} AlikeHitsHere(f: Forest, g: Forest, st: seq<u8>, prop: seq<u8>)
    requires Alike(f, g, st, PhandleNames())
    ensures prop !in PhandleNames() ==> HitsHere(g, st, prop) == HitsHere(f, st, prop)
    ensures HitsHere(g, st, prop) == [] <==> HitsHere(f, st, prop) == []
    decreases f
  {
    hide Str, Cells, PhandleNames;
    match f {
      case Prop(_, val, _, rest) =>
        AlikeHitsHere(rest, g.rest, st, prop);
        CellsNone(val);
        CellsNone(g.val);
      case Nop(rest) => AlikeHitsHere(rest, g.rest, st, prop);
      case _ =>
    }
  }

  lemma {:induction false} AlikeHits(f: Forest, g: Forest, st: seq<u8>, t: Tree, path: seq<nat>, prop: seq<u8>)
    requires Alike(f, g, st, PhandleNames())
    ensures prop !in PhandleNames() ==> Hits(g, st, t, path, prop) == Hits(f, st, t, path, prop)
    ensures Hits(g, st, t, path, prop) == [] <==> Hits(f, st, t, path, prop) == []
    decreases f, 1
  {
    hide PhandleNames;
    if path == [] { AlikeHitsHere(f, g, st, prop); } else { AlikeHitsBelow(f, g, st, t.children, path, prop); }
  }

  lemma {:induction false} AlikeHitsBelow(f: Forest, g: Forest, st: seq<u8>, ts: seq<Tree>, path: seq<nat>,
                                          prop: seq<u8>)
    requires Alike(f, g, st, PhandleNames()) && path != []
    ensures prop !in PhandleNames() ==> HitsBelow(g, st, ts, path, prop) == HitsBelow(f, st, ts, path, prop)
    ensures HitsBelow(g, st, ts, path, prop) == [] <==> HitsBelow(f, st, ts, path, prop) == []
    decreases f, 0
  {
    hide Str, Hits, ChildIndex, PhandleNames;
    match f {
      case Empty =>
      case Node(_, _, kids, rest) =>
        if path[0] < |ts| { AlikeHits(kids, g.kids, st, ts[path[0]], path[1..], prop); }
        AlikeHitsBelow(rest, g.rest, st, ts, path, prop);
      case Prop(_, _, _, rest) => AlikeHitsBelow(rest, g.rest, st, ts, path, prop);
      case Nop(rest) => AlikeHitsBelow(rest, g.rest, st, ts, path, prop);
    }
  }

  lemma {:induction false} AlikeSelfless(f: Forest, g: Forest, st: seq<u8>, ts: seq<Tree>, us: seq<Tree>)
    requires Alike(f, g, st, PhandleNames()) && SameShapes(ts, us) && Selfless(f, ts)
    ensures Selfless(g, us)
    decreases f
  {
    hide Str, ChildIndex, SameShapes, PhandleNames;
    match f {
      case Empty =>
      case Node(name, _, _, rest) =>
        ShapeIndex(ts, us, name);
        ShapeIndex(ts, us, LOCAL_FIXUPS);
        AlikeSelfless(rest, g.rest, st, ts, us);
      case Prop(_, _, _, rest) => AlikeSelfless(rest, g.rest, st, ts, us);
      case Nop(rest) => AlikeSelfless(rest, g.rest, st, ts, us);
    }
  }

  lemma {:induction false} AlikeLists(n: Forest, m: Forest, st: seq<u8>)
    requires n.Node? && Ok(n) && Alike(n, m, st, PhandleNames())
    ensures m.Node? && Alike(Lists(n), Lists(m), st, PhandleNames())
  {
    hide Str, ChildFocus, PhandleNames, TokWords;
    AlikeChild(n.kids, m.kids, st, PhandleNames(), 0, LOCAL_FIXUPS);
  }

  // ---------- References and phandles together ----------

  /**
   What the passes promise: the overlay's phandles clear of the base tree's, and every listed reference still naming its
   node.
   */
  ghost predicate Preserved(bases: seq<Tree>, t: Tree, t2: Tree, f: Forest, st: seq<u8>) {
    forall r, r' :: HasPhandle(t, f, st, r) && HasPhandle(t, f, st, r') ==>
      && Sub(t2, r).Some? && Sub(t2, r').Some?
      && (PhandleOf(Sub(t2, r).value) == PhandleOf(Sub(t2, r').value) <==>
         PhandleOf(Sub(t, r).value) == PhandleOf(Sub(t, r').value))
      && (forall i, b :: 0 <= i < |bases| && Sub(bases[i], b).Some? ==>
            PhandleOf(Sub(t2, r).value) > PhandleOf(Sub(bases[i], b).value))
      && (forall path, prop, p :: Listed(t, f, st, path, prop, p) ==>
            (RefAt(t, path, prop, p).value == PhandleOf(Sub(t, r).value) <==>
               RefAt(t2, path, prop, p) == Some(PhandleOf(Sub(t2, r).value))))
  }

  lemma {:induction false} BothPasses(bases: seq<Tree>, t: Tree, t1: Tree, t2: Tree, f: Forest, g: Forest, st: seq<u8>)
    requires AdjustTree(t, MaxTrees(bases)) == Done(t1) && FixTree(t1, g, st, MaxTrees(bases)) == Fixed(t2)
    requires Alike(f, g, st, PhandleNames())
    ensures Preserved(bases, t, t2, f, st)
  {
    hide AdjustTree, FixTree, Hits, Be32, Sub, MaxTrees, PhandleOf, Alike;
    forall path: seq<nat>, prop: seq<u8>, p: nat | Listed(t, f, st, path, prop, p)
      ensures Listed(t, g, st, path, prop, p)
    {
      AlikeHits(f, g, st, t, path, prop);
    }
    forall r, r' | HasPhandle(t, f, st, r) && HasPhandle(t, f, st, r')
      ensures HasPhandle(t, g, st, r) && HasPhandle(t, g, st, r')
    {
      AlikeHits(f, g, st, t, r, PHANDLE);
      AlikeHits(f, g, st, t, r, LINUX_PHANDLE);
      AlikeHits(f, g, st, t, r', PHANDLE);
      AlikeHits(f, g, st, t, r', LINUX_PHANDLE);
    }
    hide HasPhandle, Listed, RefAt;
    forall r, r' | HasPhandle(t, f, st, r) && HasPhandle(t, f, st, r')
      ensures
        && Sub(t2, r).Some? && Sub(t2, r').Some?
        && (PhandleOf(Sub(t2, r).value) == PhandleOf(Sub(t2, r').value) <==>
           PhandleOf(Sub(t, r).value) == PhandleOf(Sub(t, r').value))
        && (forall i, b :: 0 <= i < |bases| && Sub(bases[i], b).Some? ==>
              PhandleOf(Sub(t2, r).value) > PhandleOf(Sub(bases[i], b).value))
        && (forall path, prop, p :: Listed(t, f, st, path, prop, p) ==>
              (RefAt(t, path, prop, p).value == PhandleOf(Sub(t, r).value) <==>
                 RefAt(t2, path, prop, p) == Some(PhandleOf(Sub(t2, r).value))))
    {
      ReferencesKept(bases, t, t1, t2, g, st, r, r');
    }
  }

  /**
   fdt_overlay_apply up to the local references: the largest phandle of the base blob, whose structure block is
   `s`, then both passes over the overlay. `n1` is the overlay's root between the passes.
   */
  method MoveOverlay(s: seq<u8>, st: seq<u8>, fdto: Rw.Fdt, ghost base: Forest, ghost n: Forest)
    returns (err: int, ghost n1: Forest, ghost n2: Forest)
    requires Holds(s, base) && fdto.Valid() && fdto.Encodes(Hole, n)
    requires Selfless(Lists(n), Kids(n.kids, Strings(fdto.h, fdto.mem.bytes)))
    modifies fdto, fdto.mem, fdto.mem.data
    ensures fdto.Valid() && fdto.Encodes(Hole, n2) && fdto.h == old(fdto.h)
      && Rsv(fdto.h, fdto.mem.bytes) == old(Rsv(fdto.h, fdto.mem.bytes))
    ensures Strings(fdto.h, fdto.mem.bytes) == old(Strings(fdto.h, fdto.mem.bytes))
    ensures var sto, bases := Strings(fdto.h, fdto.mem.bytes), Kids(base, st);
      var t, delta := TreeOf(n, sto), MaxTrees(bases);
      match AdjustTree(t, delta)
      case Failed(e) => err == e < 0
      case Done(t1) =>
        && n1.Node? && Ok(n1) && TreeOf(n1, sto) == t1 && Revised(n, n1, sto, PhandleNames())
        && Revised(n1, n2, sto, AnyName()) && n2.rest == n1.rest == n.rest
        && var r := FixTree(t1, Lists(n1), sto, delta);
           && err == FixErr(r, n1, 0, sto, Reach(fdto.h))
           && (err == 0 ==> r == Fixed(TreeOf(n2, sto)) && Preserved(bases, t, TreeOf(n2, sto), Lists(n), sto))
  {
    hide Struct, Strings, Rsv, Plug, Holds, Str, At, Kids, Props, Check.Named, Ordered, FixTree, AdjustTree, MaxTrees,
      ValuePlace, Alike, SameHidden, Selfless, Preserved, FixErr, Lists, PhandleNames;
    ghost var sto := Strings(fdto.h, fdto.mem.bytes);
    PlugHole(n);
    n1, n2 := n, n;
    var delta;
    err, delta := FindMaxPhandle(s, st, base);
    if err != 0 { return; }
    err, n1 := AdjustNode(fdto, 0, delta, Hole, n);
    n2 := n1;
    if err != 0 { return; }
    AdjustShape(TreeOf(n, sto), delta);
    AlikeLists(n, n1, sto);
    ShapeKids(TreeOf(n, sto), TreeOf(n1, sto));
    AlikeSelfless(Lists(n), Lists(n1), sto, Kids(n.kids, sto), Kids(n1.kids, sto));
    err, n2 := UpdateLocalReferences(fdto, delta, n1);
    ghost var r := FixTree(TreeOf(n1, sto), Lists(n1), sto, delta);
    ErrZero(r, n1, 0, sto, Reach(fdto.h));
    if err == 0 { BothPasses(Kids(base, st), TreeOf(n, sto), TreeOf(n1, sto), r.value, Lists(n), Lists(n1), sto); }
  }

  lemma {:induction false} ShapeKids(t: Tree, u: Tree)
    requires SameShape(t, u)
    ensures SameShapes(t.children, u.children)
  {
  }

  // ---------- A fixup that names the fixups ----------

  /** `name { q = <w>; }`, followed by `rest`. */
  ghost function ListNode(name: seq<u8>, no: u32, w: u32, rest: Forest): Forest {
    Node(name, [], Prop(no, Put32(w), [], Empty), rest)
  }

  lemma {:induction false} OneWord(q: seq<u8>, no: u32, st: seq<u8>, v: seq<u8>, w: u32, delta: u32, z: seq<u8>)
    requires Str(st, no) == Some(q) && |v| == 4
    ensures FixTree(Tree(z, map[q := v], []), Prop(no, Put32(w), [], Empty), st, delta) ==
            if w > 0 then Missed([], q, w) else Fixed(Tree(z, map[q := Bump(v, 0, delta)], []))
  {
    hide Bump, Be32, Put32, Str, Cells, FixValue, FixProps;
    var m, g := map[q := v], Prop(no, Put32(w), [], Empty);
    FixAlone(m, g, st, delta);
    WordList(w);
    FixCons(v, w, Cells([]), delta);
    NoMoreKids([], g, 0, st, delta);
    if w == 0 {
      FixEmpty(Bump(v, 0, delta), delta);
      assert m[q := Bump(v, 0, delta)] == map[q := Bump(v, 0, delta)];
    }
  }

  lemma {:induction false} WordList(w: u32)
    ensures |Put32(w)| == 4 && Cells(Put32(w)) == [w] + Cells([])
  {
    hide Be32, Put32;
    PutRead(w);
    assert Put32(w)[4..] == [];
  }

  lemma {:induction false} ZeroMoved(delta: u32)
    ensures Bump(Put32(0), 0, delta) == Put32(delta)
  {
    hide Be32;
    PutRead(0);
    OverwriteAll(Put32(0), Put32(delta));
  }

  /**
   An overlay with fixups `__local_fixups__ { z { q = <0>; }; }` and `z { q = <0>; }`, in this order, and with a
   four-byte property `q` in `/z`. Read as they stood before the pass, the lists fit; but the first moves the
   second, and then its offset is behind the value.
   */
  lemma {:induction false} SelfListed(z: seq<u8>, q: seq<u8>, no: u32, st: seq<u8>, v: seq<u8>, delta: u32)
    requires Str(st, no) == Some(q) && |v| == 4 && !NameEq(z, LOCAL_FIXUPS) && !NameEq(LOCAL_FIXUPS, z) && delta > 0
    ensures var list, first := ListNode(z, no, 0, Empty), Tree(LOCAL_FIXUPS, map[], [Tree(z, map[q := Put32(0)], [])]);
      var ts := [Tree(z, map[q := v], []), Tree(LOCAL_FIXUPS, map[], [first, Tree(z, map[q := Put32(0)], [])])];
      var us := ts[1 := Tree(LOCAL_FIXUPS, map[], [first, Tree(z, map[q := Put32(delta)], [])])];
      && Kids(Node(LOCAL_FIXUPS, [], list, list), st) == ts[1].children
      && !Selfless(Node(LOCAL_FIXUPS, [], list, list), ts)
      && FixKids(ts, Node(LOCAL_FIXUPS, [], list, list), st, delta).Fixed?
      && FixKids(ts, Node(LOCAL_FIXUPS, [], list, Empty), st, delta) == Fixed(us)
      && FixKids(us, ListNode(z, no, delta, Empty), st, delta) == Missed([z], q, delta)
  {
    hide Str, Put32, Be32, Bump, FixTree, NameEq, FixKids, Selfless, Kids;
    var zero, list := Tree(z, map[q := Put32(0)], []), ListNode(z, no, 0, Empty);
    var first := Tree(LOCAL_FIXUPS, map[], [zero]);
    var ts := [Tree(z, map[q := v], []), Tree(LOCAL_FIXUPS, map[], [first, zero])];
    SelfMoves(z, q, no, st, v, delta);
    FixKidsAlone(ts, Node(LOCAL_FIXUPS, [], list, list), st, delta);
    SelfReads(z, q, no, st, v);
    var us := FixKids(ts, Node(LOCAL_FIXUPS, [], list, Empty), st, delta).value;
    FixKidsAlone(us, list, st, delta);
    FixKidsAlone(us, ListNode(z, no, delta, Empty), st, delta);
    Matches(z);
    FirstTwo(us[0], us[1], z);
    OneWord(q, no, st, v, 0, delta, z);
    OneWord(q, no, st, v, delta, delta, z);
    ListNone(us[0 := Tree(z, map[q := Bump(v, 0, delta)], [])], st, delta);
  }

  lemma {:induction false} ListNone(ts: seq<Tree>, st: seq<u8>, delta: u32)
    ensures FixKids(ts, Empty, st, delta) == Fixed(ts)
  {
  }

  lemma {:induction false} SelfReads(z: seq<u8>, q: seq<u8>, no: u32, st: seq<u8>, v: seq<u8>)
    requires Str(st, no) == Some(q) && !NameEq(z, LOCAL_FIXUPS)
    ensures var list, zero := ListNode(z, no, 0, Empty), Tree(z, map[q := Put32(0)], []);
      var first := Tree(LOCAL_FIXUPS, map[], [zero]);
      && Kids(Node(LOCAL_FIXUPS, [], list, list), st) == [first, zero]
      && !Selfless(Node(LOCAL_FIXUPS, [], list, list),
         [Tree(z, map[q := v], []), Tree(LOCAL_FIXUPS, map[], [first, zero])])
  {
    hide Str, Put32, NameEq;
    var list, zero := ListNode(z, no, 0, Empty), Tree(z, map[q := Put32(0)], []);
    assert Props(list.kids, st) == map[q := Put32(0)];
    assert Kids(list.kids, st) == [] && Kids(Empty, st) == [];
    assert Kids(list, st) == [zero];
    var first := Tree(LOCAL_FIXUPS, map[], [zero]);
    Matches(LOCAL_FIXUPS);
    FirstTwo(Tree(z, map[q := v], []), Tree(LOCAL_FIXUPS, map[], [first, zero]), LOCAL_FIXUPS);
  }

  /** The first fixup moves the list of the second. */
  lemma {:induction false} SelfMoves(z: seq<u8>, q: seq<u8>, no: u32, st: seq<u8>, v: seq<u8>, delta: u32)
    requires Str(st, no) == Some(q) && |v| == 4 && !NameEq(z, LOCAL_FIXUPS) && !NameEq(LOCAL_FIXUPS, z)
    ensures var list, zero := ListNode(z, no, 0, Empty), Tree(z, map[q := Put32(0)], []);
      var first := Tree(LOCAL_FIXUPS, map[], [zero]);
      var ts := [Tree(z, map[q := v], []), Tree(LOCAL_FIXUPS, map[], [first, zero])];
      FixKids(ts, Node(LOCAL_FIXUPS, [], list, Empty), st, delta) ==
      Fixed(ts[1 := Tree(LOCAL_FIXUPS, map[], [first, Tree(z, map[q := Put32(delta)], [])])])
  {
    hide Str, Put32, Be32, Bump, FixTree, NameEq, FixKids;
    var zero, list := Tree(z, map[q := Put32(0)], []), ListNode(z, no, 0, Empty);
    var first := Tree(LOCAL_FIXUPS, map[], [zero]);
    var local := Tree(LOCAL_FIXUPS, map[], [first, zero]);
    var a, b := Tree(z, map[q := v], []), Tree(z, map[q := Put32(delta)], []);
    Matches(LOCAL_FIXUPS);
    Matches(z);
    FirstTwo(a, local, LOCAL_FIXUPS);
    FirstTwo(first, zero, z);
    FixKidsAlone([a, local], Node(LOCAL_FIXUPS, [], list, Empty), st, delta);
    FixKidsAlone([first, zero], list, st, delta);
    WordList(0);
    OneWord(q, no, st, Put32(0), 0, delta, z);
    ZeroMoved(delta);
    InnerList(local, list, st, delta);
    assert [first, zero][1 := b] == [first, b];
  }

  lemma {:induction false} Matches(name: seq<u8>)
    ensures NameEq(name, name)
  {
  }

  lemma {:induction false} FirstTwo(a: Tree, b: Tree, name: seq<u8>)
    ensures NameEq(a.name, name) ==> ChildIndex([a, b], name) == 0
    ensures !NameEq(a.name, name) && NameEq(b.name, name) ==> ChildIndex([a, b], name) == 1
  {
    hide NameEq;
    assert [a, b][1..] == [b];
  }

  lemma {:induction false} InnerList(t: Tree, list: Forest, st: seq<u8>, delta: u32)
    requires list.Node? && list.rest.Empty?
    ensures FixTree(t, list, st, delta) ==
            match FixKids(t.children, list, st, delta)
            case Unfit => Unfit
            case Missed(names, prop, p) => Missed(names, prop, p)
            case Fixed(ts) => Fixed(Tree(t.name, t.props, ts))
  {
    hide FixKids;
  }
}
