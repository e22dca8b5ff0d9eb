/** Where in a tree a node is: by phandle, by path, and as a place that an edit can refill. */
module Target {
  import opened Bytes
  import opened Structure
  import opened Zipper
  import opened Walk
  import opened Lookup
  import opened Tree
  import opened Edit
  import opened Phandle
  import Fixup
  import Path

  // ---------- Positions ----------

  /** The position of the next node in the list. */
  ghost function Later(p: seq<nat>): seq<nat>
    requires p != []
  {
    [p[0] + 1] + p[1..]
  }

  /** The position of the node in a hole: among the nodes of the list, then among the children, and so on. */
  ghost function Position(c: Ctx): (p: seq<nat>)
    ensures p != []
  {
    match c
    case Hole => [0]
    case PastNode(_, _, _, d) => Later(Position(d))
    case Into(_, _, d, _) => [0] + Position(d)
    case _ => Position(c.c)
  }

  ghost function NodeIn(ts: seq<Tree>, p: seq<nat>): Option<Tree>
    requires p != []
  {
    if p[0] < |ts| then Sub(ts[p[0]], p[1..]) else None
  }

  /** A tree with another node at a position. */
  ghost function Put(t: Tree, p: seq<nat>, u: Tree): Tree
    requires Sub(t, p).Some?
    decreases |p|
  {
    if p == [] then u else t.(children := t.children[p[0] := Put(t.children[p[0]], p[1..], u)])
  }

  ghost function PutIn(ts: seq<Tree>, p: seq<nat>, u: Tree): seq<Tree>
    requires p != [] && NodeIn(ts, p).Some?
  {
    ts[p[0] := Put(ts[p[0]], p[1..], u)]
  }

  /** Neither position is at or below the other. */
  predicate Elsewhere(p: seq<nat>, q: seq<nat>) {
    p != [] && q != [] && (p[0] != q[0] || Elsewhere(p[1..], q[1..]))
  }

  /** The node put at a position is there, and every node elsewhere is the one that was there. */
  lemma {:induction false} PutSub(t: Tree, p: seq<nat>, u: Tree, q: seq<nat>)
    requires Sub(t, p).Some?
    ensures Sub(Put(t, p, u), p) == Some(u)
    ensures Elsewhere(p, q) ==> Sub(Put(t, p, u), q) == Sub(t, q)
    decreases |p|
  {
    if p != [] { PutSub(t.children[p[0]], p[1..], u, if q == [] then q else q[1..]); }
  }

  lemma {:induction false} PutInNode(ts: seq<Tree>, p: seq<nat>, u: Tree, q: seq<nat>)
    requires p != [] && q != [] && NodeIn(ts, p).Some?
    ensures NodeIn(PutIn(ts, p, u), p) == Some(u)
    ensures Elsewhere(p, q) ==> NodeIn(PutIn(ts, p, u), q) == NodeIn(ts, q)
  {
    PutSub(ts[p[0]], p[1..], u, q[1..]);
  }

  /** A node on the way to a position keeps its name, its properties and the number of its children. */
  ghost predicate SameNode(a: Option<Tree>, b: Option<Tree>) {
    && a.Some? && b.Some? && a.value.name == b.value.name && a.value.props == b.value.props
    && |a.value.children| == |b.value.children|
  }

  lemma {:induction false} PutAbove(t: Tree, p: seq<nat>, u: Tree, q: seq<nat>)
    requires Sub(t, p).Some? && q < p
    ensures SameNode(Sub(t, q), Sub(Put(t, p, u), q))
    decreases |p|
  {
    if q != [] { PutAbove(t.children[p[0]], p[1..], u, q[1..]); }
  }

  /** The trees with the node at `p` replaced by `u` and nothing else changed. */
  ghost predicate Replaced(ts: seq<Tree>, p: seq<nat>, u: Tree, us: seq<Tree>)
    requires p != []
  {
    && |us| == |ts| && NodeIn(us, p) == Some(u)
    && (forall q :: Elsewhere(p, q) ==> NodeIn(us, q) == NodeIn(ts, q))
    && forall q :: q != [] && q < p ==> SameNode(NodeIn(ts, q), NodeIn(us, q))
  }

  lemma {:induction false} PutReplaces(ts: seq<Tree>, p: seq<nat>, u: Tree)
    requires p != [] && NodeIn(ts, p).Some?
    ensures Replaced(ts, p, u, PutIn(ts, p, u))
  {
    var us := PutIn(ts, p, u);
    PutInNode(ts, p, u, p);
    forall q | Elsewhere(p, q) ensures NodeIn(us, q) == NodeIn(ts, q) { PutInNode(ts, p, u, q); }
    forall q | q != [] && q < p ensures SameNode(NodeIn(ts, q), NodeIn(us, q)) {
      PutAbove(ts[p[0]], p[1..], u, q[1..]);
    }
  }

  lemma {:induction false} PositionPast(ts: seq<Tree>, t: Tree, p: seq<nat>)
    requires p != []
    ensures var q := Later(p); NodeIn([t] + ts, q) == NodeIn(ts, p)
  {
    var q := Later(p);
    assert q[1..] == p[1..] && q[0] == p[0] + 1;
  }

  lemma {:induction false} PositionInto(ts: seq<Tree>, t: Tree, p: seq<nat>)
    requires p != []
    ensures var q: seq<nat> := [0] + p; NodeIn([t] + ts, q) == NodeIn(t.children, p)
  {
    var q: seq<nat> := [0] + p;
    assert q[1..] == p && q[0] == 0;
  }

  /** The node in the hole is the tree's node at the position. */
  lemma {:induction false} PositionIs(c: Ctx, n: Forest, st: seq<u8>)
    requires n.Node?
    ensures NodeIn(Kids(Plug(c, n), st), Position(c)) == Some(TreeOf(n, st))
    decreases c
  {
    hide Props, NodeIn;
    match c {
      case Hole => FirstIn(Kids(n.rest, st), TreeOf(n, st));
      case PastProp(_, _, _, d) => PositionIs(d, n, st);
      case PastNop(d) => PositionIs(d, n, st);
      case PastNode(name, npad, kids, d) =>
        PositionIs(d, n, st);
        PositionPast(Kids(Plug(d, n), st), Tree(name, Props(kids, st), Kids(kids, st)), Position(d));
      case Into(name, npad, d, rest) =>
        PositionIs(d, n, st);
        PositionInto(Kids(rest, st), Tree(name, Props(Plug(d, n), st), Kids(Plug(d, n), st)), Position(d));
    }
  }

  lemma {:induction false} FirstIn(ts: seq<Tree>, t: Tree)
    ensures NodeIn([t] + ts, [0]) == Some(t)
  {
    var p: seq<nat> := [0];
    assert p[1..] == [];
  }

  lemma {:induction false} FirstPut(ts: seq<Tree>, t: Tree, u: Tree)
    ensures NodeIn([t] + ts, [0]).Some? && PutIn([t] + ts, [0], u) == [u] + ts
  {
    FirstIn(ts, t);
    var p: seq<nat> := [0];
    assert p[1..] == [];
  }

  lemma {:induction false} PutPast(ts: seq<Tree>, t: Tree, p: seq<nat>, u: Tree)
    requires p != [] && NodeIn(ts, p).Some?
    ensures var q := Later(p); NodeIn([t] + ts, q).Some? && PutIn([t] + ts, q, u) == [t] + PutIn(ts, p, u)
  {
    PositionPast(ts, t, p);
    var q := Later(p);
    assert q[1..] == p[1..] && q[0] == p[0] + 1;
  }

  lemma {:induction false} PutInto(ts: seq<Tree>, t: Tree, p: seq<nat>, u: Tree)
    requires p != [] && NodeIn(t.children, p).Some?
    ensures var q: seq<nat> := [0] + p;
      NodeIn([t] + ts, q).Some? && PutIn([t] + ts, q, u) == [t.(children := PutIn(t.children, p, u))] + ts
  {
    PositionInto(ts, t, p);
    var q: seq<nat> := [0] + p;
    assert q[1..] == p && q[0] == 0;
  }

  lemma {:induction false} PropsAround(c: Ctx, n: Forest, m: Forest, st: seq<u8>)
    requires n.Node? && m.Node?
    ensures Props(Plug(c, m), st) == Props(Plug(c, n), st)
    decreases c
  {
    hide Str;
    if c.PastProp? || c.PastNop? { PropsAround(c.c, n, m, st); }
  }

  /** Refilling a hole with another node puts that node at the position, and changes nothing else. */
  lemma {:induction false} RefillPuts(c: Ctx, n: Forest, m: Forest, st: seq<u8>)
    requires n.Node? && m.Node? && m.rest == n.rest
    ensures NodeIn(Kids(Plug(c, n), st), Position(c)).Some?
    ensures Kids(Plug(c, m), st) == PutIn(Kids(Plug(c, n), st), Position(c), TreeOf(m, st))
    decreases c
  {
    hide Props, NodeIn, PutIn;
    PositionIs(c, n, st);
    var u := TreeOf(m, st);
    match c {
      case Hole => FirstPut(Kids(n.rest, st), TreeOf(n, st), u);
      case PastProp(_, _, _, d) => RefillPuts(d, n, m, st);
      case PastNop(d) => RefillPuts(d, n, m, st);
      case PastNode(name, npad, kids, d) =>
        RefillPuts(d, n, m, st);
        PutPast(Kids(Plug(d, n), st), Tree(name, Props(kids, st), Kids(kids, st)), Position(d), u);
      case Into(name, npad, d, rest) =>
        RefillPuts(d, n, m, st);
        PropsAround(d, n, m, st);
        PutInto(Kids(rest, st), Tree(name, Props(Plug(d, n), st), Kids(Plug(d, n), st)), Position(d), u);
    }
  }

  /** A place: a node and the way to it. */
  datatype Place = Place(c: Ctx, n: Forest)

  ghost predicate Is(pl: Place, f: Forest) {
    Plug(pl.c, pl.n) == f && pl.n.Node? && OkC(pl.c) && Ok(pl.n)
  }

  // ---------- fdt_node_offset_by_phandle ----------

  /** The first node in document order that has a phandle, by position. */
  ghost function FindIn(ts: seq<Tree>, ph: u32): (r: Option<seq<nat>>)
    ensures r.Some? ==> r.value != [] && NodeIn(ts, r.value).Some? && PhandleOf(NodeIn(ts, r.value).value) == ph
    decreases ts
  {
    hide PhandleOf, NodeIn;
    if ts == [] then None
    else
      assert ts == [ts[0]] + ts[1..];
      if PhandleOf(ts[0]) == ph then
        FirstIn(ts[1..], ts[0]);
        Some([0])
      else
        match FindIn(ts[0].children, ph)
        case Some(p) =>
          PositionInto(ts[1..], ts[0], p);
          Some([0] + p)
        case None =>
          match FindIn(ts[1..], ph)
          case Some(p) =>
            PositionPast(ts[1..], ts[0], p);
            Some(Later(p))
          case None => None
  }

  /** If none is found, no node has that phandle. */
  lemma {:induction false} FindNone(ts: seq<Tree>, ph: u32, p: seq<nat>)
    requires FindIn(ts, ph).None? && p != [] && NodeIn(ts, p).Some?
    ensures PhandleOf(NodeIn(ts, p).value) != ph
    decreases ts
  {
    hide PhandleOf;
    if p[0] == 0 {
      if p[1..] != [] { FindNone(ts[0].children, ph, p[1..]); }
    } else {
      var q: seq<nat> := [p[0] - 1] + p[1..];
      assert q[1..] == p[1..];
      FindNone(ts[1..], ph, q);
    }
  }

  lemma {:induction false} FindFirst(ts: seq<Tree>, ph: u32, q: seq<nat>)
    requires FindIn(ts, ph).Some? && q != [] && NodeIn(ts, q).Some? && Earlier(q, FindIn(ts, ph).value)
    ensures PhandleOf(NodeIn(ts, q).value) != ph
    decreases ts
  {
    hide PhandleOf;
    var r := FindIn(ts, ph).value;
    if q[0] == 0 {
      if q[1..] != [] {
        match FindIn(ts[0].children, ph) {
          case Some(p) =>
            assert r == [0] + p && r[1..] == p;
            FindFirst(ts[0].children, ph, q[1..]);
          case None => FindNone(ts[0].children, ph, q[1..]);
        }
      }
    } else {
      var p, q' := FindIn(ts[1..], ph).value, [q[0] - 1] + q[1..];
      assert r == Later(p) && r[1..] == p[1..] && q'[1..] == q[1..];
      FindFirst(ts[1..], ph, q');
    }
  }

  /** The node at `p` has the phandle, and no node before it in document order has. */
  ghost predicate FirstWith(ts: seq<Tree>, ph: u32, p: seq<nat>) {
    && p != [] && NodeIn(ts, p).Some? && PhandleOf(NodeIn(ts, p).value) == ph
    && forall q :: q != [] && NodeIn(ts, q).Some? && Earlier(q, p) ==> PhandleOf(NodeIn(ts, q).value) != ph
  }

  /** The search by phandle finds the first node in document order that has it, and fails when none has. */
  lemma {:induction false} FindIff(ts: seq<Tree>, ph: u32)
    ensures forall p :: FindIn(ts, ph) == Some(p) <==> FirstWith(ts, ph, p)
    ensures FindIn(ts, ph).None? <==>
      forall q :: q != [] && NodeIn(ts, q).Some? ==> PhandleOf(NodeIn(ts, q).value) != ph
  {
    hide PhandleOf, NodeIn, FindIn;
    match FindIn(ts, ph) {
      case None =>
        forall q | q != [] && NodeIn(ts, q).Some? ensures PhandleOf(NodeIn(ts, q).value) != ph { FindNone(ts, ph, q); }
      case Some(p) =>
        forall q | q != [] && NodeIn(ts, q).Some? && Earlier(q, p) ensures PhandleOf(NodeIn(ts, q).value) != ph {
          FindFirst(ts, ph, q);
        }
        assert FirstWith(ts, ph, p);
        forall q | FirstWith(ts, ph, q) ensures q == p { if q != p { OneEarlier(q, p); } }
    }
  }

  ghost function PhandlePlace(f: Forest, st: seq<u8>, ph: u32): Option<Place> {
    match f
    case Empty => None
    case Prop(nameoff, val, pad, rest) =>
      (match PhandlePlace(rest, st, ph) case Some(x) => Some(x.(c := PastProp(nameoff, val, pad, x.c)))
        case None => None)
    case Nop(rest) =>
      (match PhandlePlace(rest, st, ph) case Some(x) => Some(x.(c := PastNop(x.c))) case None => None)
    case Node(name, npad, kids, rest) =>
      if PhandleOf(TreeOf(f, st)) == ph then Some(Place(Hole, f))
      else
        match PhandlePlace(kids, st, ph)
        case Some(x) => Some(x.(c := Into(name, npad, x.c, rest)))
        case None =>
          match PhandlePlace(rest, st, ph)
          case Some(x) => Some(x.(c := PastNode(name, npad, kids, x.c)))
          case None => None
  }

  lemma {:induction false} PhandlePlaceIs(f: Forest, st: seq<u8>, ph: u32)
    requires Ok(f)
    ensures PhandlePlace(f, st, ph).Some? ==> Is(PhandlePlace(f, st, ph).value, f)
    decreases f
  {
    hide PhandleOf, Props, Kids, TokOk;
    match f {
      case Empty =>
      case Prop(_, _, _, rest) => PhandlePlaceIs(rest, st, ph);
      case Nop(rest) => PhandlePlaceIs(rest, st, ph);
      case Node(_, _, kids, rest) =>
        PhandlePlaceIs(kids, st, ph);
        PhandlePlaceIs(rest, st, ph);
    }
  }

  /** The place found and the position found are the same node. */
  lemma {:induction false} PhandlePosition(f: Forest, st: seq<u8>, ph: u32)
    ensures FindIn(Kids(f, st), ph) ==
            match PhandlePlace(f, st, ph) case Some(x) => Some(Position(x.c)) case None => None
    decreases f
  {
    hide PhandleOf, Props;
    match f {
      case Empty =>
      case Prop(_, _, _, rest) => PhandlePosition(rest, st, ph);
      case Nop(rest) => PhandlePosition(rest, st, ph);
      case Node(_, _, kids, rest) =>
        PhandlePosition(kids, st, ph);
        PhandlePosition(rest, st, ph);
        assert Kids(f, st)[1..] == Kids(rest, st);
    }
  }

  /** The search over the nodes that a walk visits. */
  function SearchVisits(s: seq<u8>, st: seq<u8>, vs: seq<Visit>, ph: u32): Option<int> {
    if vs == [] then None
    else if Fixup.PhandleAt(s, st, vs[0].off) == ph then Some(vs[0].off)
    else SearchVisits(s, st, vs[1..], ph)
  }

  lemma {:induction false} SearchConcat(s: seq<u8>, st: seq<u8>, a: seq<Visit>, b: seq<Visit>, ph: u32)
    ensures SearchVisits(s, st, a + b, ph) ==
            match SearchVisits(s, st, a, ph) case Some(o) => Some(o) case None => SearchVisits(s, st, b, ph)
    decreases |a|
  {
    hide Fixup.PhandleAt;
    if a == [] {
      assert a + b == b;
    } else {
      assert (a + b)[1..] == a[1..] + b;
      SearchConcat(s, st, a[1..], b, ph);
    }
  }

  lemma {:induction false} SearchNone(s: seq<u8>, st: seq<u8>, ph: u32)
    ensures SearchVisits(s, st, [], ph) == None
  {
  }

  lemma {:induction false} SearchNode(s: seq<u8>, st: seq<u8>, v: Visit, x: seq<Visit>, y: seq<Visit>, ph: u32)
    ensures SearchVisits(s, st, [v] + (x + y), ph) ==
      if Fixup.PhandleAt(s, st, v.off) == ph then Some(v.off)
      else match SearchVisits(s, st, x, ph) case Some(o) => Some(o) case None => SearchVisits(s, st, y, ph)
  {
    hide Fixup.PhandleAt;
    SearchConcat(s, st, x, y, ph);
    assert ([v] + (x + y))[1..] == x + y;
  }

  lemma {:induction false} SearchForest(s: seq<u8>, off: nat, f: Forest, st: seq<u8>, d: int, ph: u32)
    requires At(s, off, f)
    ensures Ok(f) && (PhandlePlace(f, st, ph).Some? ==> OkC(PhandlePlace(f, st, ph).value.c))
    ensures SearchVisits(s, st, Preorder(f, off, d), ph) ==
            match PhandlePlace(f, st, ph) case Some(x) => Some(off + Offset(x.c)) case None => None
    decreases f
  {
    hide At, TokAt, TokWords, Words, Fixup.PhandleAt, PhandleOf, Props, Kids, Ok, TokOk, SearchVisits;
    AtIff(s, off, f);
    PhandlePlaceIs(f, st, ph);
    match f {
      case Empty => SearchNone(s, st, ph);
      case Node(_, _, kids, rest) =>
        var i, k := off + TokSize(Head(f)), off + NodeSize(f);
        var x, y := Preorder(kids, i, d + 1), Preorder(rest, k, d);
        Fixup.PhandleAtIs(s, off, f, st);
        SearchForest(s, i, kids, st, d + 1, ph);
        SearchForest(s, k, rest, st, d, ph);
        SearchNode(s, st, Visit(off, d), x, y, ph);
      case Prop(_, _, _, rest) => SearchForest(s, off + TokSize(Head(f)), rest, st, d, ph);
      case Nop(rest) => SearchForest(s, off + TokSize(Head(f)), rest, st, d, ph);
    }
  }

  /** fdt_node_offset_by_phandle: the first node with that phandle, and NOTFOUND exactly when no node has it. */
  method NodeByPhandle(s: seq<u8>, st: seq<u8>, phandle: u32, ghost f: Forest) returns (r: int)
    requires Holds(s, f)
    ensures phandle == 0 || phandle == TWO32 - 1 ==> r == BADPHANDLE
    ensures phandle != 0 && phandle != TWO32 - 1 ==>
      match PhandlePlace(f, st, phandle) case Some(x) => Is(x, f) && r == Offset(x.c) case None => r == NOTFOUND
  {
    hide At, Be32, Words, NextTag, Aligned, Fixup.PhandleAt, Preorder, PhandlePlace, Hop;
    if phandle == 0 || phandle == TWO32 - 1 { return BADPHANDLE; }
    VisitsBlock(s, f);
    SearchForest(s, 0, f, st, 0, phandle);
    PhandlePlaceIs(f, st, phandle);
    var v := NextNodeLoop(s, -1, -1, false);
    ghost var p: nat, d := 0, -1;
    ghost var found := SearchVisits(s, st, Visits(s, 0, -1, false), phandle);
    while v.off >= 0
      invariant v == Hop(s, p, d, false)
      invariant SearchVisits(s, st, Visits(s, p, d, false), phandle) == found
      invariant LastHop(s, p, d, false).off == NOTFOUND && Aligned(p)
      decreases |s| - p
    {
      NextTagForm(s, v.off);
      AlignedMod(v.off);
      p, d := NextTag(s, v.off).next, v.depth;
      if Fixup.PhandleAt(s, st, v.off) == phandle { return v.off; }
      v := NextNodeLoop(s, v.off, v.depth, false);
    }
    return v.off;
  }

  // ---------- fdt_path_offset ----------

  /** The way down by a path, as child positions: at each level the first child that matches. */
  ghost function Along(t: Tree, p: seq<u8>): (r: Option<seq<nat>>)
    ensures r.Some? ==> Sub(t, r.value).Some?
    decreases |p|
  {
    var q := SkipSlashes(p);
    if q == [] then Some([])
    else
      var k := Find(q, SLASH);
      var i := ChildIndex(t.children, q[..k]);
      if !(0 <= i < |t.children|) then None
      else
        match Along(t.children[i], q[k..])
        case Some(x) =>
          assert ([i] + x)[1..] == x;
          Some([i] + x)
        case None => None
  }

  ghost function PathPlace(c: Ctx, n: Forest, p: seq<u8>): (r: Option<Place>)
    requires n.Node?
    ensures r.Some? ==> r.value.n.Node?
    decreases |p|
  {
    var q := SkipSlashes(p);
    if q == [] then Some(Place(c, n))
    else
      var k := Find(q, SLASH);
      var g := ChildFocus(n.kids, q[..k]);
      if g.Node? then PathPlace(Inside(c, n, ChildCtx(n.kids, q[..k])), g, q[k..]) else None
  }

  /** The place that a path leads to from a node is where the lookup ends. */
  lemma {:induction false} PathPlaceIs(s: seq<u8>, c: Ctx, n: Forest, p: seq<u8>)
    requires OkC(c) && Ok(n) && n.Node? && Holds(s, Plug(c, n))
    ensures match PathPlace(c, n, p)
            case Some(x) => Is(x, Plug(c, n)) && Path.LookupPath(s, p, Offset(c)) == Offset(x.c)
            case None => Path.LookupPath(s, p, Offset(c)) == NOTFOUND
    decreases |p|
  {
    hide Holds, Plug, Ok, OkC, Offset, SubnodeOffset, FindChild, ChildFocus, ChildCtx, Inside, TokWords, Words, At,
      TokAt, SkipSlashes, Find;
    var q := SkipSlashes(p);
    if q != [] {
      var k := Find(q, SLASH);
      var name := q[..k];
      NodeAt(s, c, n);
      SubnodeFinds(s, Offset(c), n, name);
      ChildPlace(n.kids, Offset(c) + TokSize(Head(n)), name);
      var d, g := ChildCtx(n.kids, name), ChildFocus(n.kids, name);
      if g.Node? {
        InsideIs(c, n, d, g);
        assert WithKids(n, n.kids) == n;
        PathPlaceIs(s, Inside(c, n, d), g, q[k..]);
      }
    }
  }

  lemma {:induction false} ChildPosition(f: Forest, name: seq<u8>, st: seq<u8>)
    requires ChildFocus(f, name).Node?
    ensures ChildIndex(Kids(f, st), name) >= 0 && Position(ChildCtx(f, name)) == [ChildIndex(Kids(f, st), name)]
    decreases f
  {
    hide NameEq, Props;
    match f {
      case Prop(_, _, _, rest) => ChildPosition(rest, name, st);
      case Nop(rest) => ChildPosition(rest, name, st);
      case Node(nm, _, _, rest) =>
        assert Kids(f, st)[1..] == Kids(rest, st);
        if !NameEq(nm, name) { ChildPosition(rest, name, st); }
      case Empty =>
    }
  }

  lemma {:induction false} LaterConcat(a: seq<nat>, b: seq<nat>)
    requires a != []
    ensures Later(a + b) == Later(a) + b
  {
    assert (a + b)[1..] == a[1..] + b;
  }

  /** Positions add up along a way that goes into a node. */
  lemma {:induction false} PositionCompose(c: Ctx, name: seq<u8>, npad: seq<u8>, d: Ctx, rest: Forest)
    ensures Position(Compose(c, Into(name, npad, d, rest))) == Position(c) + Position(d)
    decreases c
  {
    hide Later;
    var q := Position(d);
    match c {
      case Hole =>
      case PastNode(_, _, _, e) =>
        PositionCompose(e, name, npad, d, rest);
        LaterConcat(Position(e), q);
      case Into(_, _, e, _) =>
        PositionCompose(e, name, npad, d, rest);
        ZeroConcat(Position(e), q);
      case PastProp(_, _, _, e) => PositionCompose(e, name, npad, d, rest);
      case PastNop(e) => PositionCompose(e, name, npad, d, rest);
    }
  }

  lemma {:induction false} ZeroConcat(a: seq<nat>, b: seq<nat>)
    ensures [0] + (a + b) == ([0] + a) + b
  {
  }

  lemma {:induction false} PositionInside(c: Ctx, n: Forest, d: Ctx)
    requires n.Node?
    ensures Position(Inside(c, n, d)) == Position(c) + Position(d)
  {
    hide Position;
    PositionCompose(c, n.name, n.npad, d, n.rest);
  }

  /** The place that a path leads to and the position that it leads to are the same node. */
  lemma {:induction false} PathPosition(c: Ctx, n: Forest, p: seq<u8>, st: seq<u8>)
    requires n.Node?
    ensures match PathPlace(c, n, p)
            case Some(x) => Along(TreeOf(n, st), p).Some?
              && Position(x.c) == Position(c) + Along(TreeOf(n, st), p).value
            case None => Along(TreeOf(n, st), p).None?
    decreases |p|
  {
    hide Props, Kids, ChildFocus, ChildCtx, ChildIndex, Inside, SkipSlashes, Find, Position, Sub;
    var q := SkipSlashes(p);
    if q == [] {
      assert Position(c) + [] == Position(c);
    } else {
      var k := Find(q, SLASH);
      var name, ts := q[..k], Kids(n.kids, st);
      var g, d := ChildFocus(n.kids, name), ChildCtx(n.kids, name);
      ChildTree(n.kids, name, st);
      if g.Node? {
        PathPosition(Inside(c, n, d), g, q[k..], st);
        ChildPosition(n.kids, name, st);
        PositionInside(c, n, d);
        var i: nat := ChildIndex(ts, name);
        if PathPlace(Inside(c, n, d), g, q[k..]).Some? {
          var x := Along(TreeOf(g, st), q[k..]).value;
          assert (Position(c) + [i]) + x == Position(c) + ([i] + x);
        }
      }
    }
  }

  // ---------- Where a path leads ----------

  /** Child `i` is the first that `name` finds. */
  ghost predicate FirstChild(ts: seq<Tree>, name: seq<u8>, i: nat) {
    i < |ts| && Called(ts[i].name, name) && forall j :: 0 <= j < i ==> !Called(ts[j].name, name)
  }

  lemma {:induction false} IndexIff(ts: seq<Tree>, name: seq<u8>, i: nat)
    ensures ChildIndex(ts, name) == i <==> FirstChild(ts, name, i)
    ensures ChildIndex(ts, name) < |ts|
    decreases |ts|
  {
    hide NameEq, Called;
    if ts != [] {
      CalledIs(ts[0].name, name);
      IndexIff(ts[1..], name, if i == 0 then 0 else i - 1);
      FirstChildNext(ts, name, i);
    }
  }

  lemma {:induction false} FirstChildNext(ts: seq<Tree>, name: seq<u8>, i: nat)
    requires ts != []
    ensures FirstChild(ts, name, i) <==>
      if i == 0 then Called(ts[0].name, name) else !Called(ts[0].name, name) && FirstChild(ts[1..], name, i - 1)
  {
    hide Called;
    if i > 0 && !Called(ts[0].name, name) && FirstChild(ts[1..], name, i - 1) {
      forall j | 0 <= j < i ensures !Called(ts[j].name, name) { assert j > 0 ==> ts[j] == ts[1..][j - 1]; }
    }
  }

  ghost predicate FollowsAt(t: Tree, names: seq<seq<u8>>, x: seq<nat>, i: nat)
    requires |x| == |names| && i < |x|
  {
    Sub(t, x[..i]).Some? && FirstChild(Sub(t, x[..i]).value.children, names[i], x[i])
  }

  /** Going down by names, each the first child it finds, leads to the position `x`. */
  ghost predicate Follows(t: Tree, names: seq<seq<u8>>, x: seq<nat>) {
    |x| == |names| && forall i :: 0 <= i < |x| ==> FollowsAt(t, names, x, i)
  }

  lemma {:induction false} FollowsBelow(t: Tree, names: seq<seq<u8>>, x: seq<nat>, i: nat)
    requires |x| == |names| && i + 1 < |x| && x[0] < |t.children|
    ensures FollowsAt(t, names, x, i + 1) <==> FollowsAt(t.children[x[0]], names[1..], x[1..], i)
  {
    hide FirstChild;
    assert x[..i + 1][1..] == x[1..][..i];
  }

  lemma {:induction false} FollowsStep(t: Tree, names: seq<seq<u8>>, x: seq<nat>)
    requires names != []
    ensures Follows(t, names, x) <==>
      x != [] && FirstChild(t.children, names[0], x[0]) && Follows(t.children[x[0]], names[1..], x[1..])
  {
    if |x| == |names| {
      assert x[..0] == [] && (FollowsAt(t, names, x, 0) <==> FirstChild(t.children, names[0], x[0]));
      if FirstChild(t.children, names[0], x[0]) { FollowsTail(t, names, x); }
    }
  }

  lemma {:induction false} FollowsTail(t: Tree, names: seq<seq<u8>>, x: seq<nat>)
    requires names != [] && |x| == |names| && x[0] < |t.children| && FollowsAt(t, names, x, 0)
    ensures Follows(t, names, x) <==> Follows(t.children[x[0]], names[1..], x[1..])
  {
    hide FollowsAt;
    var u := t.children[x[0]];
    if Follows(t, names, x) {
      forall i | 0 <= i < |x| - 1 ensures FollowsAt(u, names[1..], x[1..], i) { FollowsBelow(t, names, x, i); }
    }
    if Follows(u, names[1..], x[1..]) {
      forall i | 0 <= i < |x| ensures FollowsAt(t, names, x, i) { if i > 0 { FollowsBelow(t, names, x, i - 1); } }
    }
  }

  /** One level down by a name. */
  lemma {:induction false} FollowsFirst(t: Tree, x: seq<u8>, names: seq<seq<u8>>, p: seq<nat>)
    requires 0 <= ChildIndex(t.children, x) < |t.children|
    ensures var i := ChildIndex(t.children, x);
      && (Follows(t, [x] + names, [i] + p) <==> Follows(t.children[i], names, p))
      && Sub(t, [i] + p) == Sub(t.children[i], p)
  {
    hide Follows, ChildIndex, FirstChild;
    var i, all := ChildIndex(t.children, x), [x] + names;
    var q: seq<nat> := [i] + p;
    assert all[1..] == names && q[1..] == p;
    IndexIff(t.children, x, i);
    FollowsStep(t, all, q);
  }

  /** Whatever the names lead to lies below the child that the first finds. */
  lemma {:induction false} FollowsVia(t: Tree, x: seq<u8>, names: seq<seq<u8>>, y: seq<nat>)
    requires Follows(t, [x] + names, y)
    ensures var i := ChildIndex(t.children, x);
      0 <= i < |t.children| && y != [] && y == [i] + y[1..] && Follows(t.children[i], names, y[1..])
  {
    hide Follows, ChildIndex, FirstChild;
    var all := [x] + names;
    assert all[1..] == names;
    FollowsStep(t, all, y);
    IndexIff(t.children, x, y[0]);
  }

  /** A path: names with slashes before, between and behind them. */
  function Spelled(gaps: seq<nat>, names: seq<seq<u8>>): seq<u8>
    requires |gaps| == |names| + 1
  {
    if names == [] then Slashes(gaps[0]) else Slashes(gaps[0]) + names[0] + Spelled(gaps[1..], names[1..])
  }

  /** The names are proper components, and at least one slash is between two of them. */
  predicate Spelling(gaps: seq<nat>, names: seq<seq<u8>>) {
    && |gaps| == |names| + 1 && Path.Plain(names)
    && forall i :: 0 < i < |names| ==> gaps[i] > 0
  }

  lemma {:induction false} GapFirst(gaps: seq<nat>, names: seq<seq<u8>>)
    requires |gaps| == |names| + 1 && (names == [] || gaps[0] > 0)
    ensures Spelled(gaps, names) == [] || Spelled(gaps, names)[0] == SLASH
  {
  }

  lemma {:induction false} SpelledStep(gaps: seq<nat>, names: seq<seq<u8>>)
    requires Spelling(gaps, names) && names != []
    ensures var q, rest := SkipSlashes(Spelled(gaps, names)), Spelled(gaps[1..], names[1..]);
      && q != [] && Find(q, SLASH) == |names[0]| && q[..|names[0]|] == names[0] && q[|names[0]|..] == rest
      && Spelling(gaps[1..], names[1..])
  {
    hide Slashes;
    var rest := Spelled(gaps[1..], names[1..]);
    var w := names[0] + rest;
    assert w[0] == names[0][0];
    assert Spelled(gaps, names) == Slashes(gaps[0]) + w;
    SkipGap(gaps[0], w);
    GapFirst(gaps[1..], names[1..]);
    FindIs(names[0], rest, SLASH);
  }

  /** A path leads where its names lead, however many slashes are around them. */
  lemma {:induction false} AlongIff(t: Tree, gaps: seq<nat>, names: seq<seq<u8>>)
    requires Spelling(gaps, names)
    ensures forall x :: Along(t, Spelled(gaps, names)) == Some(x) <==> Follows(t, names, x)
    decreases |names|
  {
    hide Spelled, Path.Plain, ChildIndex, FirstChild, SkipSlashes, Find;
    var p := Spelled(gaps, names);
    if names == [] {
      NoNamesSpelled(gaps);
      forall x ensures Along(t, p) == Some(x) <==> Follows(t, names, x) { assert Follows(t, names, x) <==> x == []; }
    } else {
      SpelledStep(gaps, names);
      forall x ensures Along(t, p) == Some(x) <==> Follows(t, names, x) { AlongOne(t, gaps, names, x); }
    }
  }

  lemma {:induction false} NoNamesSpelled(gaps: seq<nat>)
    requires |gaps| == 1
    ensures SkipSlashes(Spelled(gaps, [])) == []
  {
    SkipGap(gaps[0], []);
    assert Slashes(gaps[0]) + [] == Slashes(gaps[0]);
  }

  lemma {:induction false} AlongOne(t: Tree, gaps: seq<nat>, names: seq<seq<u8>>, x: seq<nat>)
    requires Spelling(gaps, names) && names != []
    ensures Along(t, Spelled(gaps, names)) == Some(x) <==> Follows(t, names, x)
    decreases |names|, 0
  {
    hide Spelled, Path.Plain, ChildIndex, FirstChild, SkipSlashes, Find, Follows;
    SpelledStep(gaps, names);
    FollowsStep(t, names, x);
    var i := ChildIndex(t.children, names[0]);
    if x != [] { IndexIff(t.children, names[0], x[0]); }
    if 0 <= i < |t.children| {
      IndexIff(t.children, names[0], i);
      AlongIff(t.children[i], gaps[1..], names[1..]);
      if x != [] { assert x == [x[0]] + x[1..]; }
    }
  }

  /** Every text is such a path. */
  lemma {:induction false} Spell(p: seq<u8>) returns (gaps: seq<nat>, names: seq<seq<u8>>)
    ensures Spelling(gaps, names) && Spelled(gaps, names) == p
    decreases |p|
  {
    if p == [] {
      gaps, names := [0], [];
    } else if p[0] == SLASH {
      var g, n := Spell(p[1..]);
      gaps, names := g[0 := g[0] + 1], n;
      WiderGap(g, n);
      assert p == [SLASH] + p[1..];
    } else {
      var k := Find(p, SLASH);
      var g, n := Spell(p[k..]);
      gaps, names := [0] + g, [p[..k]] + n;
      if n != [] && g[0] == 0 { FirstGap(g, n); }
      assert gaps[1..] == g && names[1..] == n && p == p[..k] + p[k..];
      assert Slashes(0) + p[..k] == p[..k];
    }
  }

  lemma {:induction false} WiderGap(g: seq<nat>, n: seq<seq<u8>>)
    requires |g| == |n| + 1
    ensures Spelled(g[0 := g[0] + 1], n) == [SLASH] + Spelled(g, n)
  {
    var h := g[0 := g[0] + 1];
    assert h[1..] == g[1..];
  }

  lemma {:induction false} FirstGap(g: seq<nat>, n: seq<seq<u8>>)
    requires Spelling(g, n) && n != [] && g[0] == 0
    ensures Spelled(g, n) != [] && Spelled(g, n)[0] != SLASH
  {
    assert Spelled(g, n)[0] == n[0][0];
  }
}
