/** When the fixup lists of an overlay fit its tree, and which list is at fault when they do not. */
module Fit {
  import opened Bytes
  import opened Structure
  import opened Lookup
  import opened Tree
  import opened Edit
  import opened Phandle
  import opened Target

  // ---------- What the lists say ----------

  /** A property of a fixup node: the offsets of the words to move in the property of that name. */
  datatype List = List(prop: seq<u8>, val: seq<u8>)

  /** The lists of a fixup node with contents `f`. */
  ghost function ListsOf(f: Forest, st: seq<u8>): seq<List> {
    match f
    case Prop(nameoff, val, _, rest) =>
      (match Str(st, nameoff) case Some(n) => [List(n, val)] case None => []) + ListsOf(rest, st)
    case Nop(rest) => ListsOf(rest, st)
    case _ => []
  }

  /** The list is no list of words, or the property is not there. */
  predicate Ragged(m: map<seq<u8>, seq<u8>>, l: List) {
    |l.val| % 4 != 0 || l.prop !in m
  }

  /** The `i`-th listed word, if there is one, lies inside a value of `n` bytes. */
  predicate WordFits(val: seq<u8>, n: nat, i: nat) {
    4 * i + 4 <= |val| ==> Be32(val, 4 * i) + 4 <= n
  }

  ghost predicate ListFits(m: map<seq<u8>, seq<u8>>, l: List) {
    !Ragged(m, l) && forall i: nat :: WordFits(l.val, |m[l.prop]|, i)
  }

  /** The `i`-th is the first listed word that is not inside. */
  ghost predicate FirstOutside(val: seq<u8>, n: nat, i: nat) {
    4 * i + 4 <= |val| && !WordFits(val, n, i) && forall j :: 0 <= j < i ==> WordFits(val, n, j)
  }

  /** The contents of the fixup node at a position, and the names on the way to it. */
  ghost function Level(f: Forest, q: seq<nat>): Option<Forest>
    decreases |q|
  {
    if q == [] then Some(f)
    else match NthNode(f, q[0]) case Some(x) => Level(x.kids, q[1..]) case None => None
  }

  ghost function LevelNames(f: Forest, q: seq<nat>): seq<seq<u8>>
    requires Level(f, q).Some?
    decreases |q|
  {
    if q == [] then [] else [NthNode(f, q[0]).value.name] + LevelNames(NthNode(f, q[0]).value.kids, q[1..])
  }

  ghost predicate AllFit(m: map<seq<u8>, seq<u8>>, ls: seq<List>) {
    forall j :: 0 <= j < |ls| ==> ListFits(m, ls[j])
  }

  /** The names of a fixup node lead to a node of the tree, and all its lists fit there. */
  ghost predicate LevelFits(t: Tree, f: Forest, st: seq<u8>, q: seq<nat>)
    requires Level(f, q).Some?
  {
    exists x :: Follows(t, LevelNames(f, q), x) && Sub(t, x).Some?
      && AllFit(Sub(t, x).value.props, ListsOf(Level(f, q).value, st))
  }

  /** Every fixup node fits. */
  ghost predicate LevelsFit(t: Tree, f: Forest, st: seq<u8>) {
    forall q :: Level(f, q).Some? ==> LevelFits(t, f, st, q)
  }

  /** The first fixup node in document order that does not fit. */
  ghost predicate FirstUnfit(t: Tree, f: Forest, st: seq<u8>, q: seq<nat>) {
    && Level(f, q).Some? && !LevelFits(t, f, st, q)
    && forall p :: Earlier(p, q) && Level(f, p).Some? ==> LevelFits(t, f, st, p)
  }

  // ---------- What is at fault ----------

  /** How a pass ends, without its result. */
  datatype Fault = NoFault | Loose | Off(names: seq<seq<u8>>, prop: seq<u8>, p: int)

  ghost function FaultOf<T>(r: Fix<T>): Fault {
    match r case Fixed(_) => NoFault case Unfit => Loose case Missed(names, prop, p) => Off(names, prop, p)
  }

  ghost predicate ListFault(e: Fault, names: seq<seq<u8>>, m: map<seq<u8>, seq<u8>>, l: List) {
    if Ragged(m, l) then e == Loose
    else exists i: nat :: FirstOutside(l.val, |m[l.prop]|, i) && e == Off(names, l.prop, Be32(l.val, 4 * i))
  }

  /** The first list that does not fit decides. */
  ghost predicate ListsFault(e: Fault, names: seq<seq<u8>>, m: map<seq<u8>, seq<u8>>, ls: seq<List>) {
    exists j :: 0 <= j < |ls| && !ListFits(m, ls[j]) && AllFit(m, ls[..j]) && ListFault(e, names, m, ls[j])
  }

  /** What the fixup node at `q` is at fault for: its names lead nowhere, or one of its lists does not fit. */
  ghost predicate LevelFault(e: Fault, t: Tree, f: Forest, st: seq<u8>, q: seq<nat>)
    requires Level(f, q).Some?
  {
    || ((forall x :: !Follows(t, LevelNames(f, q), x)) && e == Loose)
    || (exists x :: Follows(t, LevelNames(f, q), x) && Sub(t, x).Some?
          && ListsFault(e, LevelNames(f, q), Sub(t, x).value.props, ListsOf(Level(f, q).value, st)))
  }

  // ---------- One list ----------

  lemma {:induction false} CellsAt(v: seq<u8>)
    ensures |Cells(v)| == |v| / 4 && forall i :: 0 <= i < |Cells(v)| ==> Cells(v)[i] == Be32(v, 4 * i)
    decreases |v|
  {
    if |v| >= 4 {
      CellsAt(v[4..]);
      forall i | 0 < i < |Cells(v)| ensures Cells(v)[i] == Be32(v, 4 * i) {
        assert v[4..] == v[4..][0..|v| - 4] && v[4..|v|] == v[4..];
        Move32(v[4..], 0, v, 4, |v| - 4, 4 * (i - 1));
      }
    }
  }

  /** Which offset is the first that is not inside depends on the length of the value only. */
  lemma {:induction false} FirstCell(v: seq<u8>, ps: seq<u32>, delta: u32) returns (k: nat)
    ensures match FixValue(v, ps, delta)
      case Done(_) => forall j :: 0 <= j < |ps| ==> ps[j] + 4 <= |v|
      case Failed(e) => k < |ps| && ps[k] + 4 > |v| && e == ps[k] && forall j :: 0 <= j < k ==> ps[j] + 4 <= |v|
    decreases |ps|
  {
    hide Bump;
    k := 0;
    if ps != [] && ps[0] + 4 <= |v| {
      var i := FirstCell(Bump(v, ps[0], delta), ps[1..], delta);
      k := i + 1;
      assert forall j :: 0 < j < |ps| ==> ps[j] == ps[1..][j - 1];
    }
  }

  lemma {:induction false} ValueFault(v: seq<u8>, val: seq<u8>, delta: u32)
    ensures match FixValue(v, Cells(val), delta)
      case Done(_) => forall i: nat :: WordFits(val, |v|, i)
      case Failed(e) => exists i: nat :: FirstOutside(val, |v|, i) && e == Be32(val, 4 * i)
  {
    hide FixValue, Be32;
    CellsAt(val);
    var k := FirstCell(v, Cells(val), delta);
    if FixValue(v, Cells(val), delta).Failed? { assert FirstOutside(val, |v|, k); }
  }

  /** The same properties with values of the same lengths. */
  ghost predicate SameLens(a: map<seq<u8>, seq<u8>>, b: map<seq<u8>, seq<u8>>) {
    a.Keys == b.Keys && forall k :: k in a ==> |b[k]| == |a[k]|
  }

  lemma {:induction false} LensFit(a: map<seq<u8>, seq<u8>>, b: map<seq<u8>, seq<u8>>, l: List)
    requires SameLens(a, b)
    ensures ListFits(a, l) <==> ListFits(b, l)
    ensures forall e, names :: ListFault(e, names, a, l) <==> ListFault(e, names, b, l)
  {
    hide WordFits, FirstOutside, Be32;
    assert l.prop in a <==> l.prop in b;
  }

  lemma {:induction false} LensFault(a: map<seq<u8>, seq<u8>>, b: map<seq<u8>, seq<u8>>, ls: seq<List>, e: Fault)
    requires SameLens(a, b)
    ensures AllFit(a, ls) <==> AllFit(b, ls)
    ensures ListsFault(e, [], a, ls) <==> ListsFault(e, [], b, ls)
  {
    hide ListFits, ListFault, SameLens;
    forall j | 0 <= j < |ls| ensures ListFits(a, ls[j]) <==> ListFits(b, ls[j]) { LensFit(a, b, ls[j]); }
    forall j | 0 <= j < |ls| ensures ListFault(e, [], a, ls[j]) <==> ListFault(e, [], b, ls[j]) {
      LensFit(a, b, ls[j]);
    }
  }

  lemma {:induction false} AllFitNext(m: map<seq<u8>, seq<u8>>, l: List, ls: seq<List>)
    ensures AllFit(m, [l] + ls) <==> ListFits(m, l) && AllFit(m, ls)
  {
    hide ListFits;
    var all := [l] + ls;
    assert all[0] == l && forall j :: 0 <= j < |ls| ==> all[j + 1] == ls[j];
  }

  lemma {:induction false} FaultLater(m: map<seq<u8>, seq<u8>>, l: List, ls: seq<List>, e: Fault)
    requires ListFits(m, l) && ListsFault(e, [], m, ls)
    ensures ListsFault(e, [], m, [l] + ls)
  {
    hide ListFits, ListFault, AllFit;
    var all := [l] + ls;
    var j :| 0 <= j < |ls| && !ListFits(m, ls[j]) && AllFit(m, ls[..j]) && ListFault(e, [], m, ls[j]);
    AllFitNext(m, l, ls[..j]);
    assert all[..j + 1] == [l] + ls[..j] && all[j + 1] == ls[j];
  }

  lemma {:induction false} FaultHere(m: map<seq<u8>, seq<u8>>, l: List, ls: seq<List>, e: Fault)
    requires !ListFits(m, l) && ListFault(e, [], m, l)
    ensures ListsFault(e, [], m, [l] + ls)
  {
    hide ListFits, ListFault, AllFit;
    var all := [l] + ls;
    NoneToFit(m);
    assert all[..0] == [] && all[0] == l;
  }

  /** The lists of one node fit, or the first that does not is at fault. */
  lemma {:induction false} PropsFault(m: map<seq<u8>, seq<u8>>, f: Forest, st: seq<u8>, delta: u32)
    ensures var e := FaultOf(FixProps(m, f, st, delta));
      if e == NoFault then AllFit(m, ListsOf(f, st)) else ListsFault(e, [], m, ListsOf(f, st))
    decreases f
  {
    hide AllFit, ListsFault, Str, FixValue, Cells, ListFits, ListFault;
    match f {
      case Nop(rest) => PropsFault(m, rest, st, delta);
      case Empty => NoneToFit(m);
      case Node(_, _, _, _) => NoneToFit(m);
      case Prop(nameoff, val, _, rest) =>
        var ls := ListsOf(rest, st);
        if Str(st, nameoff).None? {
          PropsFault(m, rest, st, delta);
          assert [] + ls == ls;
        } else {
          var l, e := List(Str(st, nameoff).value, val), FaultOf(FixProps(m, f, st, delta));
          AllFitNext(m, l, ls);
          OneList(m, l, delta);
          if !ListFits(m, l) { FaultHere(m, l, ls, e); }
          if !Ragged(m, l) && FixValue(m[l.prop], Cells(val), delta).Done? {
            var m2 := m[l.prop := FixValue(m[l.prop], Cells(val), delta).value];
            PropsFault(m2, rest, st, delta);
            LensFault(m, m2, ls, e);
            if e != NoFault { FaultLater(m, l, ls, e); }
          }
        }
    }
  }

  lemma {:induction false} NoneToFit(m: map<seq<u8>, seq<u8>>)
    ensures AllFit(m, [])
  {
  }

  lemma {:induction false} OneList(m: map<seq<u8>, seq<u8>>, l: List, delta: u32)
    ensures if Ragged(m, l) then !ListFits(m, l) && ListFault(Loose, [], m, l)
      else match FixValue(m[l.prop], Cells(l.val), delta)
           case Done(_) => ListFits(m, l)
           case Failed(p) => !ListFits(m, l) && ListFault(Off([], l.prop, p), [], m, l)
  {
    hide FixValue, WordFits, Be32, Cells;
    if !Ragged(m, l) { ValueFault(m[l.prop], l.val, delta); }
  }

  // ---------- Fixing changes no size ----------

  /** The same nodes with the same properties, of the same lengths. */
  ghost predicate Sized(t: Tree, u: Tree) {
    SameShape(t, u) && forall path :: Sub(t, path).Some? && Sub(u, path).Some? ==>
      SameLens(Sub(t, path).value.props, Sub(u, path).value.props)
  }

  lemma {:induction false} FixSized(t: Tree, f: Forest, st: seq<u8>, delta: u32)
    requires FixTree(t, f, st, delta).Fixed?
    ensures Sized(t, FixTree(t, f, st, delta).value)
  {
    hide FixTree, SameShape, Hits, FixValue, Sub;
    var u := FixTree(t, f, st, delta).value;
    FixTreeShape(t, f, st, delta);
    forall path | Sub(t, path).Some? && Sub(u, path).Some?
      ensures SameLens(Sub(t, path).value.props, Sub(u, path).value.props)
    {
      var a, b := Sub(t, path).value.props, Sub(u, path).value.props;
      FixTreeHits(t, f, st, delta, path, []);
      forall k | k in a ensures |b[k]| == |a[k]| { FixTreeHits(t, f, st, delta, path, k); }
    }
  }

  lemma {:induction false} SizedChild(t: Tree, u: Tree, i: nat)
    requires Sized(t, u) && i < |t.children|
    ensures i < |u.children| && Sized(t.children[i], u.children[i])
  {
    hide SameLens;
    forall path | Sub(t.children[i], path).Some? && Sub(u.children[i], path).Some?
      ensures SameLens(Sub(t.children[i], path).value.props, Sub(u.children[i], path).value.props)
    {
      var p := [i] + path;
      assert p[1..] == path && p[0] == i;
      assert Sub(t, p) == Sub(t.children[i], path) && Sub(u, p) == Sub(u.children[i], path);
    }
  }

  lemma {:induction false} SizedTrans(a: Tree, b: Tree, c: Tree)
    requires Sized(a, b) && Sized(b, c)
    ensures Sized(a, c) && Sized(b, a)
  {
    hide Sub, SameShape;
    ShapeTrans(a, b, c);
    ShapeBack(a, b);
    forall path | Sub(a, path).Some? && Sub(c, path).Some?
      ensures SameLens(Sub(a, path).value.props, Sub(c, path).value.props)
    {
      ShapeSub(a, b, path);
    }
  }

  lemma {:induction false} ShapeBack(a: Tree, b: Tree)
    requires SameShape(a, b)
    ensures SameShape(b, a)
    decreases a
  {
    forall i | 0 <= i < |a.children| ensures SameShape(b.children[i], a.children[i]) {
      ShapeBack(a.children[i], b.children[i]);
    }
  }

  ghost predicate SizedAll(ts: seq<Tree>, us: seq<Tree>) {
    |ts| == |us| && forall i :: 0 <= i < |ts| ==> Sized(ts[i], us[i])
  }

  lemma {:induction false} SizedIndex(ts: seq<Tree>, us: seq<Tree>, name: seq<u8>)
    requires SizedAll(ts, us)
    ensures ChildIndex(ts, name) == ChildIndex(us, name)
  {
    hide ChildIndex;
    ShapeIndex(ts, us, name);
  }

  lemma {:induction false} FaultSame(t: Tree, u: Tree, f: Forest, st: seq<u8>, delta: u32)
    requires Sized(t, u)
    ensures FaultOf(FixTree(t, f, st, delta)) == FaultOf(FixTree(u, f, st, delta))
    decreases f, 1
  {
    hide FixProps, FixKids, SameLens;
    assert Sub(t, []) == Some(t) && Sub(u, []) == Some(u);
    PropsSame(t.props, u.props, f, st, delta);
    forall i | 0 <= i < |t.children| ensures Sized(t.children[i], u.children[i]) { SizedChild(t, u, i); }
    KidsSame(t.children, u.children, f, st, delta);
  }

  lemma {:induction false} PropsSame(a: map<seq<u8>, seq<u8>>, b: map<seq<u8>, seq<u8>>, f: Forest, st: seq<u8>,
                                     delta: u32)
    requires SameLens(a, b)
    ensures FaultOf(FixProps(a, f, st, delta)) == FaultOf(FixProps(b, f, st, delta))
    decreases f
  {
    hide FixValue, Str, Cells;
    match f {
      case Nop(rest) => PropsSame(a, b, rest, st, delta);
      case Prop(nameoff, val, _, rest) =>
        if Str(st, nameoff).None? {
          PropsSame(a, b, rest, st, delta);
        } else {
          var n := Str(st, nameoff).value;
          if n in a {
            var j := FirstCell(a[n], Cells(val), delta);
            var k := FirstCell(b[n], Cells(val), delta);
            var x, y := FixValue(a[n], Cells(val), delta), FixValue(b[n], Cells(val), delta);
            if x.Done? && y.Done? { PropsSame(a[n := x.value], b[n := y.value], rest, st, delta); }
          }
        }
      case Empty =>
      case Node(_, _, _, _) =>
    }
  }

  lemma {:induction false} SizedSet(ts: seq<Tree>, us: seq<Tree>, i: nat, a: Tree, b: Tree)
    requires SizedAll(ts, us) && i < |ts| && Sized(ts[i], a) && Sized(us[i], b)
    ensures SizedAll(ts[i := a], us[i := b])
  {
    hide Sized;
    SizedTrans(ts[i], us[i], b);
    SizedSelf(a);
    SizedTrans(ts[i], a, a);
    SizedTrans(a, ts[i], b);
  }

  lemma {:induction false} SizedSelf(t: Tree)
    ensures Sized(t, t)
  {
    ShapeSame(t);
  }

  lemma {:induction false} KidsSame(ts: seq<Tree>, us: seq<Tree>, f: Forest, st: seq<u8>, delta: u32)
    requires SizedAll(ts, us)
    ensures FaultOf(FixKids(ts, f, st, delta)) == FaultOf(FixKids(us, f, st, delta))
    decreases f, 0
  {
    hide FixTree, Sized, ChildIndex;
    match f {
      case Empty =>
      case Prop(_, _, _, rest) => KidsSame(ts, us, rest, st, delta);
      case Nop(rest) => KidsSame(ts, us, rest, st, delta);
      case Node(name, _, kids, rest) =>
        SizedIndex(ts, us, name);
        var i := ChildIndex(ts, name);
        if 0 <= i < |ts| {
          FaultSame(ts[i], us[i], kids, st, delta);
          var a, b := FixTree(ts[i], kids, st, delta), FixTree(us[i], kids, st, delta);
          if a.Fixed? && b.Fixed? {
            FixSized(ts[i], kids, st, delta);
            FixSized(us[i], kids, st, delta);
            SizedSet(ts, us, i, a.value, b.value);
            KidsSame(ts[i := a.value], us[i := b.value], rest, st, delta);
          }
        }
    }
  }

  // ---------- The whole tree ----------

  /** A fault below a fixup node of that name. */
  ghost function Within(name: seq<u8>, e: Fault): Fault {
    match e case Off(names, prop, p) => Off([name] + names, prop, p) case _ => e
  }

  /** The fault of the fixup node `x` by itself. */
  ghost function KidFault(ts: seq<Tree>, x: Forest, st: seq<u8>, delta: u32): Fault
    requires x.Node?
  {
    var i := ChildIndex(ts, x.name);
    if 0 <= i < |ts| then Within(x.name, FaultOf(FixTree(ts[i], x.kids, st, delta))) else Loose
  }

  lemma {:induction false} KidSame(ts: seq<Tree>, us: seq<Tree>, x: Forest, st: seq<u8>, delta: u32)
    requires SizedAll(ts, us) && x.Node?
    ensures KidFault(ts, x, st, delta) == KidFault(us, x, st, delta)
  {
    hide FixTree, ChildIndex, Sized;
    SizedIndex(ts, us, x.name);
    var i := ChildIndex(ts, x.name);
    if 0 <= i < |ts| { FaultSame(ts[i], us[i], x.kids, st, delta); }
  }

  /** The loop over the fixup nodes stops at the first that is at fault by itself. */
  lemma {:induction false} KidsFirst(ts: seq<Tree>, f: Forest, st: seq<u8>, delta: u32) returns (k: nat)
    ensures var e := FaultOf(FixKids(ts, f, st, delta));
      && (e == NoFault ==>
            forall j: nat :: NthNode(f, j).Some? ==> KidFault(ts, NthNode(f, j).value, st, delta) == NoFault)
      && (e != NoFault ==>
            && NthNode(f, k).Some? && KidFault(ts, NthNode(f, k).value, st, delta) == e
            && forall j: nat :: j < k && NthNode(f, j).Some? ==>
                 KidFault(ts, NthNode(f, j).value, st, delta) == NoFault)
    decreases f
  {
    hide KidFault, ChildIndex, FixTree;
    k := 0;
    match f {
      case Empty =>
      case Prop(_, _, _, rest) => k := KidsFirst(ts, rest, st, delta);
      case Nop(rest) => k := KidsFirst(ts, rest, st, delta);
      case Node(name, _, kids, rest) =>
        var us := KidStep(ts, f, st, delta);
        if KidFault(ts, f, st, delta) == NoFault {
          var i := KidsFirst(us, rest, st, delta);
          k := i + 1;
          forall x: Forest | x.Node? ensures KidFault(ts, x, st, delta) == KidFault(us, x, st, delta) {
            KidSame(ts, us, x, st, delta);
          }
        }
    }
  }

  lemma {:induction false} KidStep(ts: seq<Tree>, f: Forest, st: seq<u8>, delta: u32) returns (us: seq<Tree>)
    requires f.Node?
    ensures var e, r := KidFault(ts, f, st, delta), FixKids(ts, f, st, delta);
      if e == NoFault then SizedAll(ts, us) && r == FixKids(us, f.rest, st, delta) else FaultOf(r) == e
  {
    hide FixTree, ChildIndex, Sized;
    us := ts;
    var i := ChildIndex(ts, f.name);
    if KidFault(ts, f, st, delta) == NoFault {
      FixSized(ts[i], f.kids, st, delta);
      us := ts[i := FixTree(ts[i], f.kids, st, delta).value];
      forall j | 0 <= j < |ts| ensures Sized(ts[j], us[j]) { SizedSelf(ts[j]); }
    }
  }

  lemma {:induction false} UnderLists(e: Fault, n: seq<u8>, names: seq<seq<u8>>, m: map<seq<u8>, seq<u8>>,
                                      ls: seq<List>)
    requires ListsFault(e, names, m, ls)
    ensures ListsFault(Within(n, e), [n] + names, m, ls)
  {
    hide FirstOutside, ListFits, Be32;
    var j :| 0 <= j < |ls| && !ListFits(m, ls[j]) && AllFit(m, ls[..j]) && ListFault(e, names, m, ls[j]);
    assert ListFault(Within(n, e), [n] + names, m, ls[j]);
  }

  /** One level down in the lists is one level down in the tree. */
  lemma {:induction false} LevelInto(t: Tree, f: Forest, st: seq<u8>, q: seq<nat>, e: Fault)
    requires q != [] && Level(f, q).Some? && 0 <= ChildIndex(t.children, NthNode(f, q[0]).value.name) < |t.children|
    ensures var x := NthNode(f, q[0]).value; var i := ChildIndex(t.children, x.name);
      && (LevelFits(t, f, st, q) <==> LevelFits(t.children[i], x.kids, st, q[1..]))
      && (LevelFault(e, t.children[i], x.kids, st, q[1..]) ==> LevelFault(Within(x.name, e), t, f, st, q))
  {
    hide Follows, ChildIndex, AllFit, ListsFault, ListsOf, Within, Sub;
    var x := NthNode(f, q[0]).value;
    var i, names, g := ChildIndex(t.children, x.name), LevelNames(x.kids, q[1..]), Level(f, q).value;
    var u, ls := t.children[i], ListsOf(g, st);
    forall y | Follows(u, names, y) ensures Follows(t, [x.name] + names, [i] + y) && Sub(t, [i] + y) == Sub(u, y) {
      FollowsFirst(t, x.name, names, y);
    }
    forall z | Follows(t, [x.name] + names, z)
      ensures z != [] && Follows(u, names, z[1..]) && Sub(t, z) == Sub(u, z[1..])
    {
      FollowsVia(t, x.name, names, z);
      FollowsFirst(t, x.name, names, z[1..]);
    }
    forall y | Follows(u, names, y) && Sub(u, y).Some? && ListsFault(e, names, Sub(u, y).value.props, ls)
      ensures ListsFault(Within(x.name, e), [x.name] + names, Sub(t, [i] + y).value.props, ls)
    {
      UnderLists(e, x.name, names, Sub(u, y).value.props, ls);
    }
    assert Within(x.name, Loose) == Loose by { WithinLoose(x.name); }
  }

  lemma {:induction false} WithinLoose(name: seq<u8>)
    ensures Within(name, Loose) == Loose
  {
  }

  lemma {:induction false} LevelNone(t: Tree, f: Forest, st: seq<u8>, q: seq<nat>)
    requires q != [] && Level(f, q).Some? && ChildIndex(t.children, NthNode(f, q[0]).value.name) < 0
    ensures !LevelFits(t, f, st, q) && LevelFault(Loose, t, f, st, q)
  {
    hide Follows, ChildIndex, AllFit, ListsFault, ListsOf;
    var x := NthNode(f, q[0]).value;
    var names := LevelNames(x.kids, q[1..]);
    forall z ensures !Follows(t, [x.name] + names, z) {
      if Follows(t, [x.name] + names, z) { FollowsVia(t, x.name, names, z); }
    }
  }

  lemma {:induction false} LevelTop(t: Tree, f: Forest, st: seq<u8>, e: Fault)
    ensures LevelFits(t, f, st, []) <==> AllFit(t.props, ListsOf(f, st))
    ensures ListsFault(e, [], t.props, ListsOf(f, st)) ==> LevelFault(e, t, f, st, [])
  {
    hide AllFit, ListsFault, ListsOf;
    assert Level(f, []) == Some(f) && LevelNames(f, []) == [] && Sub(t, []) == Some(t);
    assert Follows(t, [], []);
    assert forall x :: Follows(t, [], x) ==> x == [];
  }

  /** Where a level is reached from the fixup node above it. */
  lemma {:induction false} LevelAlong(t: Tree, f: Forest, st: seq<u8>, delta: u32, q: seq<nat>)
    requires q != [] && Level(f, q).Some? && KidFault(t.children, NthNode(f, q[0]).value, st, delta) == NoFault
    ensures var x := NthNode(f, q[0]).value; var i := ChildIndex(t.children, x.name);
      && 0 <= i < |t.children| && FixTree(t.children[i], x.kids, st, delta).Fixed?
      && (LevelFits(t, f, st, q) <==> LevelFits(t.children[i], x.kids, st, q[1..]))
  {
    hide FixTree, LevelFits, LevelFault, ChildIndex, Level;
    LevelInto(t, f, st, q, Loose);
  }

  lemma {:induction false} FaultsFit(t: Tree, f: Forest, st: seq<u8>, delta: u32, q: seq<nat>)
    requires FixTree(t, f, st, delta).Fixed? && Level(f, q).Some?
    ensures LevelFits(t, f, st, q)
    decreases |q|
  {
    hide FixProps, FixKids, LevelFits, ChildIndex, KidFault;
    if q == [] {
      PropsFault(t.props, f, st, delta);
      LevelTop(t, f, st, Loose);
    } else {
      var k := KidsFirst(t.children, f, st, delta);
      LevelAlong(t, f, st, delta, q);
      var x := NthNode(f, q[0]).value;
      FaultsFit(t.children[ChildIndex(t.children, x.name)], x.kids, st, delta, q[1..]);
    }
  }

  /** Where the lists do not all fit, the pass ends with the fault of the first fixup node in document order. */
  lemma {:induction false} FirstFault(t: Tree, f: Forest, st: seq<u8>, delta: u32) returns (q: seq<nat>)
    requires !FixTree(t, f, st, delta).Fixed?
    ensures FirstUnfit(t, f, st, q) && LevelFault(FaultOf(FixTree(t, f, st, delta)), t, f, st, q)
    decreases f
  {
    hide FixProps, FixKids, LevelFits, LevelFault, ChildIndex, KidFault;
    q := [];
    PropsFault(t.props, f, st, delta);
    var e := FaultOf(FixTree(t, f, st, delta));
    LevelTop(t, f, st, e);
    if FixProps(t.props, f, st, delta).Fixed? {
      var k := KidsFirst(t.children, f, st, delta);
      q := FaultInKid(t, f, st, delta, k);
    } else {
      NotAllFit(e, t.props, ListsOf(f, st));
    }
  }

  lemma {:induction false} NotAllFit(e: Fault, m: map<seq<u8>, seq<u8>>, ls: seq<List>)
    requires ListsFault(e, [], m, ls)
    ensures !AllFit(m, ls)
  {
    hide ListFits, ListFault;
  }

  lemma {:induction false} FaultInKid(t: Tree, f: Forest, st: seq<u8>, delta: u32, k: nat) returns (q: seq<nat>)
    requires LevelFits(t, f, st, []) && NthNode(f, k).Some?
    requires KidFault(t.children, NthNode(f, k).value, st, delta) != NoFault
    requires forall j: nat :: j < k && NthNode(f, j).Some? ==>
      KidFault(t.children, NthNode(f, j).value, st, delta) == NoFault
    ensures FirstUnfit(t, f, st, q) && LevelFault(KidFault(t.children, NthNode(f, k).value, st, delta), t, f, st, q)
    decreases f, 0
  {
    hide LevelFits, LevelFault, ChildIndex, FixTree;
    var x := NthNode(f, k).value;
    var i := ChildIndex(t.children, x.name);
    q := [k];
    if 0 <= i < |t.children| {
      var r := FirstFault(t.children[i], x.kids, st, delta);
      q := [k] + r;
      assert q[1..] == r && q[0] == k;
      LevelInto(t, f, st, q, FaultOf(FixTree(t.children[i], x.kids, st, delta)));
    } else {
      assert q[1..] == [];
      IndexIff(t.children, x.name, 0);
      LevelNone(t, f, st, q);
    }
    forall p | Earlier(p, q) && Level(f, p).Some? ensures LevelFits(t, f, st, p) {
      if p != [] { EarlierFits(t, f, st, delta, k, q, p); }
    }
  }

  lemma {:induction false} EarlierFits(t: Tree, f: Forest, st: seq<u8>, delta: u32, k: nat, q: seq<nat>, p: seq<nat>)
    requires p != [] && q != [] && q[0] == k && Earlier(p, q) && Level(f, p).Some? && NthNode(f, k).Some?
    requires forall j: nat :: j < k && NthNode(f, j).Some? ==>
      KidFault(t.children, NthNode(f, j).value, st, delta) == NoFault
    requires var x := NthNode(f, k).value; var i := ChildIndex(t.children, x.name);
      p[0] == k ==> 0 <= i < |t.children| && FirstUnfit(t.children[i], x.kids, st, q[1..])
    ensures LevelFits(t, f, st, p)
  {
    hide LevelFits, ChildIndex, FixTree, KidFault, LevelFault;
    var x := NthNode(f, p[0]).value;
    if p[0] < k {
      LevelAlong(t, f, st, delta, p);
      FaultsFit(t.children[ChildIndex(t.children, x.name)], x.kids, st, delta, p[1..]);
    } else {
      LevelInto(t, f, st, p, Loose);
    }
  }

  /**
   The pass over the references succeeds exactly when every fixup node's names lead to a node of the tree and every
   list there is whole words, names a property of that node and points inside its value. Otherwise it ends with the
   fault of the first fixup node, and in it the first list, that does not fit: BADOVERLAY, or the first listed word
   that is not inside its value.
   */
  lemma {:induction false} FixIff(t: Tree, f: Forest, st: seq<u8>, delta: u32)
    ensures FixTree(t, f, st, delta).Fixed? <==> LevelsFit(t, f, st)
    ensures !FixTree(t, f, st, delta).Fixed? ==>
      exists q :: FirstUnfit(t, f, st, q) && LevelFault(FaultOf(FixTree(t, f, st, delta)), t, f, st, q)
  {
    hide FixTree, LevelFits, LevelFault, Level;
    if FixTree(t, f, st, delta).Fixed? {
      forall q | Level(f, q).Some? ensures LevelFits(t, f, st, q) { FaultsFit(t, f, st, delta, q); }
    } else {
      var q := FirstFault(t, f, st, delta);
    }
  }
}
