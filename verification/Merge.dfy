/**
 The overlay merge in closed form: what it does to every property and every child, for overlays with distinct names.
 */
module Merge {
  import opened Bytes
  import opened Structure
  import Lookup
  import opened Tree
  import opened Edit
  import opened Overlay
  import opened Phandle
  import opened Target

  /** With distinct property names the overlay's properties are laid over the base's: the overlay wins. */
  lemma {:induction false} MergePropsIs(m: map<seq<u8>, seq<u8>>, f: Forest, st: seq<u8>)
    requires Unique(f, st)
    ensures MergeProps(m, f, st) == m + Props(f, st)
    decreases f
  {
    hide Str;
    match f {
      case Prop(nameoff, val, _, rest) =>
        if Str(st, nameoff).Some? {
          MergePropsIs(m[Str(st, nameoff).value := val], rest, st);
        } else {
          MergePropsIs(m, rest, st);
        }
      case Nop(rest) => MergePropsIs(m, rest, st);
      case Empty =>
      case Node(_, _, _, _) =>
    }
  }

  /** No node of the list can be taken for one of the given name, nor the other way round. */
  ghost predicate NoClash(name: seq<u8>, f: Forest) {
    match f
    case Empty => true
    case Node(x, _, _, rest) => !Lookup.NameEq(name, x) && !Lookup.NameEq(x, name) && NoClash(name, rest)
    case _ => NoClash(name, f.rest)
  }

  ghost predicate Distinct(f: Forest) {
    match f
    case Empty => true
    case Node(x, _, _, rest) => NoClash(x, rest) && Distinct(rest)
    case _ => Distinct(f.rest)
  }

  /** The contents of the overlay child that goes to the base child at `i`. */
  ghost function Hit(ts: seq<Tree>, f: Forest, i: int): Option<Forest> {
    match f
    case Empty => None
    case Node(x, _, kids, rest) => if ChildIndex(ts, x) == i then Some(kids) else Hit(ts, rest, i)
    case _ => Hit(ts, f.rest, i)
  }

  /** A base child afterwards: merged with the overlay child that matches it, or as it was. */
  ghost function MergedAt(ts: seq<Tree>, f: Forest, st: seq<u8>, i: nat): Tree
    requires i < |ts|
  {
    match Hit(ts, f, i) case Some(kids) => Merged(ts[i], kids, st) case None => ts[i]
  }

  /** The children that no base child matches, the last one first. */
  ghost function Added(ts: seq<Tree>, f: Forest, st: seq<u8>): seq<Tree> {
    match f
    case Empty => []
    case Node(x, _, kids, rest) =>
      if ChildIndex(ts, x) >= 0 then Added(ts, rest, st)
        else Added(ts, rest, st) + [Merged(Tree(x, map[], []), kids, st)]
    case _ => Added(ts, f.rest, st)
  }

  ghost function AllKept(ts: seq<Tree>, f: Forest, st: seq<u8>): (r: seq<Tree>)
    ensures |r| == |ts|
  {
    seq(|ts|, i requires 0 <= i < |ts| => MergedAt(ts, f, st, i))
  }

  // ---------- Matching and names ----------

  lemma {:induction false} IndexIn(ts: seq<Tree>, x: seq<u8>)
    ensures -1 <= ChildIndex(ts, x) < |ts| && (ChildIndex(ts, x) >= 0 ==> Lookup.NameEq(ts[ChildIndex(ts, x)].name, x))
    decreases |ts|
  {
    hide Lookup.NameEq;
    if ts != [] { IndexIn(ts[1..], x); }
  }

  lemma {:induction false} IndexSame(ts: seq<Tree>, us: seq<Tree>, x: seq<u8>)
    requires |ts| == |us| && forall i :: 0 <= i < |ts| ==> ts[i].name == us[i].name
    ensures ChildIndex(ts, x) == ChildIndex(us, x)
    decreases |ts|
  {
    hide Lookup.NameEq;
    if ts != [] { IndexSame(ts[1..], us[1..], x); }
  }

  lemma {:induction false} IndexFront(t: Tree, ts: seq<Tree>, x: seq<u8>)
    requires !Lookup.NameEq(t.name, x)
    ensures ChildIndex([t] + ts, x) == if ChildIndex(ts, x) < 0 then -1 else ChildIndex(ts, x) + 1
  {
    hide Lookup.NameEq;
    assert ([t] + ts)[1..] == ts;
  }

  /** Two names that match the same node match one another. */
  lemma {:induction false} TwoMatches(p: seq<u8>, x: seq<u8>, y: seq<u8>)
    requires Lookup.NameEq(p, x) && Lookup.NameEq(p, y)
    ensures Lookup.NameEq(x, y) || Lookup.NameEq(y, x)
  {
    if |x| <= |y| {
      assert y[..|x|] == p[..|y|][..|x|] == p[..|x|];
      if |x| < |y| { assert y[|x|] == p[..|y|][|x|] == p[|x|]; }
    } else {
      assert x[..|y|] == p[..|x|][..|y|] == p[..|y|];
      assert x[|y|] == p[..|x|][|y|] == p[|y|];
    }
  }

  /** The names of the children decide what matches. */
  lemma {:induction false} SameNames(ts: seq<Tree>, us: seq<Tree>, f: Forest, st: seq<u8>, i: int)
    requires |ts| == |us| && forall i :: 0 <= i < |ts| ==> ts[i].name == us[i].name
    ensures Hit(ts, f, i) == Hit(us, f, i) && Added(ts, f, st) == Added(us, f, st)
    decreases f
  {
    hide Merged;
    match f {
      case Empty =>
      case Node(x, _, _, rest) =>
        IndexSame(ts, us, x);
        SameNames(ts, us, rest, st, i);
      case Prop(_, _, _, rest) => SameNames(ts, us, rest, st, i);
      case Nop(rest) => SameNames(ts, us, rest, st, i);
    }
  }

  lemma {:induction false} FrontNames(t: Tree, ts: seq<Tree>, f: Forest, st: seq<u8>, i: nat)
    requires NoClash(t.name, f)
    ensures Hit([t] + ts, f, i + 1) == Hit(ts, f, i) && Hit([t] + ts, f, 0) == None
      && Added([t] + ts, f, st) == Added(ts, f, st)
    decreases f
  {
    hide Merged, Lookup.NameEq;
    match f {
      case Empty =>
      case Node(x, _, _, rest) =>
        IndexFront(t, ts, x);
        IndexIn(ts, x);
        FrontNames(t, ts, rest, st, i);
      case Prop(_, _, _, rest) => FrontNames(t, ts, rest, st, i);
      case Nop(rest) => FrontNames(t, ts, rest, st, i);
    }
  }

  lemma {:induction false} NoSecondHit(ts: seq<Tree>, f: Forest, x: seq<u8>, i: nat)
    requires i < |ts| && Lookup.NameEq(ts[i].name, x) && NoClash(x, f)
    ensures Hit(ts, f, i) == None
    decreases f
  {
    hide Lookup.NameEq;
    match f {
      case Empty =>
      case Node(y, _, _, rest) =>
        IndexIn(ts, y);
        if ChildIndex(ts, y) == i { TwoMatches(ts[i].name, x, y); }
        NoSecondHit(ts, rest, x, i);
      case Prop(_, _, _, rest) => NoSecondHit(ts, rest, x, i);
      case Nop(rest) => NoSecondHit(ts, rest, x, i);
    }
  }

  // ---------- The closed form ----------

  /** Every base child is merged with the one overlay child that matches it or kept; the others are added in front. */
  lemma {:induction false} MergeKidsIs(ts: seq<Tree>, f: Forest, st: seq<u8>)
    requires Distinct(f)
    ensures MergeKids(ts, f, st) == Added(ts, f, st) + AllKept(ts, f, st)
    decreases f
  {
    hide Merged, Lookup.NameEq;
    match f {
      case Empty => assert AllKept(ts, f, st) == ts;
      case Prop(_, _, _, rest) =>
        MergeKidsIs(ts, rest, st);
        assert AllKept(ts, f, st) == AllKept(ts, rest, st);
      case Nop(rest) =>
        MergeKidsIs(ts, rest, st);
        assert AllKept(ts, f, st) == AllKept(ts, rest, st);
      case Node(x, _, kids, rest) =>
        IndexIn(ts, x);
        MergeKidsIs(MergeChild(ts, x, kids, st), rest, st);
        if ChildIndex(ts, x) >= 0 { KeptFound(ts, f, st); } else { KeptAdded(ts, f, st); }
    }
  }

  lemma {:induction false} MergedName(t: Tree, kids: Forest, st: seq<u8>)
    ensures Merged(t, kids, st).name == t.name
  {
  }

  lemma {:induction false} KeptFound(ts: seq<Tree>, f: Forest, st: seq<u8>)
    requires f.Node? && Distinct(f) && ChildIndex(ts, f.name) >= 0
    ensures var us := MergeChild(ts, f.name, f.kids, st);
      Added(us, f.rest, st) + AllKept(us, f.rest, st) == Added(ts, f, st) + AllKept(ts, f, st)
  {
    hide Lookup.NameEq, MergeKids;
    IndexIn(ts, f.name);
    var k, us := ChildIndex(ts, f.name), MergeChild(ts, f.name, f.kids, st);
    NoSecondHit(ts, f.rest, f.name, k);
    MergedName(ts[k], f.kids, st);
    assert us == ts[k := Merged(ts[k], f.kids, st)];
    forall i | 0 <= i < |ts|
      ensures MergedAt(us, f.rest, st, i) == MergedAt(ts, f, st, i)
    {
      SameNames(ts, us, f.rest, st, i);
    }
    SameNames(ts, us, f.rest, st, 0);
    assert AllKept(us, f.rest, st) == AllKept(ts, f, st);
  }

  lemma {:induction false} KeptAdded(ts: seq<Tree>, f: Forest, st: seq<u8>)
    requires f.Node? && Distinct(f) && ChildIndex(ts, f.name) < 0
    ensures var us := MergeChild(ts, f.name, f.kids, st);
      Added(us, f.rest, st) + AllKept(us, f.rest, st) == Added(ts, f, st) + AllKept(ts, f, st)
  {
    hide Lookup.NameEq, MergeKids;
    var t := Merged(Tree(f.name, map[], []), f.kids, st);
    MergedName(Tree(f.name, map[], []), f.kids, st);
    var us := [t] + ts;
    FrontNames(t, ts, f.rest, st, 0);
    IndexIn(ts, f.name);
    forall i | 0 <= i < |ts|
      ensures MergedAt(us, f.rest, st, i + 1) == MergedAt(ts, f, st, i)
    {
      FrontNames(t, ts, f.rest, st, i);
    }
    assert AllKept(us, f.rest, st) == [t] + AllKept(ts, f, st);
    var a := Added(ts, f.rest, st);
    assert a + ([t] + AllKept(ts, f, st)) == (a + [t]) + AllKept(ts, f, st);
  }

  // ---------- The merge by position ----------

  /** The contents of the node of exactly that name. */
  ghost function Child(f: Forest, x: seq<u8>): Option<Forest> {
    match f
    case Empty => None
    case Node(name, _, kids, rest) => if name == x then Some(kids) else Child(rest, x)
    case _ => Child(f.rest, x)
  }

  /** The contents of the node that names lead to inside an overlay node with contents `f`. */
  ghost function Inner(f: Forest, names: seq<seq<u8>>): Option<Forest>
    decreases |names|
  {
    if names == [] then Some(f)
    else match Child(f, names[0]) case Some(kids) => Inner(kids, names[1..]) case None => None
  }

  /** Distinct names at every level. */
  ghost predicate Tidy(f: Forest) {
    forall names :: Inner(f, names).Some? ==> Distinct(Inner(f, names).value)
  }

  lemma {:induction false} TidyChild(f: Forest, x: seq<u8>)
    requires Tidy(f) && Child(f, x).Some?
    ensures Distinct(f) && Tidy(Child(f, x).value)
  {
    hide Distinct;
    assert Inner(f, []) == Some(f);
    var kids := Child(f, x).value;
    forall names | Inner(kids, names).Some? ensures Distinct(Inner(kids, names).value) {
      assert ([x] + names)[1..] == names;
      assert Inner(f, [x] + names) == Inner(kids, names);
    }
  }

  /** The child that a name finds, or a new one of that name. */
  ghost function Base(ts: seq<Tree>, x: seq<u8>): Tree {
    var i := ChildIndex(ts, x);
    if 0 <= i < |ts| then ts[i] else Tree(x, map[], [])
  }

  lemma {:induction false} ChildStep(ts: seq<Tree>, y: seq<u8>, kids: Forest, st: seq<u8>)
    ensures var us, k, m := MergeChild(ts, y, kids, st), ChildIndex(ts, y), Merged(Base(ts, y), kids, st);
      if k >= 0 then k < |ts| && Lookup.NameEq(ts[k].name, y) && m.name == ts[k].name && us == ts[k := m]
      else m.name == y && us == [m] + ts
  {
    hide Lookup.NameEq, ChildIndex, MergeKids, MergeProps;
    IndexIn(ts, y);
    MergedName(Base(ts, y), kids, st);
  }

  /** Merging one child does not touch what a name finds that does not clash with it. */
  lemma {:induction false} OneKept(ts: seq<Tree>, y: seq<u8>, kids: Forest, st: seq<u8>, x: seq<u8>)
    requires !Lookup.NameEq(x, y) && !Lookup.NameEq(y, x)
    ensures var us := MergeChild(ts, y, kids, st);
      (ChildIndex(us, x) >= 0 <==> ChildIndex(ts, x) >= 0) && Base(us, x) == Base(ts, x)
  {
    hide Lookup.NameEq, ChildIndex, Merged, MergeChild;
    var us, i, k := MergeChild(ts, y, kids, st), ChildIndex(ts, x), ChildIndex(ts, y);
    IndexIn(ts, x);
    ChildStep(ts, y, kids, st);
    if k >= 0 {
      IndexSame(ts, us, x);
      if k == i { TwoMatches(ts[i].name, x, y); }
    } else {
      IndexFront(us[0], ts, x);
    }
  }

  lemma {:induction false} AllKeep(ts: seq<Tree>, f: Forest, st: seq<u8>, x: seq<u8>)
    requires NoClash(x, f)
    ensures var us := MergeKids(ts, f, st);
      (ChildIndex(us, x) >= 0 <==> ChildIndex(ts, x) >= 0) && Base(us, x) == Base(ts, x)
    decreases f
  {
    hide Lookup.NameEq, ChildIndex, MergeChild, Base;
    match f {
      case Empty =>
      case Prop(_, _, _, rest) => AllKeep(ts, rest, st, x);
      case Nop(rest) => AllKeep(ts, rest, st, x);
      case Node(y, _, kids, rest) =>
        OneKept(ts, y, kids, st, x);
        AllKeep(MergeChild(ts, y, kids, st), rest, st, x);
    }
  }

  lemma {:induction false} OneMerged(ts: seq<Tree>, x: seq<u8>, kids: Forest, st: seq<u8>)
    ensures var us := MergeChild(ts, x, kids, st);
      ChildIndex(us, x) >= 0 && Base(us, x) == Merged(Base(ts, x), kids, st)
  {
    hide Merged, MergeChild, ChildIndex;
    var us, k := MergeChild(ts, x, kids, st), ChildIndex(ts, x);
    ChildStep(ts, x, kids, st);
    if k >= 0 {
      IndexSame(ts, us, x);
    } else {
      SelfFirst(us, x);
    }
  }

  lemma {:induction false} SelfFirst(ts: seq<Tree>, x: seq<u8>)
    requires ts != [] && ts[0].name == x
    ensures ChildIndex(ts, x) == 0
  {
  }

  lemma {:induction false} ClashFree(x: seq<u8>, f: Forest, y: seq<u8>)
    requires NoClash(x, f) && Child(f, y).Some?
    ensures !Lookup.NameEq(x, y) && !Lookup.NameEq(y, x)
    decreases f
  {
    hide Lookup.NameEq;
    match f {
      case Node(z, _, _, rest) => if z != y { ClashFree(x, rest, y); }
      case Prop(_, _, _, rest) => ClashFree(x, rest, y);
      case Nop(rest) => ClashFree(x, rest, y);
      case Empty =>
    }
  }

  /** Every child of an overlay node is found in the result by its name, merged with what the name found before. */
  lemma {:induction false} ChildMerged(ts: seq<Tree>, f: Forest, st: seq<u8>, x: seq<u8>)
    requires Distinct(f) && Child(f, x).Some?
    ensures var us := MergeKids(ts, f, st);
      ChildIndex(us, x) >= 0 && Base(us, x) == Merged(Base(ts, x), Child(f, x).value, st)
    decreases f
  {
    hide Lookup.NameEq, ChildIndex, MergeChild, Base, Merged;
    match f {
      case Empty =>
      case Prop(_, _, _, rest) => ChildMerged(ts, rest, st, x);
      case Nop(rest) => ChildMerged(ts, rest, st, x);
      case Node(y, _, kids, rest) =>
        var us := MergeChild(ts, y, kids, st);
        if y == x {
          OneMerged(ts, x, kids, st);
          AllKeep(us, rest, st, x);
        } else {
          ClashFree(y, rest, x);
          OneKept(ts, y, kids, st, x);
          ChildMerged(us, rest, st, x);
        }
    }
  }

  /** The node that names lead to, or a new one of the last name. */
  ghost function BaseAt(t: Tree, names: seq<seq<u8>>): Tree
    decreases |names|
  {
    if names == [] then t else BaseAt(Base(t.children, names[0]), names[1..])
  }

  lemma {:induction false} BaseLeaf(x: seq<u8>, names: seq<seq<u8>>)
    ensures BaseAt(Tree(x, map[], []), names) == Tree(if names == [] then x else names[|names| - 1], map[], [])
    decreases |names|
  {
    if names != [] { BaseLeaf(names[0], names[1..]); }
  }

  /** A base node that the names lead to is that one. */
  lemma {:induction false} BaseReached(t: Tree, names: seq<seq<u8>>, y: seq<nat>)
    requires Follows(t, names, y)
    ensures Sub(t, y) == Some(BaseAt(t, names))
    decreases |names|
  {
    hide ChildIndex, Follows, FirstChild;
    if names == [] {
      FollowsLength(t, names, y);
    } else {
      FollowsStep(t, names, y);
      IndexIff(t.children, names[0], y[0]);
      BaseReached(t.children[y[0]], names[1..], y[1..]);
    }
  }

  lemma {:induction false} FollowsLength(t: Tree, names: seq<seq<u8>>, y: seq<nat>)
    requires Follows(t, names, y)
    ensures |y| == |names|
  {
  }

  /** Where they lead nowhere, the node is new. */
  lemma {:induction false} BaseNew(t: Tree, names: seq<seq<u8>>)
    requires forall y :: !Follows(t, names, y)
    ensures names != [] && BaseAt(t, names) == Tree(names[|names| - 1], map[], [])
    decreases |names|
  {
    hide ChildIndex, Follows, FirstChild;
    if names == [] {
      FollowsNone(t);
    } else {
      var i := ChildIndex(t.children, names[0]);
      IndexIn(t.children, names[0]);
      if i < 0 {
        BaseLeaf(names[0], names[1..]);
      } else {
        assert names == [names[0]] + names[1..];
        forall y ensures !Follows(t.children[i], names[1..], y) { FollowsFirst(t, names[0], names[1..], y); }
        BaseNew(t.children[i], names[1..]);
      }
    }
  }

  lemma {:induction false} FollowsNone(t: Tree)
    ensures Follows(t, [], [])
  {
  }

  /** Going on from the child that the merge has left where the first name leads. */
  lemma {:induction false} MergedBelow(t: Tree, f: Forest, st: seq<u8>, names: seq<seq<u8>>) returns (x: seq<nat>)
    requires Tidy(f) && Inner(f, names).Some?
    ensures Follows(Merged(t, f, st), names, x)
    ensures Sub(Merged(t, f, st), x) == Some(Merged(BaseAt(t, names), Inner(f, names).value, st))
    decreases |names|
  {
    hide ChildIndex, Follows, MergeKids, MergeProps, Tidy, Distinct;
    x := [];
    if names == [] {
      FollowsNone(Merged(t, f, st));
    } else {
      var n, u := names[0], Merged(t, f, st);
      TidyChild(f, n);
      ChildMerged(t.children, f, st, n);
      IndexIn(u.children, n);
      var p := MergedBelow(Base(t.children, n), Child(f, n).value, st, names[1..]);
      FollowsFirst(u, n, names[1..], p);
      assert names == [n] + names[1..];
      x := [ChildIndex(u.children, n)] + p;
    }
  }

  /**
   Every overlay node is found in the result by its names. It has the overlay's properties, over those of the base
   node that the same names led to, if they led to one.
   */
  lemma {:induction false} MergedAtPath(t: Tree, f: Forest, st: seq<u8>, names: seq<seq<u8>>) returns (x: seq<nat>)
    requires Tidy(f) && Inner(f, names).Some? && Unique(Inner(f, names).value, st)
    ensures var g, u := Inner(f, names).value, Sub(Merged(t, f, st), x);
      && Follows(Merged(t, f, st), names, x) && u.Some?
      && (forall y :: Follows(t, names, y) && Sub(t, y).Some? ==>
            u.value.name == Sub(t, y).value.name && u.value.props == Sub(t, y).value.props + Props(g, st))
      && ((forall y :: !Follows(t, names, y)) ==>
            names != [] && u.value.name == names[|names| - 1] && u.value.props == Props(g, st))
  {
    hide Follows, MergeKids, MergeProps, Tidy, Sub, Inner, Unique, Props;
    x := MergedBelow(t, f, st, names);
    var g, b := Inner(f, names).value, BaseAt(t, names);
    MergePropsIs(b.props, g, st);
    forall y | Follows(t, names, y) ensures Sub(t, y) == Some(b) { BaseReached(t, names, y); }
    if forall y :: !Follows(t, names, y) {
      BaseNew(t, names);
      assert map[] + Props(g, st) == Props(g, st);
    }
  }

  /** A base node that names lead to past the overlay is still there, with everything below it. */
  lemma {:induction false} KeptAtPath(t: Tree, f: Forest, st: seq<u8>, names: seq<seq<u8>>, y: seq<nat>, j: nat)
    returns (x: seq<nat>)
    requires Tidy(f) && j < |names| && Inner(f, names[..j]).Some? && NoClash(names[j], Inner(f, names[..j]).value)
    requires Follows(t, names, y)
    ensures Follows(Merged(t, f, st), names, x) && Sub(Merged(t, f, st), x) == Sub(t, y)
    decreases j
  {
    hide ChildIndex, Follows, MergeKids, MergeProps, Tidy, Distinct, NoClash, FirstChild;
    var n, u := names[0], Merged(t, f, st);
    assert names == [n] + names[1..];
    FollowsStep(t, names, y);
    IndexIff(t.children, n, y[0]);
    var c := t.children[y[0]];
    var p := y[1..];
    if j == 0 {
      assert names[..0] == [];
      AllKeep(t.children, f, st, n);
    } else {
      assert names[..j][1..] == names[1..][..j - 1];
      TidyChild(f, n);
      ChildMerged(t.children, f, st, n);
      p := KeptAtPath(c, Child(f, n).value, st, names[1..], y[1..], j - 1);
    }
    IndexIn(u.children, n);
    FollowsFirst(u, n, names[1..], p);
    x := [ChildIndex(u.children, n)] + p;
  }
}
