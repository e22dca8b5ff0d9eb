/** Virtual targets: new places in the system tree, and real targets linked with them. */
module Virtual {
  import opened Bytes
  import opened Device

  // ---------- Going up in the system tree ----------

  /** `a` is `n` or above it in the system tree. */
  ghost predicate Reaches(t: Store, rank: seq<nat>, n: nat, a: nat)
    requires Formed(t, rank) && n < |t|
    decreases rank[n]
  {
    UpInside(t, rank, n);
    n == a || (ToVirtual(t, n) != ROOT && Reaches(t, rank, Up(t, n), a))
  }

  lemma {:induction false} UpInside(t: Store, rank: seq<nat>, n: nat)
    requires Formed(t, rank) && n < |t|
    ensures 0 <= ToVirtual(t, n) < |t| == |rank|
    ensures ToVirtual(t, n) != ROOT ==> 0 <= Up(t, n) < |t| && rank[Up(t, n)] < rank[n]
  {
    hide Sorted, Proper;
    assert Placed(t, n) && Falls(t, rank, n);
  }

  // ---------- dt_link_virtual ----------

  function Link(t: Store, node: nat, v: nat): Store
    requires node < |t| && v < |t|
  {
    var u := t[node := t[node].(vnode := v)];
    u[v := u[v].(vnode := node)]
  }

  /** A real target and a virtual one, neither of them linked. */
  ghost predicate Linkable(t: Store, node: nat, v: nat) {
    && node < |t| && v < |t| && node != ROOT && v != ROOT
    && t[node].compatible && !t[v].compatible && t[node].vnode < 0 && t[v].vnode < 0
  }

  lemma {:induction false} LinkPlaced(t: Store, node: nat, v: nat, n: nat)
    requires Linkable(t, node, v) && n < |t| && Placed(t, n)
    ensures var u := Link(t, node, v);
      && |u| == |t| && Placed(u, n) && u[n].parent == t[n].parent
      && ToVirtual(u, n) == if n == node then v else ToVirtual(t, n)
  {
    hide Cmp, Proper, Sorted;
    SortedNames(t, Link(t, node, v), t[n].children);
  }

  /** Ranks after a link: what is at or below the real target moves up past the place it is linked with. */
  ghost function Lifted(t: Store, rank: seq<nat>, node: nat, k: nat): (r: seq<nat>)
    requires Formed(t, rank)
    ensures |r| == |rank| == |t|
  {
    seq(|t|, n requires 0 <= n < |t| => rank[n] + if Reaches(t, rank, n, node) then k else 0)
  }

  lemma {:induction false} LinkFalls(t: Store, rank: seq<nat>, node: nat, v: nat, n: nat)
    requires Formed(t, rank) && Linkable(t, node, v) && !Reaches(t, rank, v, node) && n < |t|
    ensures 0 <= t[v].parent < |rank| && Falls(Link(t, node, v), Lifted(t, rank, node, rank[t[v].parent] + 1), n)
  {
    hide Placed;
    assert Placed(t, n) && Placed(t, v) && Falls(t, rank, n) && Falls(t, rank, v);
    LinkPlaced(t, node, v, n);
    LinkPlaced(t, node, v, v);
    UpInside(t, rank, v);
    UpInside(t, rank, n);
  }

  lemma {:induction false} LinkRanked(t: Store, rank: seq<nat>, node: nat, v: nat)
    requires Formed(t, rank) && Linkable(t, node, v) && !Reaches(t, rank, v, node)
    ensures 0 <= t[v].parent < |rank| && Formed(Link(t, node, v), Lifted(t, rank, node, rank[t[v].parent] + 1))
  {
    hide Placed, Falls, Reaches;
    LinkFalls(t, rank, node, v, v);
    var u, r := Link(t, node, v), Lifted(t, rank, node, rank[t[v].parent] + 1);
    forall n | 0 <= n < |u| ensures Placed(u, n) && Falls(u, r, n) {
      LinkPlaced(t, node, v, n);
      LinkFalls(t, rank, node, v, n);
    }
  }

  /** In a store with a link below itself, the ranks on the way from the place up to the real target cannot fall. */
  lemma {:induction false} Circle(t: Store, rank: seq<nat>, node: nat, v: nat, r: seq<nat>, n: nat)
    requires Formed(t, rank) && Linkable(t, node, v) && Formed(Link(t, node, v), r) && n < |t|
      && Reaches(t, rank, n, node)
    ensures |r| == |t| && r[node] <= r[n]
    decreases rank[n]
  {
    hide Placed, Link;
    LinkPlaced(t, node, v, n);
    UpInside(t, rank, n);
    if n != node {
      assert Falls(Link(t, node, v), r, n);
      LinkUp(t, node, v, n);
      Circle(t, rank, node, v, r, Up(t, n));
    }
  }

  lemma {:induction false} LinkUp(t: Store, node: nat, v: nat, n: nat)
    requires n < |t| && Placed(t, n) && Linkable(t, node, v) && n != node
    ensures var u := Link(t, node, v);
      |u| == |t| && ToVirtual(u, n) == ToVirtual(t, n) && 0 <= ToVirtual(t, n) < |t| && Up(u, n) == Up(t, n)
  {
    hide Sorted, Proper;
    assert Placed(t, n);
  }

  /**
   A link keeps the system tree a tree if and only if the place it gives to the real target is not below that
   target's own place.
   */
  lemma {:induction false} LinkIff(t: Store, rank: seq<nat>, node: nat, v: nat)
    requires Formed(t, rank) && Linkable(t, node, v)
    ensures (exists r :: Formed(Link(t, node, v), r)) <==> !Reaches(t, rank, v, node)
  {
    hide Formed, Reaches, Link;
    if !Reaches(t, rank, v, node) {
      LinkRanked(t, rank, node, v);
    } else {
      forall r ensures !Formed(Link(t, node, v), r) { LinkBack(t, rank, node, v, r); }
    }
  }

  lemma {:induction false} LinkBack(t: Store, rank: seq<nat>, node: nat, v: nat, r: seq<nat>)
    requires Formed(t, rank) && Linkable(t, node, v) && Reaches(t, rank, v, node)
    ensures !Formed(Link(t, node, v), r)
  {
    hide Placed;
    var u := Link(t, node, v);
    UpInside(t, rank, v);
    assert ToVirtual(t, v) == v && ToVirtual(u, node) == v && Up(u, node) == t[v].parent == Up(t, v);
    if Formed(u, r) {
      UpInside(u, r, node);
      Circle(t, rank, node, v, r, Up(t, v));
      assert false;
    }
  }

  // ---------- dt_new_virtual ----------

  /** A new unlinked virtual target as child number `k`. */
  function Grown(t: Store, parent: nat, name: Name, k: nat): Store
    requires parent < |t| && k <= |t[parent].children|
  {
    var l := t[parent].children[..k] + [|t|] + t[parent].children[k..];
    t[parent := t[parent].(children := l)] + [Target(name, parent, [], -1, false)]
  }

  lemma {:induction false} GrownPlaced(t: Store, parent: nat, name: Name, k: nat, n: nat)
    requires parent < |t| && k <= |t[parent].children| && Proper(name) && n < |t| && Placed(t, n)
    requires Sorted(Grown(t, parent, name, k), Grown(t, parent, name, k)[parent].children)
    ensures var u := Grown(t, parent, name, k);
      |u| == |t| + 1 && Placed(u, n) && u[n].parent == t[n].parent && ToVirtual(u, n) == ToVirtual(t, n)
  {
    hide Cmp, Proper;
    var u := Grown(t, parent, name, k);
    assert u[n] == t[n] || (n == parent && u[n] == t[n].(children := u[n].children));
    assert forall i :: 0 <= i < |t| ==> u[i].name == t[i].name;
    if n != ROOT {
      var l := t[t[n].parent].children;
      var i :| 0 <= i < |l| && l[i] == n;
      if t[n].parent == parent { assert u[parent].children[if i < k then i else i + 1] == n; }
    }
  }

  /** A new place below any target keeps the system tree a tree. */
  lemma {:induction false} GrownFormed(t: Store, rank: seq<nat>, parent: nat, name: Name, k: nat)
    requires Formed(t, rank) && parent < |t| && k <= |t[parent].children| && Proper(name)
    requires Sorted(Grown(t, parent, name, k), Grown(t, parent, name, k)[parent].children)
    ensures Formed(Grown(t, parent, name, k), rank + [rank[parent] + 1])
  {
    hide Placed, Sorted, Proper;
    var u, r := Grown(t, parent, name, k), rank + [rank[parent] + 1];
    forall n | 0 <= n < |u| ensures Placed(u, n) && Falls(u, r, n) {
      if n < |t| {
        GrownPlaced(t, parent, name, k, n);
        assert Falls(t, rank, n);
      } else {
        NewPlaced(t, parent, name, k);
      }
    }
  }

  lemma {:induction false} NewPlaced(t: Store, parent: nat, name: Name, k: nat)
    requires parent < |t| && k <= |t[parent].children| && Proper(name)
    ensures Placed(Grown(t, parent, name, k), |t|)
  {
    hide Cmp, Proper;
    var u := Grown(t, parent, name, k);
    assert u[|t|] == Target(name, parent, [], -1, false) && u[parent].children[k] == |t|;
  }

  /** The last slash of a path, or a negative number. */
  function LastSep(p: seq<u8>): (k: int)
    ensures -1 <= k < |p| && if k < 0 then SLASH !in p else p[k] == SLASH && SLASH !in p[k + 1..]
  {
    if p == [] then -1
    else
      var q := p[..|p| - 1];
      assert p == q + [p[|p| - 1]];
      if p[|p| - 1] == SLASH then |p| - 1
      else
        var k := LastSep(q);
        assert k >= 0 ==> p[k + 1..] == q[k + 1..] + [p[|p| - 1]];
        k
  }

  /** strrchr for a slash. */
  method LastSlash(p: seq<u8>) returns (k: int)
    ensures k == LastSep(p)
  {
    k := |p| - 1;
    assert p[..k + 1] == p;
    while k >= 0 && p[k] != SLASH
      invariant -1 <= k < |p| && LastSep(p[..k + 1]) == LastSep(p)
    {
      assert p[..k + 1][..k] == p[..k];
      k := k - 1;
    }
  }

  /** A path with something behind its last slash, and that a proper name. */
  predicate Ending(p: seq<u8>) {
    0 <= LastSep(p) < |p| - 1
  }

  ghost predicate ProperTail(p: seq<u8>) {
    Ending(p) ==> Proper(LastName(p)) && Text(LastName(p)) == p[LastSep(p) + 1..]
  }

  /** The name behind the last slash, and the target that the path in front of it leads to. */
  function LastName(p: seq<u8>): Name
    requires Ending(p)
  {
    Split(p[LastSep(p)..]).name
  }

  function ParentOf(t: Store, p: seq<u8>): int
    requires |t| > 0 && Closed(t) && Ending(p)
  {
    FindByPath(t, p[..LastSep(p)])
  }

  /** A child of `parent` compares equal to `name`. */
  ghost predicate Taken(t: Store, parent: nat, name: Name)
    requires parent < |t| && Sorted(t, t[parent].children) && Proper(name)
  {
    exists i :: 0 <= i < |t[parent].children| && Cmp(t[t[parent].children[i]].name, name) == 0
  }

  /** A new target can be made for a path: it has a last name, a parent for it, and the name is free there. */
  ghost predicate Creatable(t: Store, rank: seq<nat>, p: seq<u8>)
    requires Formed(t, rank) && ProperTail(p)
  {
    ChildrenInside(t, rank);
    && Ending(p)
    && var parent := ParentOf(t, p);
       && 0 <= parent < |t| && Placed(t, parent) && !Taken(t, parent, LastName(p))
  }

  /** `u` is `t` with the target that a path asks for, the last one of the store. */
  ghost predicate CreatedFor(t: Store, rank: seq<nat>, p: seq<u8>, u: Store)
    requires Formed(t, rank) && ProperTail(p) && Creatable(t, rank, p)
  {
    ChildrenInside(t, rank);
    var parent, name := ParentOf(t, p), LastName(p);
    exists k: nat :: k <= |t[parent].children| && u == Grown(t, parent, name, k) && Sorted(u, u[parent].children)
  }

  /** dt_new_virtual: a new place where the path says, or nothing when there is no parent or the name is taken. */
  method NewVirtual(tree: Tree, path: seq<u8>, ghost rank: seq<nat>) returns (v: int, ghost rank1: seq<nat>)
    requires Formed(tree.t, rank) && ProperTail(path)
    modifies tree
    ensures Formed(tree.t, rank1)
    ensures v >= 0 <==> Creatable(old(tree.t), rank, path)
    ensures v < 0 ==> tree.t == old(tree.t) && rank1 == rank
    ensures v >= 0 ==> v == |old(tree.t)| && CreatedFor(old(tree.t), rank, path, tree.t)
    ensures v >= 0 ==> |tree.t| == v + 1 && !tree.t[v].compatible && tree.t[v].vnode < 0
    ensures forall n :: 0 <= n < |old(tree.t)| ==> tree.t[n].(children := old(tree.t)[n].children) == old(tree.t)[n]
  {
    hide Sorted, Proper, Closed, FindByPath, Cmp, Split, LastSep;
    rank1 := rank;
    var sep := LastSlash(path);
    if sep < 0 || sep + 1 == |path| { return -1, rank; }
    ChildrenInside(tree.t, rank);
    FoundInside(tree.t, rank, path[..sep]);
    var parent := WalkPath(tree.t, path[..sep]);
    if parent < 0 { return -1, rank; }
    var t, name := tree.t, Split(path[sep..]).name;
    v := |t|;
    assert Placed(t, parent);
    MoreSorted(t, Target(name, -1, [], -1, false), t[parent].children);
    tree.t := t + [Target(name, -1, [], -1, false)];
    var ok := tree.Attach(parent, v);
    TakenMore(t, parent, name);
    if !ok {
      tree.t := t;
      return -1, rank;
    }
    ghost var t1 := t + [Target(name, -1, [], -1, false)];
    ghost var k :| 0 <= k <= |t1[parent].children| &&
      var l := t1[parent].children[..k] + [v] + t1[parent].children[k..];
      tree.t == t1[parent := t1[parent].(children := l)][v := t1[v].(parent := parent)] && Sorted(tree.t, l);
    AttachedIs(t, parent, name, k);
    GrownFormed(t, rank, parent, name, k);
    rank1 := rank + [rank[parent] + 1];
  }

  lemma {:induction false} TakenMore(t: Store, parent: nat, name: Name)
    requires parent < |t| && Sorted(t, t[parent].children) && Proper(name)
    ensures var u := t + [Target(name, -1, [], -1, false)];
      && Sorted(u, u[parent].children) && u[|t|].name == name
      && (Taken(t, parent, name) <==>
            exists i :: 0 <= i < |u[parent].children| && Cmp(u[u[parent].children[i]].name, u[|t|].name) == 0)
  {
    hide Cmp, Proper;
    var u := t + [Target(name, -1, [], -1, false)];
    assert u[parent] == t[parent] && forall i :: 0 <= i < |t| ==> u[i] == t[i];
  }

  lemma {:induction false} AttachedIs(t: Store, parent: nat, name: Name, k: nat)
    requires parent < |t| && k <= |t[parent].children|
    ensures var t1, v := t + [Target(name, -1, [], -1, false)], |t|;
      var l := t1[parent].children[..k] + [v] + t1[parent].children[k..];
      t1[parent := t1[parent].(children := l)][v := t1[v].(parent := parent)] == Grown(t, parent, name, k)
      && Grown(t, parent, name, k)[parent].children == l
  {
  }

  lemma {:induction false} FoundInside(t: Store, rank: seq<nat>, p: seq<u8>)
    requires Formed(t, rank) && Closed(t)
    ensures |t| > 0 && FindByPath(t, p) < |t|
    ensures FindByPath(t, p) >= 0 && !t[FindByPath(t, p)].compatible ==> t[FindByPath(t, p)].vnode < 0
  {
    hide Lookup, Sorted, Proper, Closed;
    var k := Lookup(t, ROOT, p);
    if 0 <= k < |t| { assert Placed(t, k); }
  }

  lemma {:induction false} MoreSorted(t: Store, x: Target, l: seq<nat>)
    requires Sorted(t, l)
    ensures Sorted(t + [x], l)
  {
    hide Cmp, Proper;
  }

  // ---------- pdbg_targets_init_virtual ----------

  /**
   pdbg_targets_init_virtual at one real target: its place is found or made, and the two are linked. `t1` is the
   tree before the link, `place` what the path led to.
   */
  method InitVirtual(tree: Tree, node: nat, path: seq<u8>, ghost rank: seq<nat>)
    returns (linked: bool, place: int, ghost t1: Store, ghost rank1: seq<nat>)
    requires Formed(tree.t, rank) && ProperTail(path) && node < |tree.t| && node != ROOT
    requires tree.t[node].compatible && tree.t[node].vnode < 0
    modifies tree
    ensures Formed(t1, rank1) && -1 <= place < |t1|
    ensures |old(tree.t)| > 0 && Closed(old(tree.t))
    ensures var t, found := old(tree.t), FindByPath(old(tree.t), path);
      if found >= 0 then place == found && t1 == t && rank1 == rank
      else if Creatable(t, rank, path) then place == |t| && CreatedFor(t, rank, path, t1)
      else place == -1 && t1 == t && rank1 == rank
    ensures linked <==> place >= 0 && !t1[place].compatible
    ensures if linked then node < |t1| && tree.t == Link(t1, node, place) else tree.t == t1
    ensures linked && place != ROOT ==>
      Linkable(t1, node, place) && ((exists r :: Formed(tree.t, r)) <==> !Reaches(t1, rank1, place, node))
  {
    hide Sorted, Proper, Closed, FindByPath, ProperTail, Reaches, Creatable, CreatedFor;
    ChildrenInside(tree.t, rank);
    FoundInside(tree.t, rank, path);
    t1, rank1, linked := tree.t, rank, false;
    place := WalkPath(tree.t, path);
    if place < 0 {
      place, rank1 := NewVirtual(tree, path, rank);
      if place < 0 { place := -1; }
    }
    t1 := tree.t;
    if place < 0 { return; }
    if !tree.t[place].compatible {
      if place != ROOT { LinkIff(t1, rank1, node, place); }
      tree.t := Link(tree.t, node, place);
      linked := true;
    }
  }

  // ---------- A target placed below itself ----------

  function PairPath(a: Name, b: Name): seq<u8> {
    [SLASH] + Text(a) + ([SLASH] + Text(b))
  }

  /** The root and one real target. */
  function OneTarget(a: Name): Store {
    [Target(Name([], []), -1, [1], -1, true), Target(a, 0, [], -1, true)]
  }

  lemma {:induction false} SepOf(x: seq<u8>, y: seq<u8>)
    requires SLASH !in y
    ensures LastSep(x + [SLASH] + y) == |x|
    decreases |y|
  {
    var p := x + [SLASH] + y;
    if y == [] {
      assert p[|p| - 1] == SLASH;
    } else {
      assert p[..|p| - 1] == x + [SLASH] + y[..|y| - 1] && p[|p| - 1] == y[|y| - 1];
      SepOf(x, y[..|y| - 1]);
    }
  }

  /** What the path /a/b ends with. */
  lemma {:induction false} PairEnds(a: Name, b: Name)
    requires Proper(a) && Proper(b)
    ensures var p := PairPath(a, b);
      Ending(p) && ProperTail(p) && LastName(p) == b && p[..LastSep(p)] == [SLASH] + Text(a)
  {
    hide Proper, Text, Split, LastSep;
    var p, x := PairPath(a, b), [SLASH] + Text(a);
    TextPlain(b);
    SepOf(x, Text(b));
    assert p == x + [SLASH] + Text(b);
    assert p[|x|..] == [SLASH] + Text(b) + [] && p[|x| + 1..] == Text(b) && p[..|x|] == x;
    SplitText(b, []);
  }

  lemma {:induction false} OneFormed(a: Name)
    requires Proper(a)
    ensures Formed(OneTarget(a), [0, 1])
  {
    hide Proper, Cmp;
    forall n | 0 <= n < 2 ensures Placed(OneTarget(a), n) && Falls(OneTarget(a), [0, 1], n) { }
    hide Placed, Falls;
  }

  /** Below /a there is no /a/b, but the target for the path in front of it is a. */
  lemma {:induction false} PairFound(a: Name, b: Name)
    requires Proper(a) && Proper(b)
    ensures var t := OneTarget(a);
      Closed(t) && FindByPath(t, PairPath(a, b)) < 0 && FindByPath(t, [SLASH] + Text(a)) == 1
  {
    hide Proper, Text, Lookup, Split;
    var t := OneTarget(a);
    assert Joined([a]) == [SLASH] + Text(a) by { JoinedOne(a); }
    assert Joined([a, b]) == PairPath(a, b) by { JoinedPair(a, b); }
    LookupJoined(t, ROOT, [a]);
    LookupJoined(t, ROOT, [a, b]);
    DescendOne(t, ROOT, a);
    assert [a, b] == [a] + [b];
    DescendMore(t, ROOT, [a], b);
    DescendOne(t, 1, b);
  }

  lemma {:induction false} JoinedOne(a: Name)
    ensures Joined([a]) == [SLASH] + Text(a)
  {
    assert [a][1..] == [];
  }

  lemma {:induction false} JoinedPair(a: Name, b: Name)
    ensures Joined([a, b]) == PairPath(a, b)
  {
    hide Text;
    assert [a, b][1..] == [b];
    JoinedOne(b);
  }

  /**
   The real target /a with the system path /a/b: there is no such target, so b is made below a, and linked with a it
   is above a; going up from a comes back to a.
   */
  lemma {:induction false} BelowItself(a: Name, b: Name, u: Store)
    requires Proper(a) && Proper(b)
    ensures var t, path := OneTarget(a), PairPath(a, b);
      && Formed(t, [0, 1]) && Closed(t) && FindByPath(t, path) < 0 && ProperTail(path) && Creatable(t, [0, 1], path)
      && (CreatedFor(t, [0, 1], path, u) ==>
            && Formed(u, [0, 1, 2]) && Linkable(u, 1, 2) && Reaches(u, [0, 1, 2], 2, 1)
            && (forall r :: !Formed(Link(u, 1, 2), r))
            && ToVirtual(Link(u, 1, 2), 1) == 2 && Up(Link(u, 1, 2), 1) == 1)
  {
    hide Formed, Placed, Proper, Text, LastSep, Split, FindByPath, Closed, Cmp, Sorted;
    var t, path := OneTarget(a), PairPath(a, b);
    OneFormed(a);
    PairEnds(a, b);
    PairFound(a, b);
    OnePlaced(a);
    if CreatedFor(t, [0, 1], path, u) {
      BelowGrown(a, b);
      assert u == Grown(t, 1, b, 0);
    }
  }

  lemma {:induction false} OnePlaced(a: Name)
    requires Proper(a)
    ensures Placed(OneTarget(a), 1) && Sorted(OneTarget(a), [])
  {
    hide Proper, Cmp;
  }

  lemma {:induction false} BelowGrown(a: Name, b: Name)
    requires Proper(a) && Proper(b)
    ensures var t1 := Grown(OneTarget(a), 1, b, 0);
      && Formed(t1, [0, 1, 2]) && Linkable(t1, 1, 2) && Reaches(t1, [0, 1, 2], 2, 1)
      && (forall r :: !Formed(Link(t1, 1, 2), r))
      && ToVirtual(Link(t1, 1, 2), 1) == 2 && Up(Link(t1, 1, 2), 1) == 1
  {
    hide Formed, Placed, Proper;
    var t := OneTarget(a);
    var t1 := Grown(t, 1, b, 0);
    assert t[1].children[..0] + [2] + t[1].children[0..] == [2];
    assert t1 == [t[0], Target(a, 0, [2], -1, true), Target(b, 1, [], -1, false)];
    ThreePlaced(a, b);
    assert Reaches(t1, [0, 1, 2], 2, 1) by { assert Up(t1, 2) == 1; }
    forall r ensures !Formed(Link(t1, 1, 2), r) { LinkBack(t1, [0, 1, 2], 1, 2, r); }
  }

  lemma {:induction false} ThreePlaced(a: Name, b: Name)
    requires Proper(a) && Proper(b)
    ensures Formed([Target(Name([], []), -1, [1], -1, true), Target(a, 0, [2], -1, true), Target(b, 1, [], -1, false)],
                   [0, 1, 2])
  {
    hide Proper, Cmp;
    var t := [Target(Name([], []), -1, [1], -1, true), Target(a, 0, [2], -1, true), Target(b, 1, [], -1, false)];
    forall n | 0 <= n < 3 ensures Placed(t, n) && Falls(t, [0, 1, 2], n) { }
    hide Placed, Falls;
  }
}
