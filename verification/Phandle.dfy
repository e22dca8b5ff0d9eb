/**
 What overlay_adjust_local_phandles and overlay_update_local_references do to the tree of an overlay:
 phandles and the references listed under __local_fixups__ all move by the same amount.
 */
module Phandle {
  import opened Bytes
  import Memory
  import opened Structure
  import opened Tree
  import opened Edit

  const PHANDLE: seq<u8> := [112, 104, 97, 110, 100, 108, 101]
  const LINUX_PHANDLE: seq<u8> := [108, 105, 110, 117, 120, 44, 112, 104, 97, 110, 100, 108, 101]

  datatype Result<+T> = Failed(err: int) | Done(value: T)

  function ResultErr<T>(r: Result<T>): int {
    match r case Failed(e) => e case Done(_) => 0
  }

  // ---------- Phandles ----------

  function WordIn(m: map<seq<u8>, seq<u8>>, name: seq<u8>): Option<u32> {
    if name in m && |m[name]| == 4 then Some(Be32(m[name], 0)) else None
  }

  /** fdt_get_phandle: 0 when the node has none. */
  function PhandleOf(t: Tree): u32 {
    match WordIn(t.props, PHANDLE)
    case Some(w) => w
    case None => match WordIn(t.props, LINUX_PHANDLE) case Some(w) => w case None => 0
  }

  function Max(a: u32, b: u32): u32 {
    if a < b then b else a
  }

  /** The largest phandle in a tree. */
  ghost function MaxTree(t: Tree): u32
    decreases t
  {
    Max(PhandleOf(t), MaxTrees(t.children))
  }

  ghost function MaxTrees(ts: seq<Tree>): u32
    decreases ts
  {
    if ts == [] then 0 else Max(MaxTree(ts[0]), MaxTrees(ts[1..]))
  }

  /** The node that child positions lead to. */
  ghost function Sub(t: Tree, path: seq<nat>): Option<Tree>
    decreases |path|
  {
    if path == [] then Some(t)
    else if path[0] < |t.children| then Sub(t.children[path[0]], path[1..])
    else None
  }

  /** Document order of positions: a node comes before what is below it and behind it. */
  predicate Earlier(p: seq<nat>, q: seq<nat>) {
    q != [] && (p == [] || p[0] < q[0] || (p[0] == q[0] && Earlier(p[1..], q[1..])))
  }

  /** Of two positions one is the earlier. */
  lemma {:induction false} OneEarlier(p: seq<nat>, q: seq<nat>)
    requires p != q
    ensures Earlier(p, q) <==> !Earlier(q, p)
    decreases |p|
  {
    if p != [] && q != [] && p[0] == q[0] {
      assert p == [p[0]] + p[1..] && q == [q[0]] + q[1..];
      OneEarlier(p[1..], q[1..]);
    }
  }

  lemma {:induction false} MaxTreesAbove(ts: seq<Tree>, i: nat)
    requires i < |ts|
    ensures MaxTree(ts[i]) <= MaxTrees(ts)
    decreases ts
  {
    if i > 0 { MaxTreesAbove(ts[1..], i - 1); }
  }

  /** No node of a tree has a larger phandle than the largest. */
  lemma {:induction false} MaxTreeAbove(t: Tree, path: seq<nat>)
    requires Sub(t, path).Some?
    ensures PhandleOf(Sub(t, path).value) <= MaxTree(t)
    decreases |path|
  {
    hide PhandleOf;
    if path != [] {
      MaxTreeAbove(t.children[path[0]], path[1..]);
      MaxTreesAbove(t.children, path[0]);
    }
  }

  /** Some node has the largest phandle, unless that is 0. */
  lemma {:induction false} MaxTreeReached(t: Tree) returns (path: seq<nat>)
    ensures MaxTree(t) != 0 ==> Sub(t, path).Some? && PhandleOf(Sub(t, path).value) == MaxTree(t)
    decreases t, 0
  {
    hide PhandleOf;
    path := [];
    if PhandleOf(t) < MaxTrees(t.children) {
      var i, p := MaxTreesReached(t.children);
      path := [i] + p;
      assert path[1..] == p;
    }
  }

  lemma {:induction false} MaxTreesReached(ts: seq<Tree>) returns (i: nat, path: seq<nat>)
    ensures MaxTrees(ts) != 0 ==>
      i < |ts| && Sub(ts[i], path).Some? && PhandleOf(Sub(ts[i], path).value) == MaxTrees(ts)
    decreases ts
  {
    hide PhandleOf, MaxTree, Sub;
    i, path := 0, [];
    if ts != [] {
      if MaxTree(ts[0]) < MaxTrees(ts[1..]) {
        var j, p := MaxTreesReached(ts[1..]);
        i, path := j + 1, p;
      } else {
        path := MaxTreeReached(ts[0]);
      }
    }
  }

  /** The largest phandle of some trees: none is larger, and one of them is that large unless it is 0. */
  ghost predicate Largest(ts: seq<Tree>, max: u32) {
    && (forall i, path :: 0 <= i < |ts| && Sub(ts[i], path).Some? ==> PhandleOf(Sub(ts[i], path).value) <= max)
    && (max != 0 ==>
          exists i, path :: 0 <= i < |ts| && Sub(ts[i], path).Some? && PhandleOf(Sub(ts[i], path).value) == max)
  }

  lemma {:induction false} MaxIs(ts: seq<Tree>)
    ensures Largest(ts, MaxTrees(ts))
  {
    hide PhandleOf, Sub, MaxTrees;
    forall i, path | 0 <= i < |ts| && Sub(ts[i], path).Some? ensures PhandleOf(Sub(ts[i], path).value) <= MaxTrees(ts) {
      MaxTreesAbove(ts, i);
      MaxTreeAbove(ts[i], path);
    }
    var i, path := MaxTreesReached(ts);
  }

  // ---------- Moving the phandles ----------

  /** overlay_phandle_add_offset, a missing property being no failure. */
  function AdjustProp(m: map<seq<u8>, seq<u8>>, name: seq<u8>, delta: u32): Result<map<seq<u8>, seq<u8>>> {
    if name !in m then Done(m)
    else if |m[name]| != 4 then Failed(BADPHANDLE)
    else if Be32(m[name], 0) + delta >= TWO32 - 1 then Failed(NOPHANDLES)
    else Done(m[name := Put32(Be32(m[name], 0) + delta)])
  }

  /** overlay_adjust_node_phandles. */
  ghost function AdjustTree(t: Tree, delta: u32): (r: Result<Tree>)
    ensures r.Failed? ==> r.err < 0
    decreases t
  {
    match AdjustProp(t.props, PHANDLE, delta)
    case Failed(e) => Failed(e)
    case Done(m) =>
      match AdjustProp(m, LINUX_PHANDLE, delta)
      case Failed(e) => Failed(e)
      case Done(m2) =>
        match AdjustTrees(t.children, delta)
        case Failed(e) => Failed(e)
        case Done(ts) => Done(Tree(t.name, m2, ts))
  }

  ghost function AdjustTrees(ts: seq<Tree>, delta: u32): (r: Result<seq<Tree>>)
    ensures if r.Done? then |r.value| == |ts| else r.err < 0
    decreases ts
  {
    if ts == [] then Done([])
    else
      match AdjustTree(ts[0], delta)
      case Failed(e) => Failed(e)
      case Done(u) =>
        match AdjustTrees(ts[1..], delta)
        case Failed(e) => Failed(e)
        case Done(us) => Done([u] + us)
  }

  lemma {:induction false} AdjustEach(ts: seq<Tree>, delta: u32, i: nat)
    requires AdjustTrees(ts, delta).Done? && i < |ts|
    ensures AdjustTree(ts[i], delta) == Done(AdjustTrees(ts, delta).value[i])
    decreases ts
  {
    hide AdjustTree;
    if i > 0 { AdjustEach(ts[1..], delta, i - 1); }
  }

  /** A word moved by `delta` reads as the sum. */
  lemma {:induction false} PutRead(w: u32)
    ensures |Put32(w)| == 4 && Be32(Put32(w), 0) == w
  {
    hide Put32, Be32;
    assert Put32(w)[0..4] == Put32(w);
    Memory.PatchWord(Put32(w), 0, w);
  }

  /** Same names, same children: what child positions and name lookups see. */
  ghost predicate SameShape(t: Tree, u: Tree)
    decreases t
  {
    t.name == u.name && |t.children| == |u.children| && forall i :: 0 <= i < |t.children| ==>
      SameShape(t.children[i], u.children[i])
  }

  lemma {:induction false} ShapeSub(t: Tree, u: Tree, path: seq<nat>)
    requires SameShape(t, u)
    ensures Sub(t, path).Some? <==> Sub(u, path).Some?
    ensures Sub(t, path).Some? ==> SameShape(Sub(t, path).value, Sub(u, path).value)
    decreases |path|
  {
    if path != [] && path[0] < |t.children| { ShapeSub(t.children[path[0]], u.children[path[0]], path[1..]); }
  }

  lemma {:induction false} AdjustShape(t: Tree, delta: u32)
    requires AdjustTree(t, delta).Done?
    ensures SameShape(t, AdjustTree(t, delta).value)
    decreases t
  {
    hide AdjustProp;
    var us := AdjustTrees(t.children, delta).value;
    forall i | 0 <= i < |t.children| ensures SameShape(t.children[i], us[i]) {
      AdjustEach(t.children, delta, i);
      AdjustShape(t.children[i], delta);
    }
  }

  // ---------- When the phandles can be moved ----------

  /** The property `k` is a phandle that does not move by `delta`: it is no word, or the sum is too large. */
  predicate Stays(m: map<seq<u8>, seq<u8>>, k: seq<u8>, delta: u32) {
    k in m && (|m[k]| != 4 || Be32(m[k], 0) + delta >= TWO32 - 1)
  }

  /** Neither of the two phandle properties is in the way. */
  predicate Shiftable(m: map<seq<u8>, seq<u8>>, delta: u32) {
    !Stays(m, PHANDLE, delta) && !Stays(m, LINUX_PHANDLE, delta)
  }

  /** The first property in document order, `phandle` before `linux,phandle`, that does not move. */
  ghost predicate FirstStays(t: Tree, delta: u32, path: seq<nat>, k: seq<u8>) {
    && Sub(t, path).Some? && Stays(Sub(t, path).value.props, k, delta)
    && (k == PHANDLE || (k == LINUX_PHANDLE && !Stays(Sub(t, path).value.props, PHANDLE, delta)))
    && forall q :: Earlier(q, path) && Sub(t, q).Some? ==> Shiftable(Sub(t, q).value.props, delta)
  }

  /** The error for a property that does not move. */
  function StaysErr(v: seq<u8>): int {
    if |v| != 4 then BADPHANDLE else NOPHANDLES
  }

  ghost predicate AllShiftable(t: Tree, delta: u32) {
    forall path :: Sub(t, path).Some? ==> Shiftable(Sub(t, path).value.props, delta)
  }

  lemma {:induction false} AdjustHereIff(m: map<seq<u8>, seq<u8>>, delta: u32)
    ensures var r := AdjustProp(m, PHANDLE, delta);
      && (r.Failed? <==> Stays(m, PHANDLE, delta)) && (r.Failed? ==> r.err == StaysErr(m[PHANDLE]))
      && (r.Done? ==>
        var q := AdjustProp(r.value, LINUX_PHANDLE, delta);
        && (q.Failed? <==> Stays(m, LINUX_PHANDLE, delta)) && (q.Failed? ==> q.err == StaysErr(m[LINUX_PHANDLE])))
  {
    hide Be32, Put32;
    assert |PHANDLE| != |LINUX_PHANDLE|;
  }

  /** One level down, what is true of a child's positions is true of the node's positions below that child. */
  lemma {:induction false} StaysBelow(t: Tree, delta: u32, i: nat, path: seq<nat>, k: seq<u8>)
    requires i < |t.children| && Shiftable(t.props, delta) && FirstStays(t.children[i], delta, path, k)
    requires forall j :: 0 <= j < i ==> AllShiftable(t.children[j], delta)
    ensures FirstStays(t, delta, [i] + path, k)
  {
    hide Stays, Shiftable;
    var p := [i] + path;
    assert p[1..] == path && p[0] == i;
    forall q | Earlier(q, p) && Sub(t, q).Some? ensures Shiftable(Sub(t, q).value.props, delta) {
      if q != [] && q[0] < i { assert AllShiftable(t.children[q[0]], delta); }
    }
  }

  /** Moving fails with the error of the first property that does not move. */
  lemma {:induction false} AdjustFails(t: Tree, delta: u32) returns (path: seq<nat>, k: seq<u8>)
    requires AdjustTree(t, delta).Failed?
    ensures FirstStays(t, delta, path, k)
    ensures AdjustTree(t, delta).err == StaysErr(Sub(t, path).value.props[k])
    decreases t, 0
  {
    hide AdjustProp, Stays, AdjustTrees;
    AdjustHereIff(t.props, delta);
    path, k := [], PHANDLE;
    if Shiftable(t.props, delta) {
      var i, p, l := AdjustTreesFail(t.children, delta);
      StaysBelow(t, delta, i, p, l);
      path, k := [i] + p, l;
      assert path[1..] == p;
    } else if !Stays(t.props, PHANDLE, delta) {
      k := LINUX_PHANDLE;
    }
  }

  lemma {:induction false} AdjustTreesFail(ts: seq<Tree>, delta: u32) returns (i: nat, path: seq<nat>, k: seq<u8>)
    requires AdjustTrees(ts, delta).Failed?
    ensures i < |ts| && FirstStays(ts[i], delta, path, k) && forall j :: 0 <= j < i ==> AllShiftable(ts[j], delta)
    ensures AdjustTrees(ts, delta).err == StaysErr(Sub(ts[i], path).value.props[k])
    decreases ts
  {
    hide AdjustTree, AllShiftable, FirstStays;
    if AdjustTree(ts[0], delta).Failed? {
      i := 0;
      path, k := AdjustFails(ts[0], delta);
      StaysThere(ts[0], delta, path, k);
    } else {
      AdjustDone(ts[0], delta);
      i, path, k := AdjustTreesFail(ts[1..], delta);
      StaysThere(ts[1..][i], delta, path, k);
      i := i + 1;
    }
  }

  lemma {:induction false} StaysThere(t: Tree, delta: u32, path: seq<nat>, k: seq<u8>)
    requires FirstStays(t, delta, path, k)
    ensures Sub(t, path).Some? && k in Sub(t, path).value.props
  {
  }

  lemma {:induction false} AdjustDone(t: Tree, delta: u32)
    requires AdjustTree(t, delta).Done?
    ensures AllShiftable(t, delta)
  {
    hide AdjustTree, Shiftable;
    forall path | Sub(t, path).Some? ensures Shiftable(Sub(t, path).value.props, delta) {
      AdjustMoves(t, delta, path);
      MovedShiftable(Sub(t, path).value.props, Sub(AdjustTree(t, delta).value, path).value.props, delta);
    }
  }

  lemma {:induction false} MovedShiftable(a: map<seq<u8>, seq<u8>>, b: map<seq<u8>, seq<u8>>, delta: u32)
    requires PhandlesMoved(a, b, delta)
    ensures Shiftable(a, delta)
  {
  }

  /**
   The phandles of a tree can be moved exactly when every `phandle` and `linux,phandle` of every node is four bytes
   and its word plus `delta` stays below 2^32 - 1; otherwise the first one in document order that is not makes the
   error: BADPHANDLE for its length, NOPHANDLES for its sum.
   */
  lemma {:induction false} AdjustIff(t: Tree, delta: u32)
    ensures AdjustTree(t, delta).Done? <==> AllShiftable(t, delta)
    ensures AdjustTree(t, delta).Failed? <==> exists path, k :: FirstStays(t, delta, path, k)
    ensures forall path, k :: FirstStays(t, delta, path, k) ==>
      AdjustTree(t, delta) == Failed(if |Sub(t, path).value.props[k]| != 4 then BADPHANDLE else NOPHANDLES)
  {
    hide AdjustTree, Stays, Sub;
    var r := AdjustTree(t, delta);
    if r.Done? {
      AdjustDone(t, delta);
    } else {
      var path, k := AdjustFails(t, delta);
      assert FirstStays(t, delta, path, k);
      forall p, l | FirstStays(t, delta, p, l) ensures p == path && l == k { StaysOnce(t, delta, path, k, p, l); }
    }
  }

  lemma {:induction false} StaysOnce(t: Tree, delta: u32, path: seq<nat>, k: seq<u8>, p: seq<nat>, l: seq<u8>)
    requires FirstStays(t, delta, path, k) && FirstStays(t, delta, p, l)
    ensures p == path && l == k
  {
    hide Stays, Sub;
    if p != path { OneEarlier(p, path); }
  }

  /** What moving the phandles does at one node: its two phandle properties move, nothing else changes. */
  ghost predicate PhandlesMoved(a: map<seq<u8>, seq<u8>>, b: map<seq<u8>, seq<u8>>, delta: u32) {
    && a.Keys == b.Keys
    && (forall k :: k in a && k != PHANDLE && k != LINUX_PHANDLE ==> b[k] == a[k])
    && (forall k :: k in a && (k == PHANDLE || k == LINUX_PHANDLE) ==>
          && |a[k]| == 4 && Be32(a[k], 0) + delta < TWO32 - 1 && b[k] == Put32(Be32(a[k], 0) + delta))
  }

  lemma {:induction false} AdjustNodeMoves(t: Tree, delta: u32)
    requires AdjustTree(t, delta).Done?
    ensures PhandlesMoved(t.props, AdjustTree(t, delta).value.props, delta)
  {
    hide Be32, Put32, AdjustTrees;
    assert |PHANDLE| != |LINUX_PHANDLE|;
  }

  lemma {:induction false} AdjustMoves(t: Tree, delta: u32, path: seq<nat>)
    requires AdjustTree(t, delta).Done? && Sub(t, path).Some?
    ensures var u := Sub(AdjustTree(t, delta).value, path);
      u.Some? && PhandlesMoved(Sub(t, path).value.props, u.value.props, delta)
    decreases |path|
  {
    hide PhandlesMoved, AdjustProp;
    if path == [] {
      AdjustNodeMoves(t, delta);
    } else {
      AdjustEach(t.children, delta, path[0]);
      AdjustMoves(t.children[path[0]], delta, path[1..]);
    }
  }

  lemma {:induction false} MovedPhandle(a: Tree, b: Tree, delta: u32)
    requires PhandlesMoved(a.props, b.props, delta)
    ensures PHANDLE in a.props || LINUX_PHANDLE in a.props ==> PhandleOf(b) == PhandleOf(a) + delta < TWO32 - 1
    ensures PHANDLE !in a.props && LINUX_PHANDLE !in a.props ==> PhandleOf(b) == PhandleOf(a) == 0
  {
    hide Be32, Put32;
    if PHANDLE in a.props {
      PutRead(Be32(a.props[PHANDLE], 0) + delta);
    } else if LINUX_PHANDLE in a.props {
      PutRead(Be32(a.props[LINUX_PHANDLE], 0) + delta);
    }
  }

  // ---------- Moving the references ----------

  /** The word at `p` of a value moved by `delta`. */
  function Bump(v: seq<u8>, p: nat, delta: u32): (w: seq<u8>)
    requires p + 4 <= |v|
    ensures |w| == |v|
  {
    Overwrite(v, p, Put32(Add32(Be32(v, p), delta)))
  }

  /** The words at all listed offsets moved, one after the other, or the first offset that is not inside the value. */
  function FixValue(v: seq<u8>, ps: seq<u32>, delta: u32): (r: Result<seq<u8>>)
    ensures if r.Done? then |r.value| == |v| else r.err in ps && r.err + 4 > |v|
    decreases |ps|
  {
    if ps == [] then Done(v)
    else if ps[0] + 4 > |v| then Failed(ps[0])
    else FixValue(Bump(v, ps[0], delta), ps[1..], delta)
  }

  /** The words of a value. */
  function Cells(v: seq<u8>): seq<u32> {
    if |v| < 4 then [] else [Be32(v, 0)] + Cells(v[4..])
  }

  /**
   How moving the references ends: the changed tree; a list that is no list of words, or a property or child that
   is not there; or the first listed offset that does not lie inside the property `prop` of the node that `names`
   leads to.
   */
  datatype Fix<+T> = Fixed(value: T) | Unfit | Missed(names: seq<seq<u8>>, prop: seq<u8>, p: int)

  /** The loop of overlay_update_local_node_references over the properties of a fixup node. */
  ghost function FixProps(m: map<seq<u8>, seq<u8>>, f: Forest, st: seq<u8>, delta: u32): Fix<map<seq<u8>, seq<u8>>>
    decreases f
  {
    match f
    case Prop(nameoff, val, _, rest) =>
      (match Str(st, nameoff)
       case None => FixProps(m, rest, st, delta)
       case Some(name) =>
         if |val| % 4 != 0 || name !in m then Unfit
         else
           match FixValue(m[name], Cells(val), delta)
           case Failed(p) => Missed([], name, p)
           case Done(v) => FixProps(m[name := v], rest, st, delta))
    case Nop(rest) => FixProps(m, rest, st, delta)
    case _ => Fixed(m)
  }

  ghost function FixKids(ts: seq<Tree>, f: Forest, st: seq<u8>, delta: u32): Fix<seq<Tree>>
    decreases f, 0
  {
    match f
    case Empty => Fixed(ts)
    case Node(name, _, kids, rest) =>
      var i := ChildIndex(ts, name);
      if !(0 <= i < |ts|) then Unfit
      else (match FixTree(ts[i], kids, st, delta)
            case Unfit => Unfit
            case Missed(names, prop, p) => Missed([name] + names, prop, p)
            case Fixed(u) => FixKids(ts[i := u], rest, st, delta))
    case _ => FixKids(ts, f.rest, st, delta)
  }

  /** overlay_update_local_node_references: `kids` are the contents of the fixup node that goes with `t`. */
  ghost function FixTree(t: Tree, kids: Forest, st: seq<u8>, delta: u32): Fix<Tree>
    decreases kids, 1
  {
    match FixProps(t.props, kids, st, delta)
    case Unfit => Unfit
    case Missed(names, prop, p) => Missed(names, prop, p)
    case Fixed(m) =>
      match FixKids(t.children, kids, st, delta)
      case Unfit => Unfit
      case Missed(names, prop, p) => Missed(names, prop, p)
      case Fixed(ts) => Fixed(Tree(t.name, m, ts))
  }

  // ---------- Which offsets are listed for a property ----------

  ghost function HitsHere(f: Forest, st: seq<u8>, prop: seq<u8>): seq<u32> {
    match f
    case Prop(nameoff, val, _, rest) =>
      (if Str(st, nameoff) == Some(prop) then Cells(val) else []) + HitsHere(rest, st, prop)
    case Nop(rest) => HitsHere(rest, st, prop)
    case _ => []
  }

  /** All offsets that the fixups list for property `prop` of the node at `path`. */
  ghost function Hits(f: Forest, st: seq<u8>, t: Tree, path: seq<nat>, prop: seq<u8>): seq<u32>
    decreases f, 1
  {
    if path == [] then HitsHere(f, st, prop) else HitsBelow(f, st, t.children, path, prop)
  }

  ghost function HitsBelow(f: Forest, st: seq<u8>, ts: seq<Tree>, path: seq<nat>, prop: seq<u8>): seq<u32>
    requires path != []
    decreases f, 0
  {
    match f
    case Empty => []
    case Node(name, _, kids, rest) =>
      (if ChildIndex(ts, name) == path[0] < |ts| then Hits(kids, st, ts[path[0]], path[1..], prop) else [])
      + HitsBelow(rest, st, ts, path, prop)
    case _ => HitsBelow(f.rest, st, ts, path, prop)
  }

  lemma {:induction false} FixValueConcat(v: seq<u8>, p: seq<u32>, q: seq<u32>, delta: u32)
    ensures FixValue(v, p + q, delta) ==
            match FixValue(v, p, delta) case Failed(e) => Failed(e) case Done(w) => FixValue(w, q, delta)
    decreases |p|
  {
    hide Bump;
    if p == [] {
      assert p + q == q;
    } else {
      assert (p + q)[1..] == p[1..] + q;
      if p[0] + 4 <= |v| { FixValueConcat(Bump(v, p[0], delta), p[1..], q, delta); }
    }
  }

  /** At one node the fixups change each property by exactly the offsets listed for it. */
  lemma {:induction false} FixPropsHits(m: map<seq<u8>, seq<u8>>, f: Forest, st: seq<u8>, delta: u32, prop: seq<u8>)
    requires FixProps(m, f, st, delta).Fixed?
    ensures var u := FixProps(m, f, st, delta).value;
      && u.Keys == m.Keys
      && (prop in m ==> FixValue(m[prop], HitsHere(f, st, prop), delta) == Done(u[prop]))
    decreases f
  {
    hide FixValue, Str, Cells;
    match f {
      case Prop(nameoff, val, _, rest) =>
        if Str(st, nameoff).Some? {
          var name := Str(st, nameoff).value;
          var v := FixValue(m[name], Cells(val), delta).value;
          FixPropsHits(m[name := v], rest, st, delta, prop);
          if name == prop {
            FixValueConcat(m[prop], Cells(val), HitsHere(rest, st, prop), delta);
          } else {
            assert [] + HitsHere(rest, st, prop) == HitsHere(rest, st, prop);
          }
        } else {
          FixPropsHits(m, rest, st, delta, prop);
          assert [] + HitsHere(rest, st, prop) == HitsHere(rest, st, prop);
        }
      case Nop(rest) => FixPropsHits(m, rest, st, delta, prop);
      case Empty => assert forall k :: k in m ==> FixValue(m[k], [], delta) == Done(m[k]) by { FixNone(m, delta); }
      case Node(_, _, _, _) => assert forall k :: k in m ==>
        FixValue(m[k], [], delta) == Done(m[k]) by { FixNone(m, delta); }
    }
  }

  lemma {:induction false} FixNone(m: map<seq<u8>, seq<u8>>, delta: u32)
    ensures forall k :: k in m ==> FixValue(m[k], [], delta) == Done(m[k])
  {
  }

  ghost predicate SameShapes(ts: seq<Tree>, us: seq<Tree>) {
    |ts| == |us| && forall i :: 0 <= i < |ts| ==> SameShape(ts[i], us[i])
  }

  lemma {:induction false} ShapeSame(t: Tree)
    ensures SameShape(t, t)
    decreases t
  {
    forall i | 0 <= i < |t.children| ensures SameShape(t.children[i], t.children[i]) { ShapeSame(t.children[i]); }
  }

  lemma {:induction false} ShapeTrans(a: Tree, b: Tree, c: Tree)
    requires SameShape(a, b) && SameShape(b, c)
    ensures SameShape(a, c)
    decreases a
  {
    forall i | 0 <= i < |a.children| ensures SameShape(a.children[i], c.children[i]) {
      ShapeTrans(a.children[i], b.children[i], c.children[i]);
    }
  }

  lemma {:induction false} ShapesTrans(a: seq<Tree>, b: seq<Tree>, c: seq<Tree>)
    requires SameShapes(a, b) && SameShapes(b, c)
    ensures SameShapes(a, c)
  {
    hide SameShape;
    forall i | 0 <= i < |a| ensures SameShape(a[i], c[i]) { ShapeTrans(a[i], b[i], c[i]); }
  }

  lemma {:induction false} ShapeSet(ts: seq<Tree>, i: nat, u: Tree)
    requires i < |ts| && SameShape(ts[i], u)
    ensures SameShapes(ts, ts[i := u])
  {
    hide SameShape;
    forall j | 0 <= j < |ts| ensures SameShape(ts[j], ts[i := u][j]) { ShapeSame(ts[j]); }
  }

  lemma {:induction false} ShapeIndex(ts: seq<Tree>, us: seq<Tree>, name: seq<u8>)
    requires SameShapes(ts, us)
    ensures ChildIndex(ts, name) == ChildIndex(us, name)
    decreases |ts|
  {
    if ts != [] {
      assert SameShape(ts[0], us[0]);
      assert SameShapes(ts[1..], us[1..]);
      ShapeIndex(ts[1..], us[1..], name);
    }
  }

  /** The fixups that apply depend on the shape of the tree only. */
  lemma {:induction false} ShapeHits(f: Forest, st: seq<u8>, t: Tree, u: Tree, path: seq<nat>, prop: seq<u8>)
    requires SameShape(t, u)
    ensures Hits(f, st, t, path, prop) == Hits(f, st, u, path, prop)
    decreases f, 1
  {
    if path != [] { ShapeHitsBelow(f, st, t.children, u.children, path, prop); }
  }

  lemma {:induction false} ShapeHitsBelow(f: Forest, st: seq<u8>, ts: seq<Tree>, us: seq<Tree>, path: seq<nat>,
                                          prop: seq<u8>)
    requires SameShapes(ts, us) && path != []
    ensures HitsBelow(f, st, ts, path, prop) == HitsBelow(f, st, us, path, prop)
    decreases f, 0
  {
    hide Hits, SameShape;
    match f {
      case Empty =>
      case Node(name, _, kids, rest) =>
        ShapeIndex(ts, us, name);
        if path[0] < |ts| { ShapeHits(kids, st, ts[path[0]], us[path[0]], path[1..], prop); }
        ShapeHitsBelow(rest, st, ts, us, path, prop);
      case Prop(_, _, _, rest) => ShapeHitsBelow(rest, st, ts, us, path, prop);
      case Nop(rest) => ShapeHitsBelow(rest, st, ts, us, path, prop);
    }
  }

  /** Every property of the node at `path` has had exactly its listed words moved. */
  ghost predicate FixedAt(t: Tree, u: Tree, path: seq<nat>, prop: seq<u8>, hits: seq<u32>, delta: u32) {
    Sub(t, path).Some? ==>
      && Sub(u, path).Some?
      && var a, b := Sub(t, path).value.props, Sub(u, path).value.props;
         a.Keys == b.Keys && (prop in a ==> FixValue(a[prop], hits, delta) == Done(b[prop]))
  }

  lemma {:induction false} FixTreeShape(t: Tree, f: Forest, st: seq<u8>, delta: u32)
    requires FixTree(t, f, st, delta).Fixed?
    ensures SameShape(t, FixTree(t, f, st, delta).value)
    decreases f, 1
  {
    hide FixProps;
    FixKidsShape(t.children, f, st, delta);
  }

  lemma {:induction false} FixKidsShape(ts: seq<Tree>, f: Forest, st: seq<u8>, delta: u32)
    requires FixKids(ts, f, st, delta).Fixed?
    ensures SameShapes(ts, FixKids(ts, f, st, delta).value)
    decreases f, 0
  {
    hide SameShape, FixTree;
    match f {
      case Empty => forall i | 0 <= i < |ts| ensures SameShape(ts[i], ts[i]) { ShapeSame(ts[i]); }
      case Node(name, _, kids, rest) =>
        var i := ChildIndex(ts, name);
        FixTreeShape(ts[i], kids, st, delta);
        var u := FixTree(ts[i], kids, st, delta).value;
        ShapeSet(ts, i, u);
        FixKidsShape(ts[i := u], rest, st, delta);
        ShapesTrans(ts, ts[i := u], FixKids(ts, f, st, delta).value);
      case Prop(_, _, _, rest) => FixKidsShape(ts, rest, st, delta);
      case Nop(rest) => FixKidsShape(ts, rest, st, delta);
    }
  }

  /** overlay_update_local_references, seen from one property: its listed words move and nothing else does. */
  lemma {:induction false} FixTreeHits(t: Tree, f: Forest, st: seq<u8>, delta: u32, path: seq<nat>, prop: seq<u8>)
    requires FixTree(t, f, st, delta).Fixed?
    ensures FixedAt(t, FixTree(t, f, st, delta).value, path, prop, Hits(f, st, t, path, prop), delta)
    decreases f, 1
  {
    hide FixProps, FixKids, FixValue;
    if path == [] {
      FixPropsHits(t.props, f, st, delta, prop);
    } else if path[0] < |t.children| {
      FixKidsHits(t.children, f, st, delta, path, prop);
    }
  }

  lemma {:induction false} FixKidsHits(ts: seq<Tree>, f: Forest, st: seq<u8>, delta: u32, path: seq<nat>, prop: seq<u8>)
    requires FixKids(ts, f, st, delta).Fixed? && path != [] && path[0] < |ts|
    ensures var us := FixKids(ts, f, st, delta).value;
      |us| == |ts| && FixedAt(ts[path[0]], us[path[0]], path[1..], prop, HitsBelow(f, st, ts, path, prop), delta)
    decreases f, 0
  {
    hide FixTree, FixValue, Hits, FixedAt;
    var k, p := path[0], path[1..];
    match f {
      case Empty => FixedNone(ts[k], p, prop, delta);
      case Prop(_, _, _, rest) => FixKidsHits(ts, rest, st, delta, path, prop);
      case Nop(rest) => FixKidsHits(ts, rest, st, delta, path, prop);
      case Node(name, _, kids, rest) =>
        var i := ChildIndex(ts, name);
        var u := FixTree(ts[i], kids, st, delta).value;
        FixKidsHits(ts[i := u], rest, st, delta, path, prop);
        FixTreeShape(ts[i], kids, st, delta);
        ShapeSet(ts, i, u);
        ShapeHitsBelow(rest, st, ts, ts[i := u], path, prop);
        if i == k {
          FixTreeHits(ts[i], kids, st, delta, p, prop);
          FixedTwice(ts[k], u, FixKids(ts, f, st, delta).value[k], p, prop, Hits(kids, st, ts[k], p, prop),
                     HitsBelow(rest, st, ts, path, prop), delta);
        } else {
          assert [] + HitsBelow(rest, st, ts, path, prop) == HitsBelow(rest, st, ts, path, prop);
        }
    }
  }

  lemma {:induction false} FixedNone(t: Tree, path: seq<nat>, prop: seq<u8>, delta: u32)
    ensures FixedAt(t, t, path, prop, [], delta)
  {
  }

  lemma {:induction false} FixedTwice(t: Tree, u: Tree, w: Tree, path: seq<nat>, prop: seq<u8>, a: seq<u32>,
                                      b: seq<u32>, delta: u32)
    requires FixedAt(t, u, path, prop, a, delta) && FixedAt(u, w, path, prop, b, delta)
    ensures FixedAt(t, w, path, prop, a + b, delta)
  {
    hide FixValue, Sub;
    if Sub(t, path).Some? && prop in Sub(t, path).value.props {
      FixValueConcat(Sub(t, path).value.props[prop], a, b, delta);
    }
  }

  // ---------- References keep naming the same node ----------

  /** The four bytes at `p` and those at `q` do not overlap. */
  predicate WordsApart(p: int, q: int) {
    p + 4 <= q || q + 4 <= p
  }

  lemma {:induction false} BumpWord(v: seq<u8>, p: nat, delta: u32, q: nat)
    requires p + 4 <= |v| && q + 4 <= |v|
    ensures Be32(Bump(v, p, delta), p) == Add32(Be32(v, p), delta)
    ensures WordsApart(p, q) ==> Be32(Bump(v, p, delta), q) == Be32(v, q)
  {
    hide Put32, Be32, Add32;
    var x := Put32(Add32(Be32(v, p), delta));
    var w := Bump(v, p, delta);
    assert w[p..p + 4] == x;
    Memory.PatchWord(w, p, Add32(Be32(v, p), delta));
    if p + 4 <= q {
      assert w[p + 4..|v|] == v[p + 4..|v|];
      Move32(w, p + 4, v, p + 4, |v| - p - 4, q - p - 4);
    } else if q + 4 <= p {
      assert w[0..p] == v[0..p];
      Move32(w, 0, v, 0, p, q);
    }
  }

  lemma {:induction false} FixApart(v: seq<u8>, ps: seq<u32>, delta: u32, q: nat)
    requires FixValue(v, ps, delta).Done? && q + 4 <= |v| && forall j :: 0 <= j < |ps| ==> WordsApart(ps[j], q)
    ensures Be32(FixValue(v, ps, delta).value, q) == Be32(v, q)
    decreases |ps|
  {
    hide Be32, Bump;
    if ps != [] {
      BumpWord(v, ps[0], delta, q);
      FixApart(Bump(v, ps[0], delta), ps[1..], delta, q);
    }
  }

  /** A word listed exactly once moves exactly once. */
  lemma {:induction false} FixOnce(v: seq<u8>, ps: seq<u32>, delta: u32, k: nat)
    requires FixValue(v, ps, delta).Done? && k < |ps| && forall j :: 0 <= j < |ps| && j != k ==>
      WordsApart(ps[j], ps[k])
    ensures ps[k] + 4 <= |v| && Be32(FixValue(v, ps, delta).value, ps[k]) == Add32(Be32(v, ps[k]), delta)
    decreases |ps|
  {
    hide Be32, Bump, Add32;
    var w := Bump(v, ps[0], delta);
    if k == 0 {
      BumpWord(v, ps[0], delta, ps[0]);
      FixApart(w, ps[1..], delta, ps[0]);
    } else {
      FixOnce(w, ps[1..], delta, k - 1);
      BumpWord(v, ps[0], delta, ps[k]);
    }
  }

  /** The word at `p` of a property of the node at `path`. */
  ghost function RefAt(t: Tree, path: seq<nat>, prop: seq<u8>, p: nat): Option<u32> {
    if Sub(t, path).Some? && prop in Sub(t, path).value.props && p + 4 <= |Sub(t, path).value.props[prop]|
    then Some(Be32(Sub(t, path).value.props[prop], p)) else None
  }

  /** The fixups list that word, and no other listed word overlaps it. */
  ghost predicate ListedOnce(f: Forest, st: seq<u8>, t: Tree, path: seq<nat>, prop: seq<u8>, p: nat) {
    var ps := Hits(f, st, t, path, prop);
    exists k: nat :: k < |ps| && ps[k] == p && forall j :: 0 <= j < |ps| && j != k ==> WordsApart(ps[j], ps[k])
  }

  /** A reference: a word of a property other than the phandles that the fixups list exactly once. */
  ghost predicate Listed(t: Tree, f: Forest, st: seq<u8>, path: seq<nat>, prop: seq<u8>, p: nat) {
    && prop != PHANDLE && prop != LINUX_PHANDLE && ListedOnce(f, st, t, path, prop, p)
    && RefAt(t, path, prop, p).Some?
  }

  lemma {:induction false} RefMoves(t: Tree, t1: Tree, t2: Tree, f: Forest, st: seq<u8>, delta: u32, path: seq<nat>,
                                    prop: seq<u8>, p: nat)
    requires AdjustTree(t, delta) == Done(t1) && FixTree(t1, f, st, delta) == Fixed(t2)
    requires Listed(t, f, st, path, prop, p)
    ensures RefAt(t2, path, prop, p) == Some(Add32(RefAt(t, path, prop, p).value, delta))
  {
    hide AdjustTree, FixTree, FixValue, Hits, Be32, Add32, Sub;
    AdjustShape(t, delta);
    AdjustMoves(t, delta, path);
    ShapeHits(f, st, t, t1, path, prop);
    FixTreeHits(t1, f, st, delta, path, prop);
    var ps := Hits(f, st, t, path, prop);
    var k: nat :| k < |ps| && ps[k] == p && forall j :: 0 <= j < |ps| && j != k ==> WordsApart(ps[j], ps[k]);
    FixOnce(Sub(t1, path).value.props[prop], ps, delta, k);
  }

  /** The node at `path` had a phandle, and no fixup points into it. */
  ghost predicate HasPhandle(t: Tree, f: Forest, st: seq<u8>, path: seq<nat>) {
    && Sub(t, path).Some? && PhandleOf(Sub(t, path).value) != 0
    && Hits(f, st, t, path, PHANDLE) == [] && Hits(f, st, t, path, LINUX_PHANDLE) == []
  }

  lemma {:induction false} PhandleMoves(t: Tree, t1: Tree, t2: Tree, f: Forest, st: seq<u8>, delta: u32, path: seq<nat>)
    requires AdjustTree(t, delta) == Done(t1) && FixTree(t1, f, st, delta) == Fixed(t2) && HasPhandle(t, f, st, path)
    ensures Sub(t2, path).Some? && PhandleOf(Sub(t2, path).value) == PhandleOf(Sub(t, path).value) + delta
  {
    hide AdjustTree, FixTree, Hits, Be32, Sub;
    AdjustShape(t, delta);
    AdjustMoves(t, delta, path);
    MovedPhandle(Sub(t, path).value, Sub(t1, path).value, delta);
    ShapeHits(f, st, t, t1, path, PHANDLE);
    ShapeHits(f, st, t, t1, path, LINUX_PHANDLE);
    FixTreeHits(t1, f, st, delta, path, PHANDLE);
    FixTreeHits(t1, f, st, delta, path, LINUX_PHANDLE);
  }

  /**
   After both passes with delta = the largest phandle of the base tree, an overlay phandle is larger than every
   phandle of the base tree, two different ones stay different, and a reference listed exactly once still names
   the node it named.
   */
  lemma {:induction false} ReferencesKept(bases: seq<Tree>, t: Tree, t1: Tree, t2: Tree, f: Forest, st: seq<u8>,
                                          r: seq<nat>, r': seq<nat>)
    requires AdjustTree(t, MaxTrees(bases)) == Done(t1) && FixTree(t1, f, st, MaxTrees(bases)) == Fixed(t2)
    requires HasPhandle(t, f, st, r) && HasPhandle(t, f, st, r')
    ensures Sub(t2, r).Some? && Sub(t2, r').Some?
    ensures PhandleOf(Sub(t2, r).value) == PhandleOf(Sub(t2, r').value) <==>
      PhandleOf(Sub(t, r).value) == PhandleOf(Sub(t, r').value)
    ensures forall i, b :: 0 <= i < |bases| && Sub(bases[i], b).Some? ==>
              PhandleOf(Sub(t2, r).value) > PhandleOf(Sub(bases[i], b).value)
    ensures forall path, prop, p :: Listed(t, f, st, path, prop, p) ==>
              (RefAt(t, path, prop, p).value == PhandleOf(Sub(t, r).value) <==>
                 RefAt(t2, path, prop, p) == Some(PhandleOf(Sub(t2, r).value)))
  {
    hide AdjustTree, FixTree, Hits, Be32, Sub, MaxTrees, PhandleOf, ListedOnce;
    var delta := MaxTrees(bases);
    PhandleMoves(t, t1, t2, f, st, delta, r);
    PhandleMoves(t, t1, t2, f, st, delta, r');
    forall i, b | 0 <= i < |bases| && Sub(bases[i], b).Some?
      ensures PhandleOf(Sub(t2, r).value) > PhandleOf(Sub(bases[i], b).value)
    {
      MaxTreesAbove(bases, i);
      MaxTreeAbove(bases[i], b);
    }
    forall path, prop, p | Listed(t, f, st, path, prop, p)
      ensures RefAt(t2, path, prop, p) == Some(Add32(RefAt(t, path, prop, p).value, delta))
    {
      RefMoves(t, t1, t2, f, st, delta, path, prop, p);
    }
  }
}
