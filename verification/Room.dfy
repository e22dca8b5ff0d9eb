/** The room that an overlay takes, edit by edit: what the peak of a merge is. */
module Room {
  import opened Bytes
  import opened Structure
  import opened Tree
  import opened Edit
  import Rw
  import opened Overlay
  import Target
  import Apply

  // ---------- The edits ----------

  /** The bytes that setting a property of `len` bytes adds: the value grows, or property and new name are added. */
  ghost function SetSize(m: map<seq<u8>, seq<u8>>, name: seq<u8>, len: nat, st: seq<u8>): int {
    if name in m then TagAlign(len) - TagAlign(|m[name]|)
    else 12 + TagAlign(len) + if Rw.InTable(st, name) then 0 else |name| + 1
  }

  /** The strings table after setting a property. */
  ghost function SetNames(m: map<seq<u8>, seq<u8>>, name: seq<u8>, st: seq<u8>): seq<u8> {
    if name in m || Rw.InTable(st, name) then st else st + name + [0]
  }

  /** What edits add to a blob, one after the other, and the strings table after them. */
  datatype Edits = Edits(adds: seq<int>, st: seq<u8>)

  ghost function PropEdits(m: map<seq<u8>, seq<u8>>, f: Forest, sto: seq<u8>, st: seq<u8>): Edits
    decreases f
  {
    match f
    case Prop(nameoff, val, _, rest) =>
      (match Str(sto, nameoff)
       case None => PropEdits(m, rest, sto, st)
       case Some(n) => Followed([SetSize(m, n, |val|, st)], PropEdits(m[n := val], rest, sto, SetNames(m, n, st))))
    case Nop(rest) => PropEdits(m, rest, sto, st)
    case _ => Edits([], st)
  }

  ghost function Followed(adds: seq<int>, e: Edits): Edits {
    Edits(adds + e.adds, e.st)
  }

  ghost function KidEdits(ts: seq<Tree>, f: Forest, sto: seq<u8>, st: seq<u8>): Edits
    decreases f, 0
  {
    match f
    case Empty => Edits([], st)
    case Node(name, _, kids, rest) =>
      var i := ChildIndex(ts, name);
      var e := if 0 <= i < |ts| then NodeEdits(ts[i], kids, sto, st)
        else Followed([8 + TagAlign(|name| + 1)], NodeEdits(Tree(name, map[], []), kids, sto, st));
      Followed(e.adds, KidEdits(MergeChild(ts, name, kids, sto), rest, sto, e.st))
    case _ => KidEdits(ts, f.rest, sto, st)
  }

  /** An overlay node with contents `kids` merged into `t`: its properties set, then each child added or found. */
  ghost function NodeEdits(t: Tree, kids: Forest, sto: seq<u8>, st: seq<u8>): Edits
    decreases kids, 1
  {
    var e := PropEdits(t.props, kids, sto, st);
    Followed(e.adds, KidEdits(t.children, kids, sto, e.st))
  }

  // ---------- Partial sums ----------

  function Sum(adds: seq<int>): int {
    if adds == [] then 0 else adds[0] + Sum(adds[1..])
  }

  lemma {:induction false} SumConcat(a: seq<int>, b: seq<int>)
    ensures Sum(a + b) == Sum(a) + Sum(b)
    decreases |a|
  {
    if a == [] {
      assert a + b == b;
    } else {
      assert (a + b)[1..] == a[1..] + b;
      SumConcat(a[1..], b);
    }
  }

  /** The peak is the largest of the partial sums, the empty one included, and the end is the whole sum. */
  ghost predicate Measures(u: Use, e: Edits) {
    && u.end == Sum(e.adds) && u.st == e.st
    && (exists k :: 0 <= k <= |e.adds| && Sum(e.adds[..k]) == u.peak)
    && forall k :: 0 <= k <= |e.adds| ==> Sum(e.adds[..k]) <= u.peak
  }

  lemma {:induction false} MeasuresNone(st: seq<u8>)
    ensures Measures(Idle(st), Edits([], st))
  {
    var a: seq<int> := [];
    assert a[..0] == a && Sum(a[..0]) == 0;
  }

  lemma {:induction false} MeasuresOne(g: int, st: seq<u8>)
    ensures Measures(Once(g, st), Edits([g], st))
  {
    var a := [g];
    assert a[..0] == [] && a[..1] == a && a[1..] == [];
    assert Sum(a) == g && Sum(a[..0]) == 0 && Sum(a[..1]) == g;
  }

  lemma {:induction false} SplitSum(a: seq<int>, b: seq<int>, k: nat)
    requires k <= |a| + |b|
    ensures Sum((a + b)[..k]) == if k <= |a| then Sum(a[..k]) else Sum(a) + Sum(b[..k - |a|])
  {
    if k <= |a| {
      assert (a + b)[..k] == a[..k];
    } else {
      assert (a + b)[..k] == a + b[..k - |a|];
      SumConcat(a, b[..k - |a|]);
    }
  }

  lemma {:induction false} MeasuresThen(u: Use, d: Edits, v: Use, e: Edits)
    requires Measures(u, d) && Measures(v, e)
    ensures Measures(Then(u, v), Followed(d.adds, e))
  {
    hide Sum;
    var a, b, all, w := d.adds, e.adds, d.adds + e.adds, Then(u, v);
    SumConcat(a, b);
    var i :| 0 <= i <= |a| && Sum(a[..i]) == u.peak;
    var j :| 0 <= j <= |b| && Sum(b[..j]) == v.peak;
    SplitSum(a, b, i);
    LaterSum(a, b, j);
    forall k | 0 <= k <= |all| ensures Sum(all[..k]) <= w.peak {
      SplitSum(a, b, k);
      if k == |a| { assert a[..k] == a; }
    }
    var k := if w.peak == u.peak then i else |a| + j;
    assert Sum(all[..k]) == w.peak;
  }

  lemma {:induction false} LaterSum(a: seq<int>, b: seq<int>, j: nat)
    requires j <= |b|
    ensures Sum((a + b)[..|a| + j]) == Sum(a) + Sum(b[..j])
  {
    assert (a + b)[..|a| + j] == a + b[..j];
    SumConcat(a, b[..j]);
  }

  // ---------- A merge ----------

  lemma {:induction false} SetMeasures(m: map<seq<u8>, seq<u8>>, name: seq<u8>, len: nat, st: seq<u8>)
    ensures Measures(SetUse(m, name, len, st), Edits([SetSize(m, name, len, st)], SetNames(m, name, st)))
  {
    hide Rw.InTable, Measures;
    assert st + (name + [0]) == st + name + [0];
    MeasuresOne(SetSize(m, name, len, st), SetNames(m, name, st));
  }

  lemma {:induction false} PropsMeasure(m: map<seq<u8>, seq<u8>>, f: Forest, sto: seq<u8>, st: seq<u8>)
    ensures Measures(PropsUse(m, f, sto, st), PropEdits(m, f, sto, st))
    decreases f
  {
    hide Measures, SetUse, SetSize, SetNames, Str, Then, Followed;
    match f {
      case Nop(rest) => PropsMeasure(m, rest, sto, st);
      case Empty => MeasuresNone(st);
      case Node(_, _, _, _) => MeasuresNone(st);
      case Prop(nameoff, val, _, rest) =>
        if Str(sto, nameoff).None? {
          PropsMeasure(m, rest, sto, st);
        } else {
          var n := Str(sto, nameoff).value;
          var u, d := SetUse(m, n, |val|, st), Edits([SetSize(m, n, |val|, st)], SetNames(m, n, st));
          SetMeasures(m, n, |val|, st);
          MeasuredStrings(u, d);
          PropsMeasure(m[n := val], rest, sto, u.st);
          MeasuresThen(u, d, PropsUse(m[n := val], rest, sto, u.st), PropEdits(m[n := val], rest, sto, u.st));
        }
    }
  }

  lemma {:induction false} MeasuredStrings(u: Use, e: Edits)
    requires Measures(u, e)
    ensures u.st == e.st
  {
  }

  lemma {:induction false} KidsMeasure(ts: seq<Tree>, f: Forest, sto: seq<u8>, st: seq<u8>)
    ensures Measures(KidsUse(ts, f, sto, st), KidEdits(ts, f, sto, st))
    decreases f, 0
  {
    hide Measures, ChildIndex, MergeChild, Then, NodeUse, NodeEdits;
    match f {
      case Empty => MeasuresNone(st);
      case Prop(_, _, _, rest) => KidsMeasure(ts, rest, sto, st);
      case Nop(rest) => KidsMeasure(ts, rest, sto, st);
      case Node(name, _, kids, rest) =>
        var i, us := ChildIndex(ts, name), MergeChild(ts, name, kids, sto);
        var t := if 0 <= i < |ts| then ts[i] else Tree(name, map[], []);
        var u, d := NodeUse(t, kids, sto, st), NodeEdits(t, kids, sto, st);
        NodeMeasures(t, kids, sto, st);
        if !(0 <= i < |ts|) {
          var g := 8 + TagAlign(|name| + 1);
          MeasuresOne(g, st);
          MeasuresThen(Once(g, st), Edits([g], st), u, d);
          u, d := Then(Once(g, st), u), Followed([g], d);
        }
        MeasuredStrings(u, d);
        KidsMeasure(us, rest, sto, u.st);
        MeasuresThen(u, d, KidsUse(us, rest, sto, u.st), KidEdits(us, rest, sto, u.st));
    }
  }

  /**
   The peak of a merge is the largest size on the way through its edits in order, relative to the start: each property
   set or added with its name, each new node added. It is reached, and nothing on the way is larger.
   */
  lemma {:induction false} NodeMeasures(t: Tree, kids: Forest, sto: seq<u8>, st: seq<u8>)
    ensures Measures(NodeUse(t, kids, sto, st), NodeEdits(t, kids, sto, st))
    decreases kids, 1
  {
    hide Measures, PropsUse, KidsUse, PropEdits, KidEdits, Then;
    var u, d := PropsUse(t.props, kids, sto, st), PropEdits(t.props, kids, sto, st);
    PropsMeasure(t.props, kids, sto, st);
    MeasuredStrings(u, d);
    KidsMeasure(t.children, kids, sto, u.st);
    MeasuresThen(u, d, KidsUse(t.children, kids, sto, u.st), KidEdits(t.children, kids, sto, u.st));
  }

  // ---------- All fragments ----------

  /** The edits of all fragments up to the first that goes nowhere, each into what the ones before it have left. */
  ghost function AllEdits(ts: seq<Tree>, f: Forest, sto: seq<u8>, st: seq<u8>): Edits
    decreases f
  {
    match f
    case Empty => Edits([], st)
    case Node(_, _, kids, rest) =>
      var x := ChildFocus(kids, Apply.OVERLAY);
      if !x.Node? then AllEdits(ts, rest, sto, st)
      else (match Apply.Destination(ts, Props(kids, sto))
            case Failed(_) => Edits([], st)
            case Done(p) =>
              var t := Target.NodeIn(ts, p).value;
              var e := NodeEdits(t, x.kids, sto, st);
              Followed(e.adds, AllEdits(Target.PutIn(ts, p, Merged(t, x.kids, sto)), rest, sto, e.st)))
    case _ => AllEdits(ts, f.rest, sto, st)
  }

  /** The peak of a whole overlay is the largest size on the way through the edits of all its fragments. */
  lemma {:induction false} AllMeasure(ts: seq<Tree>, f: Forest, sto: seq<u8>, st: seq<u8>)
    ensures Measures(Apply.AllUse(ts, f, sto, st), AllEdits(ts, f, sto, st))
    decreases f
  {
    hide Measures, NodeUse, NodeEdits, Then, ChildFocus, Apply.Destination, Apply.MergeAll, Target.PutIn,
      Target.NodeIn, Merged, Props;
    match f {
      case Empty => MeasuresNone(st);
      case Prop(_, _, _, rest) => AllMeasure(ts, rest, sto, st);
      case Nop(rest) => AllMeasure(ts, rest, sto, st);
      case Node(_, _, kids, rest) =>
        var x := ChildFocus(kids, Apply.OVERLAY);
        Apply.OneFragment(ts, f, sto);
        if !x.Node? {
          AllMeasure(ts, rest, sto, st);
          IdleFirst(Apply.AllUse(ts, rest, sto, st), st);
        } else {
          match Apply.Destination(ts, Props(kids, sto)) {
            case Failed(_) => MeasuresNone(st);
            case Done(p) =>
              var t := Target.NodeIn(ts, p).value;
              var u, d, us := NodeUse(t, x.kids, sto, st), NodeEdits(t, x.kids, sto, st),
                Target.PutIn(ts, p, Merged(t, x.kids, sto));
              NodeMeasures(t, x.kids, sto, st);
              MeasuredStrings(u, d);
              AllMeasure(us, rest, sto, u.st);
              MeasuresThen(u, d, Apply.AllUse(us, rest, sto, u.st), AllEdits(us, rest, sto, u.st));
          }
        }
    }
  }

  lemma {:induction false} IdleFirst(u: Use, st: seq<u8>)
    ensures Then(Idle(st), u) == u
  {
  }
}
