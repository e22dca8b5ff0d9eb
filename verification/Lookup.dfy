/** Finding nodes and properties: the read-only searches of libfdt and what they find in an encoded forest. */
module Lookup {
  import opened Bytes
  import opened Structure
  import opened Walk

  /** The name of an accepted node. */
  function NameAt(s: seq<u8>, off: nat): seq<u8>
    requires NextTag(s, off).tag == FDT_BEGIN_NODE
  {
    s[off + 4..ScanNul(s, off + 4)]
  }

  /** fdt_nodename_eq_: a name without unit address also matches a node that has one. */
  predicate NameEq(p: seq<u8>, name: seq<u8>) {
    |name| <= |p| && p[..|name|] == name && (|p| == |name| || (AT_SIGN !in name && p[|name|] == AT_SIGN))
  }

  predicate NodeNamed(s: seq<u8>, off: int, name: seq<u8>) {
    NodeStart(s, off) >= 0 && NameEq(NameAt(s, off), name)
  }

  lemma {:induction false} NodeNamedAt(s: seq<u8>, off: nat, t: Token, name: seq<u8>)
    requires TokAt(s, off, t) && t.Begin?
    ensures NodeStart(s, off) == off + TokSize(t) && NameAt(s, off) == t.name
    ensures NodeNamed(s, off, name) <==> NameEq(t.name, name)
  {
    hide NextTag, Be32;
    NextTagAt(s, off, t);
    NameScan(s, off, t.name);
    AlignedMod(off);
  }

  /** How far a walk can still go. */
  function Left(s: seq<u8>, off: int): nat {
    if off < 0 then 0 else if off > |s| then 1 else |s| - off + 1
  }

  // ---------- Children ----------

  /** The stop of a walk that fdt_subnode_offset_namelen returns, or its error. */
  function Pick(s: seq<u8>, vs: seq<Visit>, last: Visit, name: seq<u8>): int {
    if vs == [] then (if last.depth < 0 then NOTFOUND else last.off)
    else if vs[0].depth == 1 && NodeNamed(s, vs[0].off, name) then vs[0].off
    else Pick(s, vs[1..], last, name)
  }

  function SubnodeFrom(s: seq<u8>, off: int, depth: int, name: seq<u8>): int {
    if depth < 0 then NOTFOUND
    else if off < 0 then off
    else if depth == 1 && NodeNamed(s, off, name) then off
    else
      var n := NodeStart(s, off);
      if n < 0 then n else Pick(s, Visits(s, n, depth, true), LastHop(s, n, depth, true), name)
  }

  /** fdt_subnode_offset_namelen. */
  function SubnodeOffset(s: seq<u8>, parent: int, name: seq<u8>): int {
    SubnodeFrom(s, parent, 0, name)
  }

  lemma {:induction false} SubnodeStep(s: seq<u8>, off: int, depth: int, name: seq<u8>)
    requires 0 <= off && 0 <= depth && !(depth == 1 && NodeNamed(s, off, name))
    ensures var v := NextNode(s, off, depth, true);
      SubnodeFrom(s, off, depth, name) == SubnodeFrom(s, v.off, v.depth, name)
      && (v.off >= 0 ==> v.off > off) && Left(s, v.off) < Left(s, off)
  {
    hide NextTag, Aligned;
    var n := NodeStart(s, off);
    if n >= 0 {
      var v := Hop(s, n, depth, true);
      if v.off >= 0 && v.depth >= 0 {
        AlignedMod(v.off);
        NextTagForm(s, v.off);
        var m := NodeStart(s, v.off);
        assert Visits(s, n, depth, true)[1..] == Visits(s, m, v.depth, true);
      }
    }
  }

  /** A node of this name is found by `name`: it is that name, or that name with a unit address where it has none. */
  predicate Called(p: seq<u8>, name: seq<u8>) {
    p == name || (AT_SIGN !in name && name + [AT_SIGN] <= p)
  }

  lemma {:induction false} CalledIs(p: seq<u8>, name: seq<u8>)
    ensures NameEq(p, name) <==> Called(p, name)
  {
    if NameEq(p, name) && p != name { assert p[..|name| + 1] == name + [AT_SIGN]; }
  }

  /** fdt_nodename_eq_: the bytes compared one by one, then the byte behind them looked at. */
  method NodenameEq(s: seq<u8>, offset: int, name: seq<u8>) returns (r: bool)
    ensures r <==> NodeStart(s, offset) >= 0 && Called(NameAt(s, offset), name)
  {
    hide NextTag;
    if NodeStart(s, offset) < 0 { return false; }
    var p := NameAt(s, offset);
    CalledIs(p, name);
    if |p| < |name| { return false; }
    var i := 0;
    while i < |name|
      invariant 0 <= i <= |name| && p[..i] == name[..i]
    {
      if p[i] != name[i] { return false; }
      i := i + 1;
    }
    if |p| == |name| { return true; }
    i := 0;
    while i < |name|
      invariant 0 <= i <= |name| && AT_SIGN !in name[..i]
    {
      if name[i] == AT_SIGN { return false; }
      i := i + 1;
    }
    return p[|name|] == AT_SIGN;
  }

  method SubnodeLoop(s: seq<u8>, parent: int, name: seq<u8>) returns (r: int)
    ensures r == SubnodeOffset(s, parent, name)
  {
    hide NextTag, Pick, Visits, LastHop, NodeStart, Called, NameEq;
    var offset, depth := parent, 0;
    while offset >= 0 && depth >= 0
      invariant SubnodeFrom(s, offset, depth, name) == SubnodeOffset(s, parent, name)
      decreases Left(s, offset)
    {
      var found := false;
      if depth == 1 {
        found := NodenameEq(s, offset, name);
        if NodeStart(s, offset) >= 0 { CalledIs(NameAt(s, offset), name); }
      }
      if found { return offset; }
      SubnodeStep(s, offset, depth, name);
      var v := NextNodeLoop(s, offset, depth, true);
      offset, depth := v.off, v.depth;
    }
    if depth < 0 { return NOTFOUND; }
    return offset;
  }

  /** The first child in a sibling list that matches. */
  ghost function FindChild(f: Forest, off: int, name: seq<u8>): Option<int>
    requires Ok(f)
  {
    match f
    case Empty => None
    case Node(_, _, _, rest) => if NameEq(f.name, name) then Some(off) else FindChild(rest, off + NodeSize(f), name)
    case _ => FindChild(f.rest, off + TokSize(Head(f)), name)
  }

  ghost predicate Deeper(vs: seq<Visit>, d: int) {
    forall i :: 0 <= i < |vs| ==> vs[i].depth > d
  }

  lemma {:induction false} PreorderDeep(f: Forest, off: int, d: int)
    requires Ok(f)
    ensures Deeper(Preorder(f, off, d), d - 1)
    decreases f
  {
    hide TokWords;
    match f {
      case Empty =>
      case Node(_, _, kids, rest) =>
        PreorderDeep(kids, off + TokSize(Head(f)), d + 1);
        PreorderDeep(rest, off + NodeSize(f), d);
      case Prop(_, _, _, rest) => PreorderDeep(rest, off + TokSize(Head(f)), d);
      case Nop(rest) => PreorderDeep(rest, off + TokSize(Head(f)), d);
    }
  }

  lemma {:induction false} PickDeep(s: seq<u8>, a: seq<Visit>, b: seq<Visit>, last: Visit, name: seq<u8>)
    requires Deeper(a, 1)
    ensures Pick(s, a + b, last, name) == Pick(s, b, last, name)
  {
    if a == [] {
      assert a + b == b;
    } else {
      assert (a + b)[1..] == a[1..] + b;
      PickDeep(s, a[1..], b, last, name);
    }
  }

  lemma {:induction false} PickNode(s: seq<u8>, off: int, x: seq<Visit>, y: seq<Visit>, b: seq<Visit>, last: Visit,
                                    name: seq<u8>)
    requires Deeper(x, 1)
    ensures Pick(s, [Visit(off, 1)] + (x + y) + b, last, name) ==
      if NodeNamed(s, off, name) then off else Pick(s, y + b, last, name)
  {
    hide NodeNamed;
    assert (([Visit(off, 1)] + (x + y)) + b)[1..] == x + (y + b);
    PickDeep(s, x, y + b, last, name);
  }

  lemma {:induction false} PickForest(s: seq<u8>, off: nat, f: Forest, b: seq<Visit>, last: Visit, name: seq<u8>)
    requires At(s, off, f)
    ensures Pick(s, Preorder(f, off, 1) + b, last, name) ==
            match FindChild(f, off, name) case Some(o) => o case None => Pick(s, b, last, name)
    decreases f
  {
    hide TokAt, TokWords, At, NodeNamed, Ok, Words, Pick, NameEq, TokOk;
    AtIff(s, off, f);
    match f {
      case Empty => assert Preorder(f, off, 1) + b == b;
      case Node(_, _, kids, rest) =>
        var i, k := off + TokSize(Head(f)), off + NodeSize(f);
        var x, y := Preorder(kids, i, 2), Preorder(rest, k, 1);
        NodeNamedAt(s, off, Head(f), name);
        PreorderDeep(kids, i, 2);
        PickNode(s, off, x, y, b, last, name);
        PickForest(s, k, rest, b, last, name);
      case Prop(_, _, _, rest) => PickForest(s, off + TokSize(Head(f)), rest, b, last, name);
      case Nop(rest) => PickForest(s, off + TokSize(Head(f)), rest, b, last, name);
    }
  }

  /** fdt_subnode_offset finds the first matching child, and NOTFOUND exactly when no child matches. */
  lemma {:induction false} SubnodeFinds(s: seq<u8>, off: nat, f: Forest, name: seq<u8>)
    requires At(s, off, f) && f.Node?
    ensures SubnodeOffset(s, off, name) ==
            match FindChild(f.kids, off + TokSize(Head(f)), name) case Some(o) => o case None => NOTFOUND
  {
    hide NextTag, TokAt, TokWords, Visits, LastHop, At, Ok, Words, NodeStart;
    AtIff(s, off, f);
    VisitsNode(s, off, f);
    var i := off + TokSize(Head(f));
    PickForest(s, i, f.kids, [], Visit(off + NodeSize(f), -1), name);
    assert Preorder(f.kids, i, 1) + [] == Preorder(f.kids, i, 1);
  }

  // ---------- The child found, by the children's names ----------

  /** The names of the nodes of a sibling list. */
  ghost function ChildNames(f: Forest): seq<seq<u8>> {
    match f
    case Empty => []
    case Node(name, _, _, rest) => [name] + ChildNames(rest)
    case _ => ChildNames(f.rest)
  }

  /** The `k`-th node of a sibling list, the first being number 0. */
  ghost function NthNode(f: Forest, k: nat): (x: Option<Forest>)
    ensures x.Some? ==> x.value.Node? && x.value.kids < f
  {
    match f
    case Empty => None
    case Node(_, _, _, rest) => if k == 0 then Some(f) else NthNode(rest, k - 1)
    case _ => NthNode(f.rest, k)
  }

  /** The offset of the `k`-th node of a sibling list at `off`. */
  ghost function ChildOffset(f: Forest, off: int, k: nat): int
    requires Ok(f)
  {
    match f
    case Empty => off
    case Node(_, _, _, rest) => if k == 0 then off else ChildOffset(rest, off + NodeSize(f), k - 1)
    case _ => ChildOffset(f.rest, off + TokSize(Head(f)), k)
  }

  /** The `k`-th name is the first by which a node called `name` is found. */
  ghost predicate FirstCalled(names: seq<seq<u8>>, name: seq<u8>, k: nat) {
    k < |names| && Called(names[k], name) && forall i :: 0 <= i < k ==> !Called(names[i], name)
  }

  lemma {:induction false} FirstCalledNext(x: seq<u8>, names: seq<seq<u8>>, name: seq<u8>, k: nat)
    ensures FirstCalled([x] + names, name, k) <==>
      if k == 0 then Called(x, name) else !Called(x, name) && FirstCalled(names, name, k - 1)
  {
    hide Called;
    var all := [x] + names;
    assert all[0] == x;
    if k > 0 {
      assert k < |all| ==> all[k] == names[k - 1];
      if !Called(x, name) && FirstCalled(names, name, k - 1) {
        forall i | 0 <= i < k ensures !Called(all[i], name) { assert i > 0 ==> all[i] == names[i - 1]; }
      }
      if FirstCalled(all, name, k) {
        forall i | 0 <= i < k - 1 ensures !Called(names[i], name) { assert names[i] == all[i + 1]; }
      }
    }
  }

  lemma {:induction false} ChildBehind(f: Forest, off: int, k: nat)
    requires Ok(f) && k < |ChildNames(f)|
    ensures ChildOffset(f, off, k) >= off && (f.Node? && k > 0 ==> ChildOffset(f, off, k) > off)
    decreases f
  {
    hide TokWords;
    match f {
      case Node(_, _, _, rest) => if k > 0 { ChildBehind(rest, off + NodeSize(f), k - 1); }
      case Prop(_, _, _, rest) => ChildBehind(rest, off + TokSize(Head(f)), k);
      case Nop(rest) => ChildBehind(rest, off + TokSize(Head(f)), k);
      case Empty =>
    }
  }

  lemma {:induction false} FindChildNames(f: Forest, off: int, name: seq<u8>, k: nat)
    requires Ok(f) && k < |ChildNames(f)|
    ensures FindChild(f, off, name) == Some(ChildOffset(f, off, k)) <==> FirstCalled(ChildNames(f), name, k)
    decreases f
  {
    hide TokWords, NameEq, Called, FirstCalled;
    match f {
      case Node(x, _, _, rest) =>
        CalledIs(x, name);
        FirstCalledNext(x, ChildNames(rest), name, k);
        ChildBehind(f, off, k);
        if k > 0 { FindChildNames(rest, off + NodeSize(f), name, k - 1); }
        FindBehind(rest, off + NodeSize(f), name);
      case Prop(_, _, _, rest) => FindChildNames(rest, off + TokSize(Head(f)), name, k);
      case Nop(rest) => FindChildNames(rest, off + TokSize(Head(f)), name, k);
      case Empty =>
    }
  }

  ghost predicate NoneCalled(names: seq<seq<u8>>, name: seq<u8>) {
    forall k :: 0 <= k < |names| ==> !Called(names[k], name)
  }

  lemma {:induction false} NoNames(name: seq<u8>)
    ensures NoneCalled([], name) && forall k: nat :: !FirstCalled([], name, k)
  {
  }

  lemma {:induction false} AllNames(x: seq<u8>, names: seq<seq<u8>>, name: seq<u8>)
    ensures NoneCalled([x] + names, name) <==> !Called(x, name) && NoneCalled(names, name)
  {
    hide Called;
    var all := [x] + names;
    assert all[0] == x && forall k :: 0 <= k < |names| ==> all[k + 1] == names[k];
  }

  lemma {:induction false} FindBehind(f: Forest, off: int, name: seq<u8>)
    requires Ok(f)
    ensures FindChild(f, off, name).Some? ==> FindChild(f, off, name).value >= off
    ensures FindChild(f, off, name).None? <==> NoneCalled(ChildNames(f), name)
    decreases f
  {
    hide TokWords, NameEq, Called, NoneCalled;
    match f {
      case Node(x, _, _, rest) =>
        CalledIs(x, name);
        FindBehind(rest, off + NodeSize(f), name);
        AllNames(x, ChildNames(rest), name);
      case Prop(_, _, _, rest) => FindBehind(rest, off + TokSize(Head(f)), name);
      case Nop(rest) => FindBehind(rest, off + TokSize(Head(f)), name);
      case Empty => assert NoneCalled([], name) by { NoNames(name); }
    }
  }

  /**
   fdt_subnode_offset by the names of the children: the `k`-th is found exactly when it is called by the name and no
   earlier one is, and NOTFOUND is the answer exactly when none is.
   */
  lemma {:induction false} SubnodeByName(s: seq<u8>, off: nat, f: Forest, name: seq<u8>)
    requires At(s, off, f) && f.Node?
    ensures Ok(f.kids)
    ensures forall k :: 0 <= k < |ChildNames(f.kids)| ==>
      (SubnodeOffset(s, off, name) == ChildOffset(f.kids, off + TokSize(Head(f)), k) <==>
         FirstCalled(ChildNames(f.kids), name, k))
    ensures SubnodeOffset(s, off, name) == NOTFOUND <==> NoneCalled(ChildNames(f.kids), name)
  {
    hide At, TokAt, TokWords, Words, SubnodeOffset, FindChild, ChildNames, ChildOffset, Called;
    AtIff(s, off, f);
    SubnodeFinds(s, off, f, name);
    var i, r := off + TokSize(Head(f)), FindChild(f.kids, off + TokSize(Head(f)), name);
    FindBehind(f.kids, i, name);
    forall k | 0 <= k < |ChildNames(f.kids)|
      ensures SubnodeOffset(s, off, name) == ChildOffset(f.kids, i, k) <==> FirstCalled(ChildNames(f.kids), name, k)
    {
      FindChildNames(f.kids, i, name, k);
      ChildBehind(f.kids, i, k);
    }
  }

  /**
   A child `name@unit` is found by `name` exactly when that has no unit address and no earlier child has that name or
   begins with it and an '@'. A name with a unit address finds only a child of exactly that name.
   */
  lemma {:induction false} SubnodeUnit(s: seq<u8>, off: nat, f: Forest, name: seq<u8>, k: nat)
    requires At(s, off, f) && f.Node? && k < |ChildNames(f.kids)| && Ok(f.kids)
    ensures var names, r := ChildNames(f.kids), SubnodeOffset(s, off, name);
      var found := r == ChildOffset(f.kids, off + TokSize(Head(f)), k);
      && (forall unit :: names[k] == name + [AT_SIGN] + unit ==>
            (found <==> AT_SIGN !in name && forall i :: 0 <= i < k ==>
               names[i] != name && !(name + [AT_SIGN] <= names[i])))
      && (AT_SIGN in name ==> (found <==> names[k] == name && name !in names[..k]))
  {
    hide At, TokAt, TokWords, Words, SubnodeOffset, ChildNames, ChildOffset, Ok;
    SubnodeByName(s, off, f, name);
    var names := ChildNames(f.kids);
    assert FirstCalled(names, name, k) <==>
      Called(names[k], name) && forall i :: 0 <= i < k ==> !Called(names[i], name);
    forall unit | names[k] == name + [AT_SIGN] + unit ensures AT_SIGN !in name ==> Called(names[k], name) {
      assert name + [AT_SIGN] <= names[k];
    }
    assert name !in names[..k] <==> forall i :: 0 <= i < k ==> names[i] != name;
  }

  /** The offset of the first node of a sibling list at `off`. */
  ghost function FirstNode(f: Forest, off: int): int
    requires Ok(f)
  {
    match f
    case Empty => NOTFOUND
    case Node(_, _, _, _) => off
    case _ => FirstNode(f.rest, off + TokSize(Head(f)))
  }

  /** The first stop no deeper than `d`, if it is at depth `d`. */
  function FirstShallow(vs: seq<Visit>, d: int): int {
    if vs == [] then NOTFOUND
    else if vs[0].depth > d then FirstShallow(vs[1..], d)
    else if vs[0].depth < d then NOTFOUND
    else vs[0].off
  }

  /** fdt_first_subnode. */
  function FirstSubnode(s: seq<u8>, off: int): int {
    var v := NextNode(s, off, 0, true);
    if v.off < 0 || v.depth != 1 then NOTFOUND else v.off
  }

  /** fdt_next_subnode. */
  function NextSubnode(s: seq<u8>, off: int): int {
    var n := if off < 0 then 0 else NodeStart(s, off);
    if n < 0 then NOTFOUND else FirstShallow(Visits(s, n, 1, true), 1)
  }

  method NextSubnodeLoop(s: seq<u8>, off: int) returns (r: int)
    ensures r == NextSubnode(s, off)
  {
    hide NextTag, Aligned;
    var v := NextNodeLoop(s, off, 1, true);
    if v.off < 0 || v.depth < 1 { return NOTFOUND; }
    AlignedAdd(0, 0);
    AlignedMod(v.off);
    while v.depth > 1
      invariant 0 <= v.off && 1 <= v.depth && NodeStart(s, v.off) > v.off
      invariant NextSubnode(s, off) ==
                if v.depth == 1 then v.off else FirstShallow(Visits(s, NodeStart(s, v.off), v.depth, true), 1)
      decreases |s| - v.off
    {
      v := NextNodeLoop(s, v.off, v.depth, true);
      if v.off < 0 || v.depth < 1 { return NOTFOUND; }
      AlignedMod(v.off);
    }
    return v.off;
  }

  lemma {:induction false} HopFirst(s: seq<u8>, off: nat, f: Forest, d: int)
    requires At(s, off, f) && d >= -1
    ensures Hop(s, off, d, true) ==
            if FirstNode(f, off) >= 0 then Visit(FirstNode(f, off), d + 1) else Hop(s, off + Size(f), d, true)
    ensures FirstNode(f, off) >= 0 || FirstNode(f, off) == NOTFOUND
    decreases f
  {
    hide NextTag, TokAt, TokWords, At, Hop, Words, Ok;
    AtIff(s, off, f);
    match f {
      case Empty =>
      case Node(_, _, _, _) => HopNode(s, off, Head(f), d, true);
      case Prop(_, _, _, rest) =>
        HopLeaf(s, off, f, d, true);
        HopFirst(s, off + TokSize(Head(f)), rest, d);
      case Nop(rest) =>
        HopLeaf(s, off, f, d, true);
        HopFirst(s, off + TokSize(Head(f)), rest, d);
    }
  }

  /** fdt_first_subnode is the first child, and NOTFOUND exactly when there is none. */
  lemma {:induction false} FirstSubnodeIs(s: seq<u8>, off: nat, f: Forest)
    requires At(s, off, f) && f.Node?
    ensures FirstSubnode(s, off) == FirstNode(f.kids, off + TokSize(Head(f)))
  {
    hide NextTag, TokAt, TokWords, At, Hop, Words, Ok, NodeStart;
    AtIff(s, off, f);
    VisitsNode(s, off, f);
    var i := off + TokSize(Head(f));
    HopFirst(s, i, f.kids, 0);
    HopEnd(s, i + Size(f.kids), 0, true);
  }

  lemma {:induction false} ShallowDeep(a: seq<Visit>, b: seq<Visit>, d: int)
    requires Deeper(a, d)
    ensures FirstShallow(a + b, d) == FirstShallow(b, d)
  {
    if a == [] {
      assert a + b == b;
    } else {
      assert (a + b)[1..] == a[1..] + b;
      ShallowDeep(a[1..], b, d);
    }
  }

  lemma {:induction false} ShallowForest(f: Forest, off: nat, d: int)
    requires Ok(f)
    ensures FirstShallow(Preorder(f, off, d), d) == FirstNode(f, off)
    decreases f
  {
    hide TokWords;
    match f {
      case Empty =>
      case Node(_, _, _, _) =>
      case Prop(_, _, _, rest) => ShallowForest(rest, off + TokSize(Head(f)), d);
      case Nop(rest) => ShallowForest(rest, off + TokSize(Head(f)), d);
    }
  }

  /** fdt_next_subnode is the next sibling node, and NOTFOUND exactly when there is none. */
  lemma {:induction false} NextSubnodeIs(s: seq<u8>, off: nat, f: Forest)
    requires At(s, off, f) && f.Node? && TokAt(s, off + Size(f), End)
    ensures NextSubnode(s, off) == FirstNode(f.rest, off + NodeSize(f))
  {
    hide NextTag, TokAt, TokWords, At, Hop, Words, Ok, NodeStart, Visits, LastHop;
    AtIff(s, off, f);
    VisitsNode(s, off, f);
    var i, k := off + TokSize(Head(f)), off + NodeSize(f);
    VisitsForest(s, i, f.kids, 1, true);
    HopEnd(s, k - 4, 1, true);
    VisitsForest(s, k, f.rest, 0, true);
    HopEnd(s, off + Size(f), 0, true);
    PreorderDeep(f.kids, i, 2);
    assert Preorder(f.rest, k, 1) + [] == Preorder(f.rest, k, 1);
    ShallowDeep(Preorder(f.kids, i, 2), Preorder(f.rest, k, 1), 1);
    ShallowForest(f.rest, k, 1);
  }

  // ---------- The end of a node ----------

  function NodeEndFrom(s: seq<u8>, off: int, depth: int): int {
    if off < 0 || depth < 0 then off
    else
      var n := NodeStart(s, off);
      if n < 0 then n else LastHop(s, n, depth, true).off
  }

  /** fdt_node_end_offset_. */
  function NodeEnd(s: seq<u8>, off: int): int {
    NodeEndFrom(s, off, 0)
  }

  method NodeEndLoop(s: seq<u8>, off: int) returns (r: int)
    ensures r == NodeEnd(s, off)
  {
    hide NextTag, Aligned;
    var depth := 0;
    r := off;
    while r >= 0 && depth >= 0
      invariant NodeEndFrom(s, r, depth) == NodeEnd(s, off)
      decreases Left(s, r)
    {
      var v := NextNodeLoop(s, r, depth, true);
      if v.off >= 0 && v.depth >= 0 { AlignedMod(v.off); NextTagForm(s, v.off); }
      r, depth := v.off, v.depth;
    }
  }

  /** A depth-counted walk from a BEGIN_NODE ends exactly after its matching END_NODE. */
  lemma {:induction false} NodeEndIs(s: seq<u8>, off: nat, f: Forest)
    requires At(s, off, f) && f.Node?
    ensures NodeEnd(s, off) == off + NodeSize(f)
  {
    hide NextTag, At, LastHop, NodeStart;
    VisitsNode(s, off, f);
  }

  // ---------- Properties ----------

  /** The result for a block on which the source reads a property header past the end of the block. */
  const READS_OUTSIDE: int := -1001

  /** nextprop_: the first property tag at or after `off`, over NOPs. */
  function NextProp(s: seq<u8>, off: nat): (r: int)
    ensures r >= 0 ==> off <= r && NextTag(s, r).tag == FDT_PROP && (Aligned(off) ==> Aligned(r))
    decreases |s| - off
  {
    hide Aligned;
    var t := NextTag(s, off);
    if t.tag == FDT_END then (if t.next >= 0 then BADSTRUCTURE else t.next)
    else if t.tag == FDT_PROP then off
    else if t.tag == FDT_NOP then
      NextTagForm(s, off);
      NextProp(s, t.next)
    else NOTFOUND
  }

  method NextPropLoop(s: seq<u8>, off: nat) returns (r: int)
    ensures r == NextProp(s, off)
  {
    hide NextTag, Aligned;
    var offset := off;
    while true
      invariant 0 <= offset && NextProp(s, offset) == NextProp(s, off)
      decreases |s| - offset
    {
      var tag, next := NextTagScan(s, offset);
      if tag == FDT_END { return if next >= 0 then BADSTRUCTURE else next; }
      if tag == FDT_PROP { return offset; }
      if tag != FDT_NOP { return NOTFOUND; }
      NextTagForm(s, offset);
      offset := next;
    }
  }

  /** fdt_first_property_offset. */
  function FirstPropOffset(s: seq<u8>, node: int): int {
    var n := NodeStart(s, node);
    if n < 0 then n else NextProp(s, n)
  }

  function GetPropFrom(s: seq<u8>, st: seq<u8>, off: int, name: seq<u8>): (r: int)
    decreases Left(s, off)
  {
    if off < 0 then off
    else if NextTag(s, off).tag != FDT_PROP then INTERNAL
    else if off + 12 > |s| then READS_OUTSIDE
    else if Str(st, Be32(s, off + 8)) == Some(name) then off
    else if NextTag(s, off).next == off then DIVERGES
    else GetPropFrom(s, st, NextProp(s, NextTag(s, off).next), name)
  }

  /** fdt_get_property_namelen_: the offset of a node's property of that name, or an error. */
  function GetProp(s: seq<u8>, st: seq<u8>, node: int, name: seq<u8>): int {
    GetPropFrom(s, st, FirstPropOffset(s, node), name)
  }

  method GetPropLoop(s: seq<u8>, st: seq<u8>, node: int, name: seq<u8>) returns (r: int)
    ensures r == GetProp(s, st, node, name)
  {
    hide NextTag, Be32, Str;
    var n := NodeStart(s, node);
    if n < 0 { return n; }
    r := NextPropLoop(s, n);
    while r >= 0
      invariant GetPropFrom(s, st, r, name) == GetProp(s, st, node, name)
      invariant r >= 0 ==> NextTag(s, r).tag == FDT_PROP
      decreases Left(s, r)
    {
      if r + 12 > |s| { return READS_OUTSIDE; }
      if Str(st, Be32(s, r + 8)) == Some(name) { return r; }
      var tag, next := NextTagScan(s, r);
      if next == r { return DIVERGES; }
      r := NextPropLoop(s, next);
    }
  }

  /** The first property of the leading run of a sibling list, and the first of a given name. */
  ghost function FirstProp(f: Forest, off: int): int
    requires Ok(f)
  {
    match f
    case Prop(_, _, _, _) => off
    case Nop(rest) => FirstProp(rest, off + TokSize(NopTok))
    case _ => NOTFOUND
  }

  ghost function FindProp(f: Forest, off: int, st: seq<u8>, name: seq<u8>): Option<int>
    requires Ok(f)
  {
    match f
    case Prop(nameoff, _, _, rest) =>
      if Str(st, nameoff) == Some(name) then Some(off) else FindProp(rest, off + TokSize(Head(f)), st, name)
    case Nop(rest) => FindProp(rest, off + TokSize(NopTok), st, name)
    case _ => None
  }

  lemma {:induction false} NextPropIs(s: seq<u8>, off: nat, f: Forest)
    requires At(s, off, f) && TokAt(s, off + Size(f), End)
    ensures NextProp(s, off) == FirstProp(f, off)
    ensures FirstProp(f, off) >= 0 || FirstProp(f, off) == NOTFOUND
    decreases f
  {
    hide NextTag, TokAt, TokWords, At, Words, Ok;
    AtIff(s, off, f);
    match f {
      case Empty => NextTagAt(s, off, End);
      case Nop(rest) =>
        NextTagAt(s, off, NopTok);
        NextPropIs(s, off + TokSize(NopTok), rest);
      case Prop(_, _, _, _) => NextTagAt(s, off, Head(f));
      case Node(_, _, _, _) => NextTagAt(s, off, Head(f));
    }
  }

  lemma {:induction false} GetPropFromIs(s: seq<u8>, off: nat, f: Forest, st: seq<u8>, name: seq<u8>)
    requires At(s, off, f) && TokAt(s, off + Size(f), End)
    ensures GetPropFrom(s, st, NextProp(s, off), name) ==
            match FindProp(f, off, st, name) case Some(o) => o case None => NOTFOUND
    decreases f
  {
    hide NextTag, TokAt, TokWords, At, Words, Ok, Be32, Str;
    AtIff(s, off, f);
    NextPropIs(s, off, f);
    match f {
      case Empty =>
      case Node(_, _, _, _) =>
      case Nop(rest) =>
        NextPropIs(s, off + TokSize(NopTok), rest);
        GetPropFromIs(s, off + TokSize(NopTok), rest, st, name);
      case Prop(nameoff, _, _, rest) =>
        NextTagAt(s, off, Head(f));
        PropWords(s, off, Head(f));
        GetPropFromIs(s, off + TokSize(Head(f)), rest, st, name);
    }
  }

  /** The search over a node's properties finds the first of that name, and NOTFOUND exactly when there is none. */
  lemma {:induction false} GetPropIs(s: seq<u8>, off: nat, f: Forest, st: seq<u8>, name: seq<u8>)
    requires At(s, off, f) && f.Node?
    ensures GetProp(s, st, off, name) ==
            match FindProp(f.kids, off + TokSize(Head(f)), st, name) case Some(o) => o case None => NOTFOUND
  {
    hide NextTag, TokAt, TokWords, At, Words, Ok, NodeStart, GetPropFrom;
    AtIff(s, off, f);
    VisitsNode(s, off, f);
    GetPropFromIs(s, off + TokSize(Head(f)), f.kids, st, name);
  }
}
