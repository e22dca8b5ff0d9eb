/** Merging an overlay node into a base tree: overlay_apply_node and the recursive merge it performs. */
module Overlay {
  import opened Bytes
  import opened Structure
  import opened Zipper
  import opened Walk
  import opened Lookup
  import Check
  import opened Tree
  import opened Edit
  import opened Blob
  import opened Rw

  // ---------- The merge ----------

  /** The properties of an overlay node written over a map, in order. */
  ghost function MergeProps(m: map<seq<u8>, seq<u8>>, f: Forest, st: seq<u8>): map<seq<u8>, seq<u8>>
    decreases f
  {
    match f
    case Prop(nameoff, val, _, rest) =>
      (match Str(st, nameoff) case Some(n) => MergeProps(m[n := val], rest, st) case None => MergeProps(m, rest, st))
    case Nop(rest) => MergeProps(m, rest, st)
    case _ => m
  }

  /** Contents merged into the first child that matches a name, or into a new first child of that name. */
  ghost function MergeChild(ts: seq<Tree>, name: seq<u8>, kids: Forest, st: seq<u8>): seq<Tree>
    decreases kids, 2
  {
    var i := ChildIndex(ts, name);
    if 0 <= i < |ts| then ts[i := Merged(ts[i], kids, st)] else [Merged(Tree(name, map[], []), kids, st)] + ts
  }

  /** Each child of an overlay node merged in turn. */
  ghost function MergeKids(ts: seq<Tree>, f: Forest, st: seq<u8>): seq<Tree>
    decreases f, 0
  {
    match f
    case Empty => ts
    case Node(name, _, kids, rest) => MergeKids(MergeChild(ts, name, kids, st), rest, st)
    case _ => MergeKids(ts, f.rest, st)
  }

  /** The recursive merge: overlay properties win, matching children merge, other children are added. */
  ghost function Merged(t: Tree, kids: Forest, st: seq<u8>): Tree
    decreases kids, 1
  {
    Tree(t.name, MergeProps(t.props, kids, st), MergeKids(t.children, kids, st))
  }

  // ---------- The room that a merge takes ----------

  /**
   What a sequence of edits does to the size of a blob: the most it grows on the way, what it has grown by at the
   end, and the strings then.
   */
  datatype Use = Use(peak: nat, end: int, st: seq<u8>)

  function Idle(st: seq<u8>): Use {
    Use(0, 0, st)
  }

  /** One edit that adds `g` bytes. */
  function Once(g: int, st: seq<u8>): Use {
    Use(if g < 0 then 0 else g, g, st)
  }

  /** One sequence after the other. */
  function Then(a: Use, b: Use): Use {
    Use(if a.end + b.peak < a.peak then a.peak else a.end + b.peak, a.end + b.end, b.st)
  }

  /** A sequence never ends above its peak. */
  predicate Peaked(u: Use) {
    u.end <= u.peak
  }

  lemma {:induction false} ThenThen(a: Use, b: Use, c: Use)
    ensures Then(Then(a, b), c) == Then(a, Then(b, c))
  {
  }

  lemma {:induction false} ThenIdle(a: Use)
    requires Peaked(a)
    ensures Then(a, Idle(a.st)) == a && Then(Idle(a.st), a) == a
  {
  }

  /** The properties of an overlay node set in a node with properties `m`. */
  ghost function PropsUse(m: map<seq<u8>, seq<u8>>, f: Forest, sto: seq<u8>, st: seq<u8>): (u: Use)
    ensures Peaked(u)
    decreases f
  {
    match f
    case Prop(nameoff, val, _, rest) =>
      (match Str(sto, nameoff)
       case None => PropsUse(m, rest, sto, st)
       case Some(n) =>
         var u := SetUse(m, n, |val|, st);
         Then(u, PropsUse(m[n := val], rest, sto, u.st)))
    case Nop(rest) => PropsUse(m, rest, sto, st)
    case _ => Idle(st)
  }

  ghost function SetUse(m: map<seq<u8>, seq<u8>>, name: seq<u8>, len: nat, st: seq<u8>): Use {
    Once(Growth(m, name, len, st), if name in m then st else WithName(st, name))
  }

  /** Its children merged into the children `ts`. */
  ghost function KidsUse(ts: seq<Tree>, f: Forest, sto: seq<u8>, st: seq<u8>): (u: Use)
    ensures Peaked(u)
    decreases f, 0
  {
    match f
    case Empty => Idle(st)
    case Node(name, _, kids, rest) =>
      var u := ChildUse(ts, name, kids, sto, st);
      Then(u, KidsUse(MergeChild(ts, name, kids, sto), rest, sto, u.st))
    case _ => KidsUse(ts, f.rest, sto, st)
  }

  ghost function ChildUse(ts: seq<Tree>, name: seq<u8>, kids: Forest, sto: seq<u8>, st: seq<u8>): (u: Use)
    ensures Peaked(u)
    decreases kids, 2
  {
    var i := ChildIndex(ts, name);
    if 0 <= i < |ts| then NodeUse(ts[i], kids, sto, st)
    else Then(Once(4 + TagAlign(|name| + 1) + 4, st), NodeUse(Tree(name, map[], []), kids, sto, st))
  }

  /** A whole overlay node merged into `t`. */
  ghost function NodeUse(t: Tree, kids: Forest, sto: seq<u8>, st: seq<u8>): (u: Use)
    ensures Peaked(u)
    decreases kids, 1
  {
    var u := PropsUse(t.props, kids, sto, st);
    Then(u, KidsUse(t.children, kids, sto, u.st))
  }

  /** Edits whose use is `use` give NOSPACE exactly when the blob cannot hold their peak. */
  ghost predicate Took(use: Use, err: int, h0: Header, h1: Header, st1: seq<u8>) {
    && err == (if Data(h0) + use.peak > h0.totalsize then NOSPACE else 0)
    && (err == 0 ==> Data(h1) == Data(h0) + use.end && st1 == use.st)
  }

  /** All property names of a list, each with its NUL. */
  ghost function NamesSize(f: Forest, sto: seq<u8>): nat {
    match f
    case Empty => 0
    case Prop(nameoff, _, _, rest) => NameSize(sto, nameoff) + NamesSize(rest, sto)
    case Nop(rest) => NamesSize(rest, sto)
    case Node(_, _, kids, rest) => NamesSize(kids, sto) + NamesSize(rest, sto)
  }

  ghost function NameSize(sto: seq<u8>, nameoff: int): nat {
    match Str(sto, nameoff) case Some(n) => |n| + 1 case None => 0
  }

  /** The properties of the leading run with their names, and all the rest with theirs. */
  ghost function RunRoom(f: Forest, sto: seq<u8>): nat {
    match f
    case Prop(nameoff, val, _, rest) => 12 + TagAlign(|val|) + NameSize(sto, nameoff) + RunRoom(rest, sto)
    case Nop(rest) => RunRoom(rest, sto)
    case _ => 0
  }

  ghost function KidsRoom(f: Forest, sto: seq<u8>): nat {
    match f
    case Empty => 0
    case Node(name, _, kids, rest) =>
      4 + TagAlign(|name| + 1) + 4 + RunRoom(kids, sto) + KidsRoom(kids, sto) + KidsRoom(rest, sto)
    case _ => KidsRoom(f.rest, sto)
  }

  lemma {:induction false} PropsPeak(m: map<seq<u8>, seq<u8>>, f: Forest, sto: seq<u8>, st: seq<u8>)
    ensures PropsUse(m, f, sto, st).peak <= RunRoom(f, sto)
    decreases f
  {
    hide Str, TagAlign, InTable, WithName;
    match f {
      case Prop(nameoff, val, _, rest) =>
        if Str(sto, nameoff).Some? {
          var n := Str(sto, nameoff).value;
          PropsPeak(m[n := val], rest, sto, SetUse(m, n, |val|, st).st);
        } else {
          PropsPeak(m, rest, sto, st);
        }
      case Nop(rest) => PropsPeak(m, rest, sto, st);
      case _ =>
    }
  }

  lemma {:induction false} KidsPeak(ts: seq<Tree>, f: Forest, sto: seq<u8>, st: seq<u8>)
    ensures KidsUse(ts, f, sto, st).peak <= KidsRoom(f, sto)
    decreases f, 0
  {
    hide TagAlign, MergeChild, ChildUse, RunRoom;
    match f {
      case Empty =>
      case Prop(_, _, _, rest) => KidsPeak(ts, rest, sto, st);
      case Nop(rest) => KidsPeak(ts, rest, sto, st);
      case Node(name, _, kids, rest) =>
        ChildPeak(ts, name, kids, sto, st);
        KidsPeak(MergeChild(ts, name, kids, sto), rest, sto, ChildUse(ts, name, kids, sto, st).st);
    }
  }

  lemma {:induction false} ChildPeak(ts: seq<Tree>, name: seq<u8>, kids: Forest, sto: seq<u8>, st: seq<u8>)
    ensures ChildUse(ts, name, kids, sto, st).peak <= 4 + TagAlign(|name| + 1) + 4 + RunRoom(kids,
      sto) + KidsRoom(kids, sto)
    decreases kids, 2
  {
    hide TagAlign, ChildIndex, NodeUse, RunRoom, KidsRoom;
    var i := ChildIndex(ts, name);
    NodePeak(if 0 <= i < |ts| then ts[i] else Tree(name, map[], []), kids, sto, st);
  }

  lemma {:induction false} NodePeak(t: Tree, kids: Forest, sto: seq<u8>, st: seq<u8>)
    ensures NodeUse(t, kids, sto, st).peak <= RunRoom(kids, sto) + KidsRoom(kids, sto)
    decreases kids, 1
  {
    hide PropsUse, KidsUse, RunRoom, KidsRoom;
    PropsPeak(t.props, kids, sto, st);
    KidsPeak(t.children, kids, sto, PropsUse(t.props, kids, sto, st).st);
  }

  lemma {:induction false} RoomBound(f: Forest, sto: seq<u8>)
    requires Ok(f)
    ensures RunRoom(f, sto) + KidsRoom(f, sto) <= Size(f) + NamesSize(f, sto)
    decreases f
  {
    hide NameSize, TagAlign;
    match f {
      case Empty =>
      case Prop(_, _, _, rest) =>
        TokSizes(Head(f));
        RoomBound(rest, sto);
      case Nop(rest) => RoomBound(rest, sto);
      case Node(_, _, kids, rest) =>
        TokSizes(Head(f));
        RoomBound(kids, sto);
        RoomBound(rest, sto);
    }
  }

  /** A merge never takes more than the overlay node's own size and its property names. */
  lemma {:induction false} PeakBound(t: Tree, f: Forest, sto: seq<u8>, st: seq<u8>)
    requires Ok(f)
    ensures NodeUse(t, f, sto, st).peak <= Size(f) + NamesSize(f, sto)
  {
    hide NodeUse, RunRoom, KidsRoom, NamesSize, Words;
    NodePeak(t, f, sto, st);
    RoomBound(f, sto);
  }

  // ---------- Iterating over the overlay node ----------

  /** The suffix of a list from its first property on. */
  ghost function PropTail(f: Forest): Forest {
    match f
    case Nop(rest) => PropTail(rest)
    case _ => f
  }

  lemma {:induction false} PropTailIs(s: seq<u8>, off: nat, f: Forest, st: seq<u8>, m: map<seq<u8>, seq<u8>>)
    requires At(s, off, f) && Check.Named(f, st)
    ensures var p, g := FirstProp(f, off), PropTail(f);
      && MergeProps(m, f, st) == MergeProps(m, g, st)
      && (p >= 0 <==> g.Prop?)
      && (p >= 0 ==> At(s, p, g) && Check.Named(g, st) && off <= p && p + Size(g) == off + Size(f))
    decreases f
  {
    hide At, TokAt, TokWords, Words, Str;
    AtIff(s, off, f);
    match f {
      case Nop(rest) => PropTailIs(s, off + TokSize(Head(f)), rest, st, m);
      case _ =>
    }
  }

  lemma {:induction false} RunTailIs(s: seq<u8>, off: nat, f: Forest, st: seq<u8>, ts: seq<Tree>)
    requires At(s, off, f) && Check.Named(f, st)
    ensures var p, g := FirstNode(f, off), RunTail(f);
      && MergeKids(ts, f, st) == MergeKids(ts, g, st)
      && (p >= 0 <==> g.Node?)
      && (p >= 0 ==> At(s, p, g) && Check.Named(g, st) && off <= p && p + Size(g) == off + Size(f))
    decreases f
  {
    hide At, TokAt, TokWords, Words, Str;
    AtIff(s, off, f);
    match f {
      case Nop(rest) => RunTailIs(s, off + TokSize(Head(f)), rest, st, ts);
      case Prop(_, _, _, rest) => RunTailIs(s, off + TokSize(Head(f)), rest, st, ts);
      case _ =>
    }
  }

  /** An overlay node `o` at `node` of an overlay blob with structure block `so` and strings `sto`. */
  ghost predicate OverlayAt(so: seq<u8>, sto: seq<u8>, node: int, o: Forest) {
    At(so, node, o) && o.Node? && Check.Named(o.kids, sto) && |so| <= 0x7fff_0000 && |sto| <= INT_MAX
  }

  /** A cursor over the contents of an overlay node. */
  ghost predicate CursorAt(so: seq<u8>, sto: seq<u8>, p: int, f: Forest) {
    At(so, p, f) && TokAt(so, p + Size(f), End) && Check.Named(f, sto)
  }

  lemma {:induction false} CursorStart(so: seq<u8>, sto: seq<u8>, node: nat, o: Forest)
    requires At(so, node, o) && o.Node? && Check.Named(o.kids, sto)
    ensures var i := node + TokSize(Head(o));
      && CursorAt(so, sto, i, o.kids) && NodeStart(so, node) == i
      && NextProp(so, i) == FirstProp(o.kids, i) && FirstSubnode(so, node) == FirstNode(o.kids, i)
  {
    hide At, TokAt, TokWords, Words, Check.Named, NodeStart, NextProp, FirstSubnode;
    AtIff(so, node, o);
    VisitsNode(so, node, o);
    NextPropIs(so, node + TokSize(Head(o)), o.kids);
    FirstSubnodeIs(so, node, o);
  }

  /** The property under the cursor and the one after it. */
  lemma {:induction false} CursorProp(so: seq<u8>, sto: seq<u8>, p: nat, f: Forest, m: map<seq<u8>, seq<u8>>)
    requires CursorAt(so, sto, p, f) && FirstProp(f, p) >= 0
    ensures var q, g := FirstProp(f, p), PropTail(f);
      && g.Prop? && Ok(g) && Str(sto, g.nameoff).Some? && TokAt(so, q, Head(g)) && TokSize(Head(g)) + q <= |so|
      && NextTag(so, q).tag == FDT_PROP && NextTag(so, q).next == q + TokSize(Head(g))
      && MergeProps(m, f, sto) == MergeProps(m[Str(sto, g.nameoff).value := g.val], g.rest, sto)
      && CursorAt(so, sto, q + TokSize(Head(g)), g.rest)
      && NextProp(so, q + TokSize(Head(g))) == FirstProp(g.rest, q + TokSize(Head(g)))
  {
    hide At, TokAt, TokWords, Words, NextTag, NextProp, Str;
    PropTailIs(so, p, f, sto, m);
    var q, g := FirstProp(f, p), PropTail(f);
    AtIff(so, q, g);
    NextTagAt(so, q, Head(g));
    TokFits(so, q, Head(g));
    NextPropIs(so, q + TokSize(Head(g)), g.rest);
  }

  lemma {:induction false} PropsDone(so: seq<u8>, sto: seq<u8>, p: nat, f: Forest, m: map<seq<u8>, seq<u8>>)
    requires CursorAt(so, sto, p, f) && FirstProp(f, p) < 0
    ensures MergeProps(m, f, sto) == m
  {
    hide At, TokAt;
    PropTailIs(so, p, f, sto, m);
    NotNop(f);
  }

  lemma {:induction false} NotNop(f: Forest)
    ensures !PropTail(f).Nop?
  {
    if f.Nop? { NotNop(f.rest); }
  }

  lemma {:induction false} KidsDone(so: seq<u8>, sto: seq<u8>, p: nat, f: Forest, ts: seq<Tree>)
    requires CursorAt(so, sto, p, f) && FirstNode(f, p) < 0
    ensures MergeKids(ts, f, sto) == ts
  {
    hide At, TokAt;
    RunTailIs(so, p, f, sto, ts);
    NotLeaf(f);
  }

  lemma {:induction false} NotLeaf(f: Forest)
    ensures RunTail(f).Empty? || RunTail(f).Node?
  {
    if f.Prop? || f.Nop? { NotLeaf(f.rest); }
  }

  /** The child under the cursor and the one after it. */
  lemma {:induction false} CursorNode(so: seq<u8>, sto: seq<u8>, p: nat, f: Forest, ts: seq<Tree>)
    requires CursorAt(so, sto, p, f) && FirstNode(f, p) >= 0
    ensures var q, g := FirstNode(f, p), RunTail(f);
      && g.Node? && Ok(g) && At(so, q, g) && Check.Named(g.kids, sto) && Size(g) <= Size(f)
      && NodeStart(so, q) == q + TokSize(Head(g)) && NextTag(so, q).tag == FDT_BEGIN_NODE && NameAt(so, q) == g.name
      && 0 !in g.name && |g.name| <= |so|
      && MergeKids(ts, f, sto) == MergeKids(MergeChild(ts, g.name, g.kids, sto), g.rest, sto)
      && CursorAt(so, sto, q + NodeSize(g), g.rest) && NextSubnode(so, q) == FirstNode(g.rest, q + NodeSize(g))
  {
    hide At, TokAt, TokWords, Words, NextTag, NodeStart, NextSubnode, Str, MergeChild;
    RunTailIs(so, p, f, sto, ts);
    var q, g := FirstNode(f, p), RunTail(f);
    AtIff(so, q, g);
    NextTagAt(so, q, Head(g));
    TokFits(so, q, Head(g));
    TokSizes(Head(g));
    NodeNamedAt(so, q, Head(g), []);
    NextSubnodeIs(so, q, g);
  }

  lemma {:induction false} ExtendsTrans(a: seq<u8>, b: seq<u8>, c: seq<u8>)
    requires Extends(a, b) && Extends(b, c)
    ensures Extends(a, c)
  {
    Move(c, 0, b, 0, |b|, 0, |a|);
  }

  // ---------- overlay_apply_node ----------

  lemma {:induction false} PropsUseTail(m: map<seq<u8>, seq<u8>>, f: Forest, sto: seq<u8>, st: seq<u8>)
    ensures PropsUse(m, f, sto, st) == PropsUse(m, PropTail(f), sto, st)
    decreases f
  {
    hide Str, SetUse;
    if f.Nop? { PropsUseTail(m, f.rest, sto, st); }
  }

  lemma {:induction false} PropsUseDone(m: map<seq<u8>, seq<u8>>, f: Forest, off: int, sto: seq<u8>, st: seq<u8>)
    requires Ok(f) && FirstProp(f, off) < 0 <= off
    ensures PropsUse(m, f, sto, st) == Idle(st)
    decreases f
  {
    hide Str, SetUse, TokWords;
    if f.Nop? { PropsUseDone(m, f.rest, off + TokSize(NopTok), sto, st); }
  }

  lemma {:induction false} KidsUseTail(ts: seq<Tree>, f: Forest, sto: seq<u8>, st: seq<u8>)
    ensures KidsUse(ts, f, sto, st) == KidsUse(ts, RunTail(f), sto, st)
    ensures RunTail(f).Node? ==>
      var g := RunTail(f); var u := ChildUse(ts, g.name, g.kids, sto, st);
      KidsUse(ts, f, sto, st) == Then(u, KidsUse(MergeChild(ts, g.name, g.kids, sto), g.rest, sto, u.st))
    decreases f
  {
    hide ChildUse, MergeChild;
    if f.Prop? || f.Nop? { KidsUseTail(ts, f.rest, sto, st); }
  }

  lemma {:induction false} KidsUseDone(ts: seq<Tree>, f: Forest, off: int, sto: seq<u8>, st: seq<u8>)
    requires Ok(f) && FirstNode(f, off) < 0 <= off
    ensures KidsUse(ts, f, sto, st) == Idle(st)
    decreases f
  {
    hide ChildUse, MergeChild, TokWords;
    if f.Prop? || f.Nop? { KidsUseDone(ts, f.rest, off + TokSize(Head(f)), sto, st); }
  }

  lemma {:induction false} DataFits(h: Header, n: nat)
    requires Ordered(h, n)
    ensures Data(h) <= h.totalsize
  {
  }

  /** Where the loop is: `sofar` has been used, `more` is still to come. */
  ghost predicate Underway(sofar: Use, more: Use, whole: Use, h0: Header, h: Header, st: seq<u8>) {
    && Peaked(sofar) && Then(sofar, more) == whole && Data(h) == Data(h0) + sofar.end && st == sofar.st
    && Data(h0) + sofar.peak <= h0.totalsize && h.totalsize == h0.totalsize
  }

  lemma {:induction false} Starting(more: Use, h: Header, n: nat, st: seq<u8>)
    requires Peaked(more) && Ordered(h, n)
    ensures Underway(Idle(st), more, more, h, h, st)
  {
  }

  /** One more part of the way: done, or out of room exactly when the whole is. */
  lemma {:induction false} OneMore(sofar: Use, u: Use, more: Use, whole: Use, h0: Header, h: Header, st: seq<u8>,
                                   err: int, h': Header, st': seq<u8>)
    requires Underway(sofar, Then(u, more), whole, h0, h, st) && Peaked(u) && Took(u, err, h, h', st')
    requires h'.totalsize == h.totalsize
    ensures err == 0 ==> Underway(Then(sofar, u), more, whole, h0, h', st') && st' == u.st
    ensures err != 0 ==> err == NOSPACE && Took(whole, err, h0, h', st')
  {
    ThenThen(sofar, u, more);
  }

  lemma {:induction false} AllTaken(sofar: Use, whole: Use, h0: Header, h: Header, st: seq<u8>)
    requires Underway(sofar, Idle(st), whole, h0, h, st)
    ensures Took(whole, 0, h0, h, st)
  {
    ThenIdle(sofar);
  }

  /** The property under a cursor over the overlay: its name and value, and the property after it. */
  method TakeProp(so: seq<u8>, sto: seq<u8>, property: nat, ghost p: nat, ghost f: Forest,
                  ghost m: map<seq<u8>, seq<u8>>, ghost st: seq<u8>)
    returns (name: seq<u8>, val: seq<u8>, next: int)
    requires CursorAt(so, sto, p, f) && property == FirstProp(f, p)
    ensures 0 !in name && |name| < |sto| && |val| <= |so| && PropTail(f).Prop? && Ok(PropTail(f))
    ensures var g := PropTail(f); var q := property + TokSize(Head(g));
      && CursorAt(so, sto, q, g.rest) && next == FirstProp(g.rest, q) && Left(so, next) < Left(so, property)
      && MergeProps(m, f, sto) == MergeProps(m[name := val], g.rest, sto)
      && var u := SetUse(m, name, |val|, st);
         PropsUse(m, f, sto, st) == Then(u, PropsUse(m[name := val], g.rest, sto, u.st))
  {
    hide At, TokAt, TokWords, Words, Check.Named, Str, Be32, NextTag, NextProp, MergeProps, PropTail, FirstProp, SetUse;
    PropsUseTail(m, f, sto, st);
    CursorProp(so, sto, p, f, m);
    ghost var g := PropTail(f);
    PropWords(so, property, Head(g));
    name, val := Str(sto, Be32(so, property + 8)).value, so[property + 12..property + 12 + Be32(so, property + 4)];
    next := NextPropLoop(so, NextTag(so, property).next);
  }

  lemma {:induction false} SetTook(m: map<seq<u8>, seq<u8>>, name: seq<u8>, len: nat, st: seq<u8>, err: int, h: Header,
                                   h': Header, st': seq<u8>)
    requires Data(h) <= h.totalsize
    requires err == if Data(h) + Growth(m, name, len, st) > h.totalsize then NOSPACE else 0
    requires err == 0 ==> Data(h') == Data(h) + Growth(m, name, len, st)
    requires err == 0 ==> st' == if name in m then st else WithName(st, name)
    ensures Peaked(SetUse(m, name, len, st)) && Took(SetUse(m, name, len, st), err, h, h', st')
  {
    hide Growth, WithName;
  }

  /** The loop over the properties: each is set in the target, so the overlay's value wins. */
  method ApplyProps(fdt: Fdt, target: nat, so: seq<u8>, sto: seq<u8>, node: nat, ghost c: Ctx, ghost n: Forest,
                    ghost o: Forest)
    returns (err: int, ghost n2: Forest)
    requires fdt.Valid() && fdt.Encodes(c, n) && target == Offset(c) && OverlayAt(so, sto, node, o)
    modifies fdt, fdt.mem, fdt.mem.data
    ensures fdt.Valid() && fdt.Encodes(c, n2) && fdt.h.totalsize == old(fdt.h).totalsize
    ensures Rsv(fdt.h, fdt.mem.bytes) == old(Rsv(fdt.h, fdt.mem.bytes)) && n2.rest == n.rest
    ensures Extends(old(Strings(fdt.h, fdt.mem.bytes)), Strings(fdt.h, fdt.mem.bytes))
    ensures var st := old(Strings(fdt.h, fdt.mem.bytes));
      Took(PropsUse(TreeOf(n, st).props, o.kids, sto, st), err, old(fdt.h), fdt.h, Strings(fdt.h, fdt.mem.bytes))
    ensures err == 0 ==>
      var t := TreeOf(n, old(Strings(fdt.h, fdt.mem.bytes)));
      TreeOf(n2, Strings(fdt.h, fdt.mem.bytes)) == t.(props := MergeProps(t.props, o.kids, sto))
  {
    hide At, TokAt, TokWords, Words, Check.Named, Str, Be32, NextTag, NextProp, NodeStart, Struct, Strings, Rsv, Holds,
      Plug, Ordered, Extends, MergeProps, PropTail, FirstProp, Props, Kids, Offset, PropsUse, SetUse, Then, Took,
        Underway, Idle, Once, Peaked, Growth, WithName, Data;
    CursorStart(so, sto, node, o);
    ghost var st0 := Strings(fdt.h, fdt.mem.bytes);
    ghost var t := TreeOf(n, st0);
    ghost var p, f := node + TokSize(Head(o)), o.kids;
    ghost var m := t.props;
    ghost var whole, sofar := PropsUse(m, f, sto, st0), Idle(st0);
    Starting(whole, fdt.h, |fdt.mem.bytes|, st0);
    var start := NodeStart(so, node);
    var property := NextPropLoop(so, start);
    n2 := n;
    ExtendsSame(Strings(fdt.h, fdt.mem.bytes));
    while property >= 0
      invariant fdt.Valid() && fdt.Encodes(c, n2) && fdt.h.totalsize == old(fdt.h).totalsize
      invariant Rsv(fdt.h, fdt.mem.bytes) == old(Rsv(fdt.h, fdt.mem.bytes)) && n2.rest == n.rest
      invariant Extends(old(Strings(fdt.h, fdt.mem.bytes)), Strings(fdt.h, fdt.mem.bytes))
      invariant 0 <= p && Ok(f) && CursorAt(so, sto, p, f) && property == FirstProp(f, p)
      invariant TreeOf(n2, Strings(fdt.h, fdt.mem.bytes)) == t.(props := m)
      invariant MergeProps(m, f, sto) == MergeProps(t.props, o.kids, sto)
      invariant var st := Strings(fdt.h, fdt.mem.bytes);
        Underway(sofar, PropsUse(m, f, sto, st), whole, old(fdt.h), fdt.h, st)
      decreases Left(so, property)
    {
      var name, val, next := TakeProp(so, sto, property, p, f, m, Strings(fdt.h, fdt.mem.bytes));
      ghost var st, h := Strings(fdt.h, fdt.mem.bytes), fdt.h;
      ghost var u := SetUse(m, name, |val|, st);
      DataFits(h, |fdt.mem.bytes|);
      err, n2 := fdt.Setprop(target, name, val, c, n2);
      ExtendsTrans(old(Strings(fdt.h, fdt.mem.bytes)), st, Strings(fdt.h, fdt.mem.bytes));
      SetTook(m, name, |val|, st, err, h, fdt.h, Strings(fdt.h, fdt.mem.bytes));
      OneMore(sofar, u, PropsUse(m[name := val], PropTail(f).rest, sto, u.st), whole, old(fdt.h), h, st, err, fdt.h,
        Strings(fdt.h, fdt.mem.bytes));
      if err != 0 { return; }
      sofar := Then(sofar, u);
      m, p, f := m[name := val], property + TokSize(Head(PropTail(f))), PropTail(f).rest;
      property := next;
    }
    PropsDone(so, sto, p, f, m);
    PropsUseDone(m, f, p, sto, Strings(fdt.h, fdt.mem.bytes));
    AllTaken(sofar, whole, old(fdt.h), fdt.h, Strings(fdt.h, fdt.mem.bytes));
    err := 0;
  }

  lemma {:induction false} ChildInside(s: seq<u8>, c: Ctx, n: Forest, name: seq<u8>, st: seq<u8>)
    requires OkC(c) && Ok(n) && n.Node? && Holds(s, Plug(c, n)) && Check.Named(Plug(c, n), st)
      && ChildFocus(n.kids, name).Node?
    ensures var d, g := ChildCtx(n.kids, name), ChildFocus(n.kids, name);
      && OkC(d) && Ok(g) && OkC(Inside(c, n, d)) && Offset(Inside(c, n, d)) == Offset(c) + TokSize(Head(n)) + Offset(d)
      && Plug(Inside(c, n, d), g) == Plug(c, n)
  {
    hide *;
    NodeAt(s, c, n);
    ChildPlace(n.kids, 0, name);
    InsideIs(c, n, ChildCtx(n.kids, name), ChildFocus(n.kids, name));
    WithSame(n);
  }

  lemma {:induction false} WithSame(n: Forest)
    requires n.Node?
    ensures WithKids(n, n.kids) == n
  {
  }

  /** A child replaced: the node around it, and its tree. */
  lemma {:induction false} ChildOutside(s: seq<u8>, c: Ctx, n: Forest, name: seq<u8>, g: Forest, st: seq<u8>)
    requires OkC(c) && Ok(n) && n.Node? && ChildFocus(n.kids, name).Node? && g.Node?
      && g.rest == ChildFocus(n.kids, name).rest
    requires var e := Inside(c, n, ChildCtx(n.kids, name)); Ok(g) && Holds(s, Plug(e, g)) && Check.Named(Plug(e, g), st)
    ensures var n2, i := WithKids(n, Plug(ChildCtx(n.kids, name), g)), ChildIndex(Kids(n.kids, st), name);
      && Ok(n2) && Holds(s, Plug(c, n2)) && Check.Named(Plug(c, n2), st) && 0 <= i < |Kids(n.kids, st)|
      && TreeOf(n2, st) == TreeOf(n, st).(children := Kids(n.kids, st)[i := TreeOf(g, st)])
  {
    hide Holds, Plug, Check.Named, Kids, Props, ChildCtx, ChildFocus, ChildIndex, Inside, Offset, TokWords, Words;
    ChildPlace(n.kids, 0, name);
    InsideIs(c, n, ChildCtx(n.kids, name), g);
    OkPlug(ChildCtx(n.kids, name), g);
    ChildReset(n.kids, name, g, st);
  }

  /** A node adopted is the first child that matches its own name. */
  lemma {:induction false} AdoptedChild(f: Forest, name: seq<u8>, pad: seq<u8>)
    ensures var g := Node(name, pad, Empty, RunTail(f));
      && ChildCtx(Plug(RunCtx(f), g), name) == RunCtx(f) && ChildFocus(Plug(RunCtx(f), g), name) == g
  {
    match f {
      case Prop(_, _, _, rest) => AdoptedChild(rest, name, pad);
      case Nop(rest) => AdoptedChild(rest, name, pad);
      case _ =>
    }
  }

  /** Where the child that overlay_apply_node goes on with is, whether it was there or was added. */
  lemma {:induction false} FoundChild(s: seq<u8>, c: Ctx, n: Forest, st: seq<u8>, name: seq<u8>)
    requires OkC(c) && Ok(n) && n.Node? && Holds(s, Plug(c, n)) && ChildIndex(Kids(n.kids, st), name) >= 0
    ensures ChildFocus(n.kids, name).Node? && OkC(ChildCtx(n.kids, name))
    ensures SubnodeOffset(s, Offset(c), name) == Offset(c) + TokSize(Head(n)) + Offset(ChildCtx(n.kids, name))
  {
    hide Holds, Plug, Kids, Props, ChildCtx, ChildFocus, ChildIndex, Offset, TokWords, Words, At, TokAt, SubnodeOffset,
      FindChild;
    NodeAt(s, c, n);
    ChildTree(n.kids, name, st);
    ChildPlace(n.kids, Offset(c) + TokSize(Head(n)), name);
    SubnodeFinds(s, Offset(c), n, name);
  }

  lemma {:induction false} AddedChild(c: Ctx, n: Forest, n1: Forest, st: seq<u8>, name: seq<u8>, pad: seq<u8>)
    requires n.Node? && Ok(n) && n1 == Adopted(n, name, pad) && Ok(n1) && ChildIndex(Kids(n.kids, st), name) < 0
    requires TreeOf(n1, st) == AddIn(TreeOf(n, st), name)
    ensures ChildFocus(n1.kids, name).Node? && ChildCtx(n1.kids, name) == RunCtx(n.kids)
    ensures ChildIndex(Kids(n1.kids, st), name) == 0
    ensures n1.rest == n.rest && Head(n1) == Head(n)
  {
    hide Kids, Props, Plug, RunCtx, RunTail, ChildCtx, ChildFocus;
    AdoptedChild(n.kids, name, pad);
  }

  lemma {:induction false} MergedChild(t: Tree, t1: Tree, t2: Tree, name: seq<u8>, kids: Forest, sto: seq<u8>, i: int)
    requires if ChildIndex(t.children, name) >= 0 then t1 == t else t1 == AddIn(t, name)
    requires i == ChildIndex(t1.children, name) && 0 <= i < |t1.children|
    requires t2 == t1.(children := t1.children[i := Merged(t1.children[i], kids, sto)])
    ensures t2 == t.(children := MergeChild(t.children, name, kids, sto))
  {
    hide Merged;
    if ChildIndex(t.children, name) < 0 {
      var e := Tree(name, map[], []);
      assert t1.children[0] == e && NameEq(name, name);
      assert ([e] + t.children)[0 := Merged(e, kids, sto)] == [Merged(e, kids, sto)] + t.children;
    }
  }

  lemma {:induction false} GrownTree(c: Ctx, n: Forest, st: seq<u8>, st': seq<u8>)
    requires n.Node? && Check.Named(Plug(c, n), st) && Extends(st, st')
    ensures TreeOf(n, st') == TreeOf(n, st) && Check.Named(Plug(c, n), st')
  {
    hide Extends, Plug, Kids, Props;
    NamedPlug(c, n, st);
    ExtendsKeeps(Plug(c, n), st, st');
    ExtendsKeeps(n.kids, st, st');
  }

  lemma {:induction false} NoChildRoom(ts: seq<Tree>, name: seq<u8>, kids: Forest, sto: seq<u8>, st: seq<u8>, h: Header,
                                       h': Header)
    requires ChildIndex(ts, name) < 0 && Data(h) + 4 + TagAlign(|name| + 1) + 4 > h.totalsize
    ensures Took(ChildUse(ts, name, kids, sto, st), NOSPACE, h, h', st)
  {
    hide ChildIndex, NodeUse, TagAlign;
  }

  /** The use of a child, put together from adding it, if it is new, and merging into it. */
  lemma {:induction false} ChildTook(t: Tree, t1: Tree, name: seq<u8>, kids: Forest, sto: seq<u8>, st: seq<u8>, i: int,
                                     err: int, h: Header, h1: Header, h': Header, st': seq<u8>)
    requires i == ChildIndex(t1.children, name) && 0 <= i < |t1.children| && h1.totalsize == h.totalsize
    requires if ChildIndex(t.children, name) >= 0 then t1 == t && Data(h1) == Data(h)
             else t1 == AddIn(t, name) && Data(h1) == Data(h) + 4 + TagAlign(|name| + 1) + 4 <= h.totalsize
    requires Took(NodeUse(t1.children[i], kids, sto, st), err, h1, h', st')
    ensures Took(ChildUse(t.children, name, kids, sto, st), err, h, h', st')
  {
    hide NodeUse, TagAlign;
    if ChildIndex(t.children, name) < 0 {
      assert t1.children[0] == Tree(name, map[], []) && NameEq(name, name);
    }
  }

  /** The child that overlay_apply_node goes on with: a new one, or the one that is there. */
  method ChildToMerge(fdt: Fdt, target: nat, name: seq<u8>, ghost c: Ctx, ghost n: Forest)
    returns (nnode: int, ghost n1: Forest)
    requires fdt.Valid() && fdt.Encodes(c, n) && target == Offset(c) && 0 !in name && |name| <= 0x7fff_ffe0
    modifies fdt, fdt.mem, fdt.mem.data
    ensures fdt.Valid() && fdt.Encodes(c, n1) && fdt.h.totalsize == old(fdt.h).totalsize && n1.rest == n.rest
    ensures Rsv(fdt.h, fdt.mem.bytes) == old(Rsv(fdt.h, fdt.mem.bytes))
    ensures Strings(fdt.h, fdt.mem.bytes) == old(Strings(fdt.h, fdt.mem.bytes))
    ensures nnode < 0 ==> nnode == NOSPACE && n1 == n
    ensures nnode < 0 <==>
      && ChildIndex(Kids(n.kids, old(Strings(fdt.h, fdt.mem.bytes))), name) < 0
      && Data(old(fdt.h)) + 4 + TagAlign(|name| + 1) + 4 > fdt.h.totalsize
    ensures nnode >= 0 ==>
      var st := old(Strings(fdt.h, fdt.mem.bytes));
      && ChildFocus(n1.kids, name).Node? && OkC(ChildCtx(n1.kids, name)) && ChildIndex(Kids(n1.kids, st), name) >= 0
      && nnode == target + TokSize(Head(n1)) + Offset(ChildCtx(n1.kids, name))
      && if ChildIndex(Kids(n.kids, st), name) >= 0 then n1 == n && Data(fdt.h) == Data(old(fdt.h))
         else
           && TreeOf(n1, st) == AddIn(TreeOf(n, st), name)
           && Data(fdt.h) == Data(old(fdt.h)) + 4 + TagAlign(|name| + 1) + 4
  {
    hide At, TokAt, TokWords, Words, Check.Named, Str, Be32, NextTag, Struct, Strings, Rsv, Holds, Plug, Ordered,
      Props, Kids, Offset, SubnodeOffset, ChildIndex, ChildCtx, ChildFocus, RunCtx, RunTail, Adopted, TagAlign, AddIn;
    ghost var st := Strings(fdt.h, fdt.mem.bytes);
    nnode, n1 := fdt.AddSubnode(target, name, c, n);
    if nnode == EXISTS {
      var s, _ := fdt.Blocks();
      FoundChild(s, c, n, st, name);
      nnode := SubnodeLoop(s, target, name);
    } else if nnode >= 0 {
      ghost var pad :| n1 == Adopted(n, name, pad);
      AddedChild(c, n, n1, st, name, pad);
    }
  }

  /** One subnode: added or found in the target, then merged. */
  method ApplyChild(fdt: Fdt, target: nat, so: seq<u8>, sto: seq<u8>, subnode: nat, ghost c: Ctx, ghost n: Forest,
                    ghost o: Forest)
    returns (err: int, ghost n2: Forest)
    requires fdt.Valid() && fdt.Encodes(c, n) && target == Offset(c) && OverlayAt(so, sto, subnode, o)
    requires NextTag(so, subnode).tag == FDT_BEGIN_NODE && NameAt(so, subnode) == o.name && 0 !in o.name
      && |o.name| <= |so|
    modifies fdt, fdt.mem, fdt.mem.data
    ensures fdt.Valid() && fdt.Encodes(c, n2) && fdt.h.totalsize == old(fdt.h).totalsize
    ensures Rsv(fdt.h, fdt.mem.bytes) == old(Rsv(fdt.h, fdt.mem.bytes)) && n2.rest == n.rest
    ensures Extends(old(Strings(fdt.h, fdt.mem.bytes)), Strings(fdt.h, fdt.mem.bytes))
    ensures var st := old(Strings(fdt.h, fdt.mem.bytes));
      Took(ChildUse(TreeOf(n, st).children, o.name, o.kids, sto, st), err, old(fdt.h), fdt.h,
        Strings(fdt.h, fdt.mem.bytes))
    ensures err == 0 ==>
      var t := TreeOf(n, old(Strings(fdt.h, fdt.mem.bytes)));
      TreeOf(n2, Strings(fdt.h, fdt.mem.bytes)) == t.(children := MergeChild(t.children, o.name, o.kids, sto))
    decreases Size(o), 2
  {
    hide At, TokAt, TokWords, Words, Check.Named, Str, Be32, NextTag, Struct, Strings, Rsv, Holds, Plug, Ordered,
      NameAt, Extends, Props, Kids, Offset, MergeChild, Merged, SubnodeOffset, ChildIndex, ChildCtx, ChildFocus,
        RunCtx, RunTail, Inside, Adopted, NodeUse, ChildUse, TagAlign, Then, Once, Took, Data;
    var name := NameAt(so, subnode);
    ghost var st, h := Strings(fdt.h, fdt.mem.bytes), fdt.h;
    var nnode, n1 := ChildToMerge(fdt, target, name, c, n);
    ghost var i, h1 := ChildIndex(Kids(n1.kids, st), name), fdt.h;
    if nnode < 0 {
      ExtendsSame(st);
      NoChildRoom(TreeOf(n, st).children, name, o.kids, sto, st, h, fdt.h);
      return nnode, n;
    }
    ghost var d, g := ChildCtx(n1.kids, name), ChildFocus(n1.kids, name);
    ChildInside(Struct(fdt.h, fdt.mem.bytes), c, n1, name, st);
    ChildTree(n1.kids, name, st);
    ghost var g2;
    err, g2 := ApplyNode(fdt, nnode, so, sto, subnode, Inside(c, n1, d), g, o);
    ghost var st' := Strings(fdt.h, fdt.mem.bytes);
    ChildOutside(Struct(fdt.h, fdt.mem.bytes), c, n1, name, g2, st');
    GrownTree(c, n1, st, st');
    n2 := WithKids(n1, Plug(d, g2));
    ChildTook(TreeOf(n, st), TreeOf(n1, st), name, o.kids, sto, st, i, err, h, h1, fdt.h, st');
    if err == 0 {
      MergedChild(TreeOf(n, st), TreeOf(n1, st), TreeOf(n2, st'), name, o.kids, sto,
        ChildIndex(Kids(n1.kids, st), name));
    }
  }

  /** The loop over the subnodes. */
  method ApplyKids(fdt: Fdt, target: nat, so: seq<u8>, sto: seq<u8>, node: nat, ghost c: Ctx, ghost n: Forest,
                   ghost o: Forest)
    returns (err: int, ghost n2: Forest)
    requires fdt.Valid() && fdt.Encodes(c, n) && target == Offset(c) && OverlayAt(so, sto, node, o)
    modifies fdt, fdt.mem, fdt.mem.data
    ensures fdt.Valid() && fdt.Encodes(c, n2) && fdt.h.totalsize == old(fdt.h).totalsize
    ensures Rsv(fdt.h, fdt.mem.bytes) == old(Rsv(fdt.h, fdt.mem.bytes)) && n2.rest == n.rest
    ensures Extends(old(Strings(fdt.h, fdt.mem.bytes)), Strings(fdt.h, fdt.mem.bytes))
    ensures var st := old(Strings(fdt.h, fdt.mem.bytes));
      Took(KidsUse(TreeOf(n, st).children, o.kids, sto, st), err, old(fdt.h), fdt.h, Strings(fdt.h, fdt.mem.bytes))
    ensures err == 0 ==>
      var t := TreeOf(n, old(Strings(fdt.h, fdt.mem.bytes)));
      TreeOf(n2, Strings(fdt.h, fdt.mem.bytes)) == t.(children := MergeKids(t.children, o.kids, sto))
    decreases Size(o), 0
  {
    hide At, TokAt, TokWords, Check.Named, Str, Be32, NextTag, Struct, Strings, Rsv, Holds, Plug, Ordered, NameAt,
      NextSubnode, FirstSubnode, Extends, Props, Kids, Offset, MergeChild, MergeKids, FirstNode, RunTail, ChildUse,
        KidsUse, Then, Took, Underway, Idle, Data;
    CursorStart(so, sto, node, o);
    ghost var st0 := Strings(fdt.h, fdt.mem.bytes);
    ghost var t := TreeOf(n, st0);
    ghost var p, f, ts := node + TokSize(Head(o)), o.kids, t.children;
    ghost var whole, sofar := KidsUse(ts, f, sto, st0), Idle(st0);
    Starting(whole, fdt.h, |fdt.mem.bytes|, st0);
    var subnode := FirstSubnode(so, node);
    n2 := n;
    ExtendsSame(Strings(fdt.h, fdt.mem.bytes));
    while subnode >= 0
      invariant fdt.Valid() && fdt.Encodes(c, n2) && fdt.h.totalsize == old(fdt.h).totalsize
      invariant Rsv(fdt.h, fdt.mem.bytes) == old(Rsv(fdt.h, fdt.mem.bytes)) && n2.rest == n.rest
      invariant Extends(old(Strings(fdt.h, fdt.mem.bytes)), Strings(fdt.h, fdt.mem.bytes))
      invariant 0 <= p && Ok(f) && CursorAt(so, sto, p, f) && subnode == FirstNode(f, p) && Size(f) <= Size(o.kids)
      invariant TreeOf(n2, Strings(fdt.h, fdt.mem.bytes)) == t.(children := ts)
      invariant MergeKids(ts, f, sto) == MergeKids(t.children, o.kids, sto)
      invariant var st := Strings(fdt.h, fdt.mem.bytes);
        Underway(sofar, KidsUse(ts, f, sto, st), whole, old(fdt.h), fdt.h, st)
      decreases Size(f)
    {
      CursorNode(so, sto, p, f, ts);
      ghost var g := RunTail(f);
      ghost var st, h := Strings(fdt.h, fdt.mem.bytes), fdt.h;
      ghost var u, us := ChildUse(ts, g.name, g.kids, sto, st), MergeChild(ts, g.name, g.kids, sto);
      KidsUseTail(ts, f, sto, st);
      err, n2 := ApplyChild(fdt, target, so, sto, subnode, c, n2, g);
      ExtendsTrans(old(Strings(fdt.h, fdt.mem.bytes)), st, Strings(fdt.h, fdt.mem.bytes));
      OneMore(sofar, u, KidsUse(us, g.rest, sto, u.st), whole, old(fdt.h), h, st, err, fdt.h,
        Strings(fdt.h, fdt.mem.bytes));
      if err != 0 { return; }
      sofar := Then(sofar, u);
      ts, p, f := us, subnode + NodeSize(g), g.rest;
      subnode := NextSubnodeLoop(so, subnode);
    }
    KidsDone(so, sto, p, f, ts);
    KidsUseDone(ts, f, p, sto, Strings(fdt.h, fdt.mem.bytes));
    AllTaken(sofar, whole, old(fdt.h), fdt.h, Strings(fdt.h, fdt.mem.bytes));
    err := 0;
  }

  /**
   overlay_apply_node: the target node becomes the recursive merge of itself and the overlay node. Whatever the
   result, the context `c` of the target is as before, and so is the target's offset.
   */
  method ApplyNode(fdt: Fdt, target: nat, so: seq<u8>, sto: seq<u8>, node: nat, ghost c: Ctx, ghost n: Forest,
                   ghost o: Forest)
    returns (err: int, ghost n2: Forest)
    requires fdt.Valid() && fdt.Encodes(c, n) && target == Offset(c) && OverlayAt(so, sto, node, o)
    modifies fdt, fdt.mem, fdt.mem.data
    ensures fdt.Valid() && fdt.Encodes(c, n2) && fdt.h.totalsize == old(fdt.h).totalsize
    ensures Rsv(fdt.h, fdt.mem.bytes) == old(Rsv(fdt.h, fdt.mem.bytes)) && n2.rest == n.rest
    ensures Extends(old(Strings(fdt.h, fdt.mem.bytes)), Strings(fdt.h, fdt.mem.bytes))
    ensures var st := old(Strings(fdt.h, fdt.mem.bytes));
      Took(NodeUse(TreeOf(n, st), o.kids, sto, st), err, old(fdt.h), fdt.h, Strings(fdt.h, fdt.mem.bytes))
    ensures err == 0 ==>
      TreeOf(n2, Strings(fdt.h, fdt.mem.bytes)) == Merged(TreeOf(n, old(Strings(fdt.h, fdt.mem.bytes))), o.kids, sto)
    decreases Size(o), 1
  {
    hide At, TokAt, TokWords, Words, Check.Named, Str, Struct, Strings, Rsv, Holds, Plug, Ordered, Extends, Props,
      Kids, Offset, MergeProps, MergeKids, PropsUse, KidsUse;
    ghost var st0 := Strings(fdt.h, fdt.mem.bytes);
    err, n2 := ApplyProps(fdt, target, so, sto, node, c, n, o);
    if err != 0 { return; }
    ghost var st := Strings(fdt.h, fdt.mem.bytes);
    err, n2 := ApplyKids(fdt, target, so, sto, node, c, n2, o);
    ExtendsTrans(old(Strings(fdt.h, fdt.mem.bytes)), st, Strings(fdt.h, fdt.mem.bytes));
  }
}
