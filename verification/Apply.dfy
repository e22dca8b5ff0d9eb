/** fdt_overlay_apply: the overlay moved out of the way, then every fragment merged into its target. */
module Apply {
  import opened Bytes
  import opened Structure
  import opened Zipper
  import opened Lookup
  import Check
  import opened Tree
  import opened Edit
  import InPlace
  import opened Blob
  import opened Rw
  import opened Phandle
  import Fixup
  import References
  import opened Overlay
  import Local
  import opened Target
  import Path

  /** target, target-path, __overlay__, __fixups__ and __symbols__. */
  const TARGET: seq<u8> := [116, 97, 114, 103, 101, 116]
  const TARGET_PATH: seq<u8> := [116, 97, 114, 103, 101, 116, 45, 112, 97, 116, 104]
  const OVERLAY: seq<u8> := [95, 95, 111, 118, 101, 114, 108, 97, 121, 95, 95]
  const FIXUPS: seq<u8> := [95, 95, 102, 105, 120, 117, 112, 115, 95, 95]
  const SYMBOLS: seq<u8> := [95, 95, 115, 121, 109, 98, 111, 108, 115, 95, 95]

  /** The result for a target path that goes through /aliases, which is not modelled. */
  const ALIASED: int := -1004

  // ---------- fdt_overlay_target_offset ----------

  /** overlay_get_target_phandle: 0 for none, 2^32 - 1 for a malformed one. */
  function TargetPhandle(v: Option<seq<u8>>): u32 {
    match v
    case None => 0
    case Some(w) => if |w| != 4 then TWO32 - 1 else Be32(w, 0)
  }

  ghost function ValueOf(m: map<seq<u8>, seq<u8>>, name: seq<u8>): Option<seq<u8>> {
    if name in m then Some(m[name]) else None
  }

  /**
   Where a fragment with properties `m` goes: to the node with its target phandle, or to the end of its target path.
   */
  ghost function Destination(ts: seq<Tree>, m: map<seq<u8>, seq<u8>>): (r: Result<seq<nat>>)
    ensures match r case Failed(e) => e < 0 && e != NOSPACE case Done(p) => p != [] && NodeIn(ts, p).Some?
  {
    hide FindIn, Along;
    var ph := TargetPhandle(ValueOf(m, TARGET));
    if ph == TWO32 - 1 then Failed(BADPHANDLE)
    else if ph != 0 then
      match FindIn(ts, ph) case Some(p) => Done(p) case None => Failed(NOTFOUND)
    else if TARGET_PATH !in m then Failed(BADOVERLAY)
    else
      var v := m[TARGET_PATH];
      var z := ScanNul(v, 0);
      if z == |v| then Failed(READS_OUTSIDE)
      else if v[0] != SLASH then Failed(ALIASED)
      else if ts == [] then Failed(NOTFOUND)
      else
        match Along(ts[0], v[..z])
        case Some(x) =>
          var p: seq<nat> := [0] + x;
          assert p[1..] == x;
          Done(p)
        case None => Failed(NOTFOUND)
  }

  // ---------- Where a fragment goes, by its two properties and the tree ----------

  /** The fragment has a target that is no phandle. */
  predicate BadTarget(m: map<seq<u8>, seq<u8>>) {
    TARGET in m && (|m[TARGET]| != 4 || Be32(m[TARGET], 0) == TWO32 - 1)
  }

  /** The fragment's target is the phandle `ph`. */
  predicate ByPhandle(m: map<seq<u8>, seq<u8>>, ph: u32) {
    TARGET in m && |m[TARGET]| == 4 && Be32(m[TARGET], 0) == ph && ph != 0 && ph != TWO32 - 1
  }

  /** The fragment has no target, or one that is 0. */
  predicate NoPhandle(m: map<seq<u8>, seq<u8>>) {
    TARGET in m ==> |m[TARGET]| == 4 && Be32(m[TARGET], 0) == 0
  }

  /** The fragment's target-path is `text`, which ends at its first NUL. */
  predicate ByPath(m: map<seq<u8>, seq<u8>>, text: seq<u8>) {
    NoPhandle(m) && TARGET_PATH in m && 0 !in text && text + [0] <= m[TARGET_PATH]
  }

  predicate Absolute(text: seq<u8>) {
    text != [] && text[0] == SLASH
  }

  /** The names of a path, with slashes around them, lead down to the position `x`. */
  ghost predicate Leads(t: Tree, text: seq<u8>, x: seq<nat>) {
    exists gaps, names :: Spelling(gaps, names) && Spelled(gaps, names) == text && Follows(t, names, x)
  }

  /** An absolute path leads from the root to `p`, or nowhere. */
  ghost predicate GoesAlong(ts: seq<Tree>, text: seq<u8>, p: seq<nat>) {
    Absolute(text) && ts != [] && p != [] && p[0] == 0 && Leads(ts[0], text, p[1..])
  }

  ghost predicate GoesNowhere(ts: seq<Tree>, text: seq<u8>) {
    Absolute(text) && forall p :: !GoesAlong(ts, text, p)
  }

  /**
   A fragment goes to `p`: the first node in document order that has its target phandle, or without one the node
   that its target-path leads to.
   */
  ghost predicate Goes(ts: seq<Tree>, m: map<seq<u8>, seq<u8>>, p: seq<nat>) {
    || (exists ph :: ByPhandle(m, ph) && FirstWith(ts, ph, p))
    || (exists text :: ByPath(m, text) && GoesAlong(ts, text, p))
  }

  ghost predicate HasNone(ts: seq<Tree>, ph: u32) {
    forall q :: q != [] && NodeIn(ts, q).Some? ==> PhandleOf(NodeIn(ts, q).value) != ph
  }

  /** Why a fragment goes nowhere. */
  ghost predicate NoTarget(ts: seq<Tree>, m: map<seq<u8>, seq<u8>>, err: int) {
    || (err == BADPHANDLE && BadTarget(m))
    || (err == NOTFOUND && exists ph :: ByPhandle(m, ph) && HasNone(ts, ph))
    || (err == BADOVERLAY && NoPhandle(m) && TARGET_PATH !in m)
    || (err == READS_OUTSIDE && NoPhandle(m) && TARGET_PATH in m && 0 !in m[TARGET_PATH])
    || (err == ALIASED && exists text :: ByPath(m, text) && !Absolute(text))
    || (err == NOTFOUND && exists text :: ByPath(m, text) && GoesNowhere(ts, text))
  }

  lemma {:induction false} TextScan(v: seq<u8>, text: seq<u8>)
    requires 0 !in text && text + [0] <= v
    ensures ScanNul(v, 0) == |text| < |v| && v[..|text|] == text
  {
    assert v[|text|] == (text + [0])[|text|] == 0;
    assert forall i :: 0 <= i < |text| ==> v[i] == (text + [0])[i] == text[i];
    ScanNulUnique(v, 0, |text|);
  }

  lemma {:induction false} TextOf(v: seq<u8>)
    ensures var z := ScanNul(v, 0);
      if z == |v| then 0 !in v else 0 !in v[..z] && v[..z] + [0] <= v
  {
    var z := ScanNul(v, 0);
    if z < |v| { assert v[..z] + [0] == v[..z + 1]; }
  }

  lemma {:induction false} LeadsIff(t: Tree, text: seq<u8>)
    ensures forall x :: Along(t, text) == Some(x) <==> Leads(t, text, x)
    ensures Along(t, text).None? <==> forall x :: !Leads(t, text, x)
  {
    hide Along, Path.Plain, Spelled, Follows;
    var gaps, names := Spell(text);
    forall x ensures Along(t, text) == Some(x) <==> Leads(t, text, x) {
      AlongIff(t, gaps, names);
      forall g, n | Spelling(g, n) && Spelled(g, n) == text && Follows(t, n, x) ensures Along(t, text) == Some(x) {
        AlongIff(t, g, n);
      }
    }
    if Along(t, text).Some? { assert Leads(t, text, Along(t, text).value); }
  }

  /** With a target phandle. */
  lemma {:induction false} DestinationPhandle(ts: seq<Tree>, m: map<seq<u8>, seq<u8>>, ph: u32)
    requires ByPhandle(m, ph)
    ensures forall p :: Goes(ts, m, p) <==> FindIn(ts, ph) == Some(p)
    ensures forall e :: NoTarget(ts, m, e) <==> e == NOTFOUND && FindIn(ts, ph).None?
  {
    hide FindIn, FirstWith, GoesAlong, GoesNowhere;
    FindIff(ts, ph);
    assert FindIn(ts, ph).None? <==> HasNone(ts, ph);
  }

  /** With a target path. */
  lemma {:induction false} DestinationPath(ts: seq<Tree>, m: map<seq<u8>, seq<u8>>, text: seq<u8>)
    requires ByPath(m, text)
    ensures forall p :: Goes(ts, m, p) <==> GoesAlong(ts, text, p)
    ensures !Absolute(text) ==> forall p :: !GoesAlong(ts, text, p)
    ensures forall e :: NoTarget(ts, m, e) <==>
      if Absolute(text) then e == NOTFOUND && GoesNowhere(ts, text) else e == ALIASED
  {
    hide FirstWith, Leads, HasNone;
    forall other | ByPath(m, other) ensures other == text {
      TextScan(m[TARGET_PATH], text);
      TextScan(m[TARGET_PATH], other);
    }
    TextScan(m[TARGET_PATH], text);
    assert m[TARGET_PATH][|text|] == 0;
  }

  /** With neither. */
  lemma {:induction false} DestinationNone(ts: seq<Tree>, m: map<seq<u8>, seq<u8>>)
    requires BadTarget(m) || (NoPhandle(m) && (TARGET_PATH in m ==> 0 !in m[TARGET_PATH]))
    ensures forall p :: !Goes(ts, m, p)
    ensures forall e :: NoTarget(ts, m, e) <==>
      e == if BadTarget(m) then BADPHANDLE else if TARGET_PATH !in m then BADOVERLAY else READS_OUTSIDE
  {
    hide FirstWith, GoesAlong, GoesNowhere, HasNone;
    forall text ensures !ByPath(m, text) {
      if ByPath(m, text) { TextScan(m[TARGET_PATH], text); }
    }
  }

  lemma {:induction false} AlongRoot(ts: seq<Tree>, text: seq<u8>)
    requires Absolute(text)
    ensures forall p :: GoesAlong(ts, text, p) <==>
      ts != [] && Along(ts[0], text).Some? && p == [0] + Along(ts[0], text).value
  {
    hide Along, Leads;
    if ts != [] {
      LeadsIff(ts[0], text);
      forall p: seq<nat> | p != [] && p[0] == 0 ensures p == [0] + p[1..] {}
      forall x: seq<nat> ensures ([0] + x)[1..] == x {}
    }
  }

  lemma {:induction false} DestinationText(ts: seq<Tree>, m: map<seq<u8>, seq<u8>>)
    requires NoPhandle(m) && TARGET_PATH in m
    ensures forall p :: Destination(ts, m) == Done(p) <==> Goes(ts, m, p)
    ensures forall e :: Destination(ts, m) == Failed(e) <==> NoTarget(ts, m, e)
  {
    hide FindIn, Along, Goes, NoTarget, GoesAlong, Be32;
    var v := m[TARGET_PATH];
    TextOf(v);
    if ScanNul(v, 0) == |v| {
      DestinationNone(ts, m);
    } else {
      var text := v[..ScanNul(v, 0)];
      DestinationPath(ts, m, text);
      if Absolute(text) { AlongRoot(ts, text); }
    }
  }

  /** Where a fragment goes is decided by its two properties and the tree, and so is the error. */
  lemma {:induction false} DestinationIff(ts: seq<Tree>, m: map<seq<u8>, seq<u8>>)
    ensures forall p :: Destination(ts, m) == Done(p) <==> Goes(ts, m, p)
    ensures forall e :: Destination(ts, m) == Failed(e) <==> NoTarget(ts, m, e)
  {
    hide FindIn, Along, Goes, NoTarget, GoesAlong, Be32;
    if BadTarget(m) || (NoPhandle(m) && TARGET_PATH !in m) {
      DestinationNone(ts, m);
    } else if NoPhandle(m) {
      DestinationText(ts, m);
    } else {
      DestinationPhandle(ts, m, Be32(m[TARGET], 0));
    }
  }

  lemma {:induction false} PropAt(s: seq<u8>, off: nat, n: Forest, st: seq<u8>, name: seq<u8>)
    requires At(s, off, n) && n.Node?
    ensures var p := GetProp(s, st, off, name);
      if name in Props(n.kids, st) then
        var v := Props(n.kids, st)[name];
        0 <= p && p + 12 + |v| <= |s| && Be32(s, p + 4) == |v| && s[p + 12..p + 12 + |v|] == v
      else p == NOTFOUND
  {
    hide At, TokAt, TokWords, Words, Be32, GetProp, FindProp, PropCtx, PropFocus, Props, Str, Offset, Plug;
    var i := off + TokSize(Head(n));
    AtIff(s, off, n);
    GetPropIs(s, off, n, st, name);
    PropCtxIs(n.kids, i, st, name);
    var d, g := PropCtx(n.kids, st, name), PropFocus(n.kids, st, name);
    if name in Props(n.kids, st) {
      AtPlug(s, i, d, g);
      AtIff(s, i + Offset(d), g);
      PropWords(s, i + Offset(d), Head(g));
    }
  }

  /** fdt_getprop. */
  method ReadProp(s: seq<u8>, st: seq<u8>, node: nat, name: seq<u8>, ghost n: Forest) returns (v: Option<seq<u8>>)
    requires At(s, node, n) && n.Node?
    ensures v == ValueOf(Props(n.kids, st), name)
  {
    hide At, Be32, GetProp, Props;
    PropAt(s, node, n, st, name);
    var p := GetPropLoop(s, st, node, name);
    if p < 0 { return None; }
    return Some(s[p + 12..p + 12 + Be32(s, p + 4)]);
  }

  /** fdt_overlay_target_offset for the base blob `s`, `st` and a fragment of the overlay `so`, `sto`. */
  method TargetOffset(s: seq<u8>, st: seq<u8>, so: seq<u8>, sto: seq<u8>, fragment: nat, ghost b: Forest,
                      ghost g: Forest)
    returns (r: int, ghost pl: Place)
    requires Holds(s, b) && b.Node? && At(so, fragment, g) && g.Node?
    ensures match Destination(Kids(b, st), Props(g.kids, sto))
            case Failed(e) => r == e < 0
            case Done(p) => Is(pl, b) && r == Offset(pl.c) && Position(pl.c) == p
    ensures var ts, m := Kids(b, st), Props(g.kids, sto);
      if r >= 0 then Is(pl, b) && r == Offset(pl.c) && Goes(ts, m, Position(pl.c)) else NoTarget(ts, m, r)
  {
    hide At, Be32, Props, Kids, PhandlePlace, FindIn, Along, PathPlace, Path.LookupPath, Offset, Words, ScanNul, Goes,
      NoTarget;
    DestinationIff(Kids(b, st), Props(g.kids, sto));
    pl := Place(Hole, b);
    PlugHole(b);
    var target := ReadProp(so, sto, fragment, TARGET, g);
    var phandle := TargetPhandle(target);
    if phandle == TWO32 - 1 { return BADPHANDLE, pl; }
    if phandle != 0 {
      PhandlePosition(b, st, phandle);
      r := NodeByPhandle(s, st, phandle, b);
      if r >= 0 { pl := PhandlePlace(b, st, phandle).value; }
      return;
    }
    var path := ReadProp(so, sto, fragment, TARGET_PATH, g);
    if path == None { return BADOVERLAY, pl; }
    var z := ScanNul(path.value, 0);
    if z == |path.value| { return READS_OUTSIDE, pl; }
    if path.value[0] != SLASH { return ALIASED, pl; }
    NulBehind(path.value);
    FirstRoot(b, st);
    PathPlaceIs(s, Hole, b, path.value[..z]);
    PathPosition(Hole, b, path.value[..z], st);
    r := Path.PathOffset(s, path.value[..z]);
    if r >= 0 { pl := PathPlace(Hole, b, path.value[..z]).value; }
  }

  lemma {:induction false} NulBehind(v: seq<u8>)
    requires v != [] && v[0] == SLASH
    ensures ScanNul(v, 0) > 0
  {
  }

  lemma {:induction false} FirstRoot(b: Forest, st: seq<u8>)
    requires b.Node?
    ensures Kids(b, st) != [] && Kids(b, st)[0] == TreeOf(b, st)
  {
  }

  // ---------- overlay_merge ----------

  /** The base after the fragments of a list, each merged into its target, or the error of the first that has none. */
  ghost function MergeAll(ts: seq<Tree>, f: Forest, sto: seq<u8>): Result<seq<Tree>>
    decreases f
  {
    match f
    case Empty => Done(ts)
    case Node(_, _, kids, rest) =>
      var x := ChildFocus(kids, OVERLAY);
      if !x.Node? then MergeAll(ts, rest, sto)
      else (match Destination(ts, Props(kids, sto))
            case Failed(e) => Failed(e)
            case Done(p) => MergeAll(PutIn(ts, p, Merged(NodeIn(ts, p).value, x.kids, sto)), rest, sto))
    case _ => MergeAll(ts, f.rest, sto)
  }

  // ---------- The merge as a run over the fragments ----------

  /** The fragments of a list that hold an overlay. */
  ghost function Fragments(f: Forest): (gs: seq<Forest>)
    ensures forall i :: 0 <= i < |gs| ==> gs[i].Node?
  {
    match f
    case Empty => []
    case Node(_, _, kids, rest) => (if ChildFocus(kids, OVERLAY).Node? then [f] else []) + Fragments(rest)
    case _ => Fragments(f.rest)
  }

  /** One fragment's overlay merged into the node where the fragment goes, and nothing else changed. */
  ghost predicate Merges(ts: seq<Tree>, g: Forest, sto: seq<u8>, us: seq<Tree>)
    requires g.Node?
  {
    exists p :: MergesAt(ts, g, sto, us, p)
  }

  ghost predicate MergesAt(ts: seq<Tree>, g: Forest, sto: seq<u8>, us: seq<Tree>, p: seq<nat>)
    requires g.Node?
  {
    var x := ChildFocus(g.kids, OVERLAY);
    && x.Node? && Goes(ts, Props(g.kids, sto), p) && p != [] && NodeIn(ts, p).Some?
    && Replaced(ts, p, Merged(NodeIn(ts, p).value, x.kids, sto), us)
  }

  /** A run: each fragment merged into what the fragments before it have left. */
  ghost predicate MergeRun(run: seq<seq<Tree>>, gs: seq<Forest>, sto: seq<u8>)
    requires forall i :: 0 <= i < |gs| ==> gs[i].Node?
  {
    |run| == |gs| + 1 && forall i :: 0 <= i < |gs| ==> Merges(run[i], gs[i], sto, run[i + 1])
  }

  /** All fragments are merged, one after the other. */
  ghost predicate MergesTo(ts: seq<Tree>, gs: seq<Forest>, sto: seq<u8>, us: seq<Tree>)
    requires forall i :: 0 <= i < |gs| ==> gs[i].Node?
  {
    exists run :: MergeRun(run, gs, sto) && run[0] == ts && run[|gs|] == us
  }

  /** The fragments are merged up to one that goes nowhere, with this error. */
  ghost predicate StopsWith(ts: seq<Tree>, gs: seq<Forest>, sto: seq<u8>, err: int)
    requires forall i :: 0 <= i < |gs| ==> gs[i].Node?
  {
    exists k, us :: 0 <= k < |gs| && MergesTo(ts, gs[..k], sto, us) && NoTarget(us, Props(gs[k].kids, sto), err)
  }

  lemma {:induction false} RunFirst(ts: seq<Tree>, g: Forest, sto: seq<u8>, us: seq<Tree>, gs: seq<Forest>,
                                    vs: seq<Tree>)
    requires g.Node? && (forall i :: 0 <= i < |gs| ==> gs[i].Node?)
    requires Merges(ts, g, sto, us) && MergesTo(us, gs, sto, vs)
    ensures MergesTo(ts, [g] + gs, sto, vs)
  {
    hide Merges;
    var run :| MergeRun(run, gs, sto) && run[0] == us && run[|gs|] == vs;
    assert MergeRun([ts] + run, [g] + gs, sto);
  }

  /** overlay_merge is the run over its fragments, or stops at the first that goes nowhere. */
  lemma {:induction false} MergeAllIs(ts: seq<Tree>, f: Forest, sto: seq<u8>)
    ensures match MergeAll(ts, f, sto)
      case Done(us) => MergesTo(ts, Fragments(f), sto, us)
      case Failed(e) => StopsWith(ts, Fragments(f), sto, e)
    decreases f
  {
    hide MergesTo, StopsWith, Merges, ChildFocus, Destination, PutIn, NodeIn, Merged, Props;
    match f {
      case Empty => RunNone(ts, sto);
      case Prop(_, _, _, rest) => MergeAllIs(ts, rest, sto);
      case Nop(rest) => MergeAllIs(ts, rest, sto);
      case Node(_, _, kids, rest) =>
        var x := ChildFocus(kids, OVERLAY);
        if !x.Node? {
          MergeAllIs(ts, rest, sto);
          assert [] + Fragments(rest) == Fragments(rest);
        } else {
          DestinationIff(ts, Props(kids, sto));
          match Destination(ts, Props(kids, sto)) {
            case Failed(e) => StopsFirst(ts, f, sto, Fragments(rest), e);
            case Done(p) =>
              var us := PutIn(ts, p, Merged(NodeIn(ts, p).value, x.kids, sto));
              PutReplaces(ts, p, Merged(NodeIn(ts, p).value, x.kids, sto));
              MergesHere(ts, f, sto, us, p);
              MergeAllIs(us, rest, sto);
              match MergeAll(us, rest, sto) {
                case Done(vs) => RunFirst(ts, f, sto, us, Fragments(rest), vs);
                case Failed(e) => StopsLater(ts, f, sto, us, Fragments(rest), e);
              }
          }
        }
    }
  }

  lemma {:induction false} RunNone(ts: seq<Tree>, sto: seq<u8>)
    ensures MergesTo(ts, [], sto, ts)
  {
    assert MergeRun([ts], [], sto);
  }

  lemma {:induction false} MergesHere(ts: seq<Tree>, g: Forest, sto: seq<u8>, us: seq<Tree>, p: seq<nat>)
    requires g.Node? && MergesAt(ts, g, sto, us, p)
    ensures Merges(ts, g, sto, us)
  {
  }

  lemma {:induction false} StopsFirst(ts: seq<Tree>, g: Forest, sto: seq<u8>, gs: seq<Forest>, e: int)
    requires g.Node? && (forall i :: 0 <= i < |gs| ==> gs[i].Node?) && NoTarget(ts, Props(g.kids, sto), e)
    ensures StopsWith(ts, [g] + gs, sto, e)
  {
    hide MergesTo, NoTarget;
    var all := [g] + gs;
    RunNone(ts, sto);
    assert all[..0] == [] && all[0] == g;
  }

  lemma {:induction false} StopsLater(ts: seq<Tree>, g: Forest, sto: seq<u8>, us: seq<Tree>, gs: seq<Forest>, e: int)
    requires g.Node? && (forall i :: 0 <= i < |gs| ==> gs[i].Node?)
    requires Merges(ts, g, sto, us) && StopsWith(us, gs, sto, e)
    ensures StopsWith(ts, [g] + gs, sto, e)
  {
    hide MergesTo, NoTarget, Merges;
    var k, vs :| 0 <= k < |gs| && MergesTo(us, gs[..k], sto, vs) && NoTarget(vs, Props(gs[k].kids, sto), e);
    RunFirst(ts, g, sto, us, gs[..k], vs);
    var all := [g] + gs;
    assert all[..k + 1] == [g] + gs[..k] && all[k + 1] == gs[k];
  }

  /** An overlay with a single fragment is merged into the node where that fragment goes, and changes no other. */
  lemma {:induction false} OneMerge(ts: seq<Tree>, g: Forest, sto: seq<u8>, us: seq<Tree>)
    requires g.Node? && MergesTo(ts, [g], sto, us)
    ensures Merges(ts, g, sto, us)
  {
    hide Merges;
    var run :| MergeRun(run, [g], sto) && run[0] == ts && run[1] == us;
    assert [g][0] == g;
  }

  /** The room that one fragment takes, and all of them up to the first without a target. */
  ghost function FragmentUse(ts: seq<Tree>, kids: Forest, sto: seq<u8>, st: seq<u8>): (u: Use)
    ensures Peaked(u)
  {
    var x := ChildFocus(kids, OVERLAY);
    if !x.Node? then Idle(st)
    else match Destination(ts, Props(kids, sto))
         case Failed(_) => Idle(st)
         case Done(p) => NodeUse(NodeIn(ts, p).value, x.kids, sto, st)
  }

  ghost function AllUse(ts: seq<Tree>, f: Forest, sto: seq<u8>, st: seq<u8>): (u: Use)
    ensures Peaked(u)
    decreases f
  {
    match f
    case Empty => Idle(st)
    case Node(_, _, kids, rest) =>
      (match MergeAll(ts, References.Alone(f), sto)
       case Failed(_) => Idle(st)
       case Done(us) =>
         var u := FragmentUse(ts, kids, sto, st);
         Then(u, AllUse(us, rest, sto, u.st)))
    case _ => AllUse(ts, f.rest, sto, st)
  }

  lemma {:induction false} ChildSizes(f: Forest, name: seq<u8>, sto: seq<u8>)
    requires Ok(f) && ChildFocus(f, name).Node?
    ensures var x := ChildFocus(f, name);
      Ok(x) && Ok(x.kids) && Size(x.kids) + NamesSize(x.kids, sto) <= Size(f) + NamesSize(f, sto)
    decreases f
  {
    hide NameEq, TokWords, NameSize;
    match f {
      case Prop(_, _, _, rest) => ChildSizes(rest, name, sto);
      case Nop(rest) => ChildSizes(rest, name, sto);
      case Node(nm, _, _, rest) => if !NameEq(nm, name) { ChildSizes(rest, name, sto); }
      case Empty =>
    }
  }

  /** All fragments together never take more than the overlay's own size and its property names. */
  lemma {:induction false} AllPeak(ts: seq<Tree>, f: Forest, sto: seq<u8>, st: seq<u8>)
    requires Ok(f)
    ensures AllUse(ts, f, sto, st).peak <= Size(f) + NamesSize(f, sto)
    decreases f
  {
    hide MergeAll, FragmentUse, TokWords, NameSize;
    match f {
      case Empty =>
      case Prop(_, _, _, rest) => AllPeak(ts, rest, sto, st);
      case Nop(rest) => AllPeak(ts, rest, sto, st);
      case Node(_, _, kids, rest) =>
        FragmentPeak(ts, kids, sto, st);
        var r := MergeAll(ts, References.Alone(f), sto);
        if r.Done? { AllPeak(r.value, rest, sto, FragmentUse(ts, kids, sto, st).st); }
    }
  }

  lemma {:induction false} FragmentPeak(ts: seq<Tree>, kids: Forest, sto: seq<u8>, st: seq<u8>)
    requires Ok(kids)
    ensures FragmentUse(ts, kids, sto, st).peak <= Size(kids) + NamesSize(kids, sto)
  {
    hide ChildFocus, Destination, NodeUse, NodeIn, Props, Words, NamesSize;
    var x := ChildFocus(kids, OVERLAY);
    if x.Node? {
      ChildSizes(kids, OVERLAY, sto);
      match Destination(ts, Props(kids, sto)) {
        case Failed(_) =>
        case Done(p) => PeakBound(NodeIn(ts, p).value, x.kids, sto, st);
      }
    }
  }

  /**
   What overlay_merge returns: NOSPACE exactly when the blob cannot hold the peak, otherwise the first other error.
   */
  ghost function MergeErr(ts: seq<Tree>, f: Forest, sto: seq<u8>, st: seq<u8>, h: Header): int {
    if Data(h) + AllUse(ts, f, sto, st).peak > h.totalsize then NOSPACE else ResultErr(MergeAll(ts, f, sto))
  }

  lemma {:induction false} ErrIs(ts: seq<Tree>, f: Forest, sto: seq<u8>, st: seq<u8>, h: Header)
    ensures var err := MergeErr(ts, f, sto, st, h); err == NOSPACE || err == ResultErr(MergeAll(ts, f, sto))
  {
    hide AllUse, MergeAll;
  }

  /** The same, once it is known whether there is room. */
  lemma {:induction false} FailedErr(ts: seq<Tree>, f: Forest, sto: seq<u8>, st: seq<u8>, h: Header)
    ensures forall err, h', st' :: Took(AllUse(ts, f, sto, st), err, h, h', st') ==>
      MergeErr(ts, f, sto, st, h) == if err != 0 then NOSPACE else ResultErr(MergeAll(ts, f, sto))
  {
    hide AllUse, MergeAll;
  }

  /** A base blob as a whole: one list of nodes from the start of the structure block on. */
  lemma {:induction false} WholeIff(fdt: Fdt, pl: Place, b: Forest)
    requires fdt.Valid() && Is(pl, b)
    ensures fdt.Encodes(Hole, b) <==> fdt.Encodes(pl.c, pl.n) && b.Node?
  {
    hide Plug, Holds, Check.Named, Struct, Strings;
    PlugHole(b);
    OkPlug(pl.c, pl.n);
  }

  lemma {:induction false} StillNode(c: Ctx, n: Forest, m: Forest)
    requires n.Node? && m.Node? && Plug(c, n).Node?
    ensures Plug(c, m).Node?
  {
  }

  /** What merging into a place does to the whole base tree. */
  lemma {:induction false} MergedWhole(c: Ctx, n: Forest, m: Forest, st: seq<u8>, st': seq<u8>)
    requires n.Node? && m.Node? && m.rest == n.rest && Check.Named(Plug(c, n), st) && Extends(st, st')
    ensures NodeIn(Kids(Plug(c, n), st), Position(c)) == Some(TreeOf(n, st))
    ensures Kids(Plug(c, m), st') == PutIn(Kids(Plug(c, n), st), Position(c), TreeOf(m, st'))
  {
    hide Plug, Kids, Props, Position, NodeIn, PutIn, Extends, Check.Named;
    PositionIs(c, n, st);
    ExtendsKeeps(Plug(c, n), st, st');
    RefillPuts(c, n, m, st');
  }

  /** One turn of the loop: a fragment, if it has an overlay, merged into its target. */
  method MergeFragment(fdt: Fdt, so: seq<u8>, sto: seq<u8>, fragment: nat, ghost b: Forest, ghost g: Forest)
    returns (err: int, ghost b2: Forest)
    requires fdt.Valid() && fdt.Encodes(Hole, b) && At(so, fragment, g) && g.Node? && Check.Named(g.kids, sto)
    requires |so| <= 0x7fff_0000 && |sto| <= INT_MAX
    modifies fdt, fdt.mem, fdt.mem.data
    ensures fdt.Valid() && fdt.Encodes(Hole, b2) && fdt.h.totalsize == old(fdt.h).totalsize
    ensures Rsv(fdt.h, fdt.mem.bytes) == old(Rsv(fdt.h, fdt.mem.bytes))
    ensures Extends(old(Strings(fdt.h, fdt.mem.bytes)), Strings(fdt.h, fdt.mem.bytes))
    ensures var st := old(Strings(fdt.h, fdt.mem.bytes)); var ts := Kids(b, st);
      var r := MergeAll(ts, References.Alone(g), sto);
      match r
      case Failed(e) => err == e < 0
      case Done(us) =>
        && Took(FragmentUse(ts, g.kids, sto, st), err, old(fdt.h), fdt.h, Strings(fdt.h, fdt.mem.bytes))
        && (err == 0 ==> us == Kids(b2, Strings(fdt.h, fdt.mem.bytes)))
  {
    hide Struct, Strings, Rsv, Plug, Holds, Str, At, TokAt, TokWords, Words, Kids, Props, Check.Named, Ordered, Offset,
      ChildFocus, ChildCtx, FindChild, SubnodeOffset, Extends, Merged, Destination, PutIn, NodeIn, NodeUse, Position;
    var s, st := fdt.Blocks();
    PlugHole(b);
    DataFits(fdt.h, |fdt.mem.bytes|);
    ExtendsSame(st);
    OneFragment(Kids(b, st), g, sto);
    b2 := b;
    ghost var x := ChildFocus(g.kids, OVERLAY);
    OverlayPlace(so, sto, fragment, g);
    var overlay := SubnodeLoop(so, fragment, OVERLAY);
    if overlay == NOTFOUND { return 0, b; }
    if overlay < 0 { return overlay, b; }
    ghost var pl;
    var target;
    target, pl := TargetOffset(s, st, so, sto, fragment, b, g);
    if target < 0 { return target, b; }
    WholeIff(fdt, pl, b);
    ghost var n2;
    err, n2 := ApplyNode(fdt, target, so, sto, overlay, pl.c, pl.n, x);
    StillNode(pl.c, pl.n, n2);
    b2 := Plug(pl.c, n2);
    WholeIff(fdt, Place(pl.c, n2), b2);
    MergedWhole(pl.c, pl.n, n2, st, Strings(fdt.h, fdt.mem.bytes));
  }

  lemma {:induction false} OneFragment(ts: seq<Tree>, g: Forest, sto: seq<u8>)
    requires g.Node?
    ensures MergeAll(ts, References.Alone(g), sto) ==
      var x := ChildFocus(g.kids, OVERLAY);
      if !x.Node? then Done(ts)
      else match Destination(ts, Props(g.kids, sto))
           case Failed(e) => Failed(e)
           case Done(p) => Done(PutIn(ts, p, Merged(NodeIn(ts, p).value, x.kids, sto)))
    ensures MergeAll(ts, g, sto) ==
      match MergeAll(ts, References.Alone(g), sto) case Failed(e) => Failed(e)
        case Done(us) => MergeAll(us, g.rest, sto)
  {
    hide ChildFocus, Destination, PutIn, NodeIn, Merged, Props;
  }

  /** The overlay node of a fragment. */
  lemma {:induction false} OverlayPlace(so: seq<u8>, sto: seq<u8>, fragment: nat, g: Forest)
    requires At(so, fragment, g) && g.Node? && Check.Named(g.kids, sto) && |so| <= 0x7fff_0000 && |sto| <= INT_MAX
    ensures var x, o := ChildFocus(g.kids, OVERLAY), SubnodeOffset(so, fragment, OVERLAY);
      if x.Node? then o >= 0 && OverlayAt(so, sto, o, x) else o == NOTFOUND
  {
    hide At, TokAt, TokWords, Words, ChildFocus, ChildCtx, FindChild, SubnodeOffset, Plug, Ok, Offset, Check.Named;
    AtIff(so, fragment, g);
    SubnodeFinds(so, fragment, g, OVERLAY);
    var i, d, x := fragment + TokSize(Head(g)), ChildCtx(g.kids, OVERLAY), ChildFocus(g.kids, OVERLAY);
    ChildPlace(g.kids, i, OVERLAY);
    if x.Node? {
      AtPlug(so, i, d, x);
      NamedPlug(d, x, sto);
      References.NamedNode(x, sto);
    }
  }

  lemma {:induction false} FragmentsTail(ts: seq<Tree>, f: Forest, sto: seq<u8>, st: seq<u8>)
    ensures MergeAll(ts, f, sto) == MergeAll(ts, RunTail(f), sto)
      && AllUse(ts, f, sto, st) == AllUse(ts, RunTail(f), sto, st)
    decreases f
  {
    hide ChildFocus, Destination, PutIn, NodeIn, Merged, Props, FragmentUse;
    if f.Prop? || f.Nop? { FragmentsTail(ts, f.rest, sto, st); }
  }

  lemma {:induction false} FragmentsDone(ts: seq<Tree>, f: Forest, off: int, sto: seq<u8>, st: seq<u8>)
    requires Ok(f) && FirstNode(f, off) < 0 <= off
    ensures MergeAll(ts, f, sto) == Done(ts) && AllUse(ts, f, sto, st) == Idle(st)
    decreases f
  {
    hide TokWords, ChildFocus, Destination, PutIn, NodeIn, Merged, Props, FragmentUse;
    if f.Prop? || f.Nop? { FragmentsDone(ts, f.rest, off + TokSize(Head(f)), sto, st); }
  }

  lemma {:induction false} OneUse(ts: seq<Tree>, g: Forest, sto: seq<u8>, st: seq<u8>)
    requires g.Node?
    ensures AllUse(ts, g, sto, st) ==
      match MergeAll(ts, References.Alone(g), sto)
      case Failed(_) => Idle(st)
      case Done(us) =>
        var u := FragmentUse(ts, g.kids, sto, st);
        Then(u, AllUse(us, g.rest, sto, u.st))
  {
    hide MergeAll, FragmentUse;
  }

  /** overlay_merge: the fragments are the subnodes of the overlay's root `o`. */
  method MergeFragments(fdt: Fdt, so: seq<u8>, sto: seq<u8>, ghost b: Forest, ghost o: Forest)
    returns (err: int, ghost b2: Forest)
    requires fdt.Valid() && fdt.Encodes(Hole, b) && OverlayAt(so, sto, 0, o)
    modifies fdt, fdt.mem, fdt.mem.data
    ensures fdt.Valid() && fdt.Encodes(Hole, b2) && fdt.h.totalsize == old(fdt.h).totalsize
    ensures Rsv(fdt.h, fdt.mem.bytes) == old(Rsv(fdt.h, fdt.mem.bytes))
    ensures Extends(old(Strings(fdt.h, fdt.mem.bytes)), Strings(fdt.h, fdt.mem.bytes))
    ensures var st := old(Strings(fdt.h, fdt.mem.bytes)); var ts := Kids(b, st);
      var r := MergeAll(ts, o.kids, sto);
      && err == MergeErr(ts, o.kids, sto, st, old(fdt.h))
      && (err == 0 ==> r == Done(Kids(b2, Strings(fdt.h, fdt.mem.bytes))))
  {
    hide Struct, Strings, Rsv, Plug, Holds, Str, At, TokAt, TokWords, Words, Kids, Props, Check.Named, Ordered, Offset,
      Extends, Destination, MergeAll, AllUse, FragmentUse, Then, Took, Underway, Idle, Data, FirstNode, RunTail,
        NextSubnode, FirstSubnode, NextTag, CursorAt, Merged, MergeChild, MergeKids, MergeProps;
    CursorStart(so, sto, 0, o);
    ghost var st0 := Strings(fdt.h, fdt.mem.bytes);
    ghost var all := MergeAll(Kids(b, st0), o.kids, sto);
    ghost var p, f := TokSize(Head(o)), o.kids;
    ghost var whole, sofar := AllUse(Kids(b, st0), f, sto, st0), Idle(st0);
    Starting(whole, fdt.h, |fdt.mem.bytes|, st0);
    assert 0 + TokSize(Head(o)) == p;
    var fragment := FirstSubnode(so, 0);
    b2 := b;
    ExtendsSame(st0);
    while fragment >= 0
      invariant fdt.Valid() && fdt.Encodes(Hole, b2) && fdt.h.totalsize == old(fdt.h).totalsize
      invariant Rsv(fdt.h, fdt.mem.bytes) == old(Rsv(fdt.h, fdt.mem.bytes))
      invariant Extends(st0, Strings(fdt.h, fdt.mem.bytes))
      invariant 0 <= p && Ok(f) && CursorAt(so, sto, p, f) && fragment == FirstNode(f, p)
      invariant MergeAll(Kids(b2, Strings(fdt.h, fdt.mem.bytes)), f, sto) == all
      invariant var st := Strings(fdt.h, fdt.mem.bytes);
        Underway(sofar, AllUse(Kids(b2, st), f, sto, st), whole, old(fdt.h), fdt.h, st)
      decreases Size(f)
    {
      ghost var st, h := Strings(fdt.h, fdt.mem.bytes), fdt.h;
      ghost var ts, g := Kids(b2, st), RunTail(f);
      CursorNode(so, sto, p, f, []);
      CursorSmaller(so, sto, p, f);
      FragmentsTail(ts, f, sto, st);
      OneFragment(ts, g, sto);
      OneUse(ts, g, sto, st);
      ghost var u := FragmentUse(ts, g.kids, sto, st);
      err, b2 := MergeFragment(fdt, so, sto, fragment, b2, g);
      ExtendsTrans(st0, st, Strings(fdt.h, fdt.mem.bytes));
      ghost var one := MergeAll(ts, References.Alone(g), sto);
      if one.Failed? {
        AllTaken(sofar, whole, old(fdt.h), h, st);
        FailedErr(Kids(b, st0), o.kids, sto, st0, old(fdt.h));
      } else {
        OneMore(sofar, u, AllUse(one.value, g.rest, sto, u.st), whole, old(fdt.h), h, st, err, fdt.h,
          Strings(fdt.h, fdt.mem.bytes));
        FailedErr(Kids(b, st0), o.kids, sto, st0, old(fdt.h));
      }
      if err != 0 { return; }
      sofar := Then(sofar, u);
      p, f := fragment + NodeSize(g), g.rest;
      fragment := NextSubnodeLoop(so, fragment);
    }
    ghost var st := Strings(fdt.h, fdt.mem.bytes);
    FragmentsDone(Kids(b2, st), f, p, sto, st);
    AllTaken(sofar, whole, old(fdt.h), fdt.h, st);
    FailedErr(Kids(b, st0), o.kids, sto, st0, old(fdt.h));
    err := 0;
  }

  lemma {:induction false} CursorSmaller(so: seq<u8>, sto: seq<u8>, p: nat, f: Forest)
    requires CursorAt(so, sto, p, f) && FirstNode(f, p) >= 0
    ensures var g := RunTail(f); g.Node? && Ok(g) && Ok(g.rest) && Size(g.rest) < Size(f)
  {
    hide At, TokAt, TokWords, Words, Check.Named;
    RunTailIs(so, p, f, sto, []);
    AtIff(so, FirstNode(f, p), RunTail(f));
  }

  // ---------- fdt_overlay_apply ----------

  const NO_MAGIC: u32 := TWO32 - 1

  lemma {:induction false} LookupTop(s: seq<u8>, name: seq<u8>)
    requires name != [] && SLASH !in name
    ensures Path.LookupPath(s, [SLASH] + name, 0) == SubnodeOffset(s, 0, name)
  {
    hide SubnodeOffset, Path.LookupPath;
    var names := [name];
    assert Path.Slashed(names) == [SLASH] + name by { assert names[1..] == []; }
    Path.LookupSlashed(s, names, 0);
    assert names[1..] == [];
  }

  /** A child that the tree does not have is not found. */
  lemma {:induction false} NoChild(s: seq<u8>, n: Forest, st: seq<u8>, name: seq<u8>)
    requires At(s, 0, n) && n.Node? && ChildIndex(Kids(n.kids, st), name) < 0
    ensures SubnodeOffset(s, 0, name) == NOTFOUND
  {
    hide At, TokAt, TokWords, Words, ChildFocus, ChildCtx, FindChild, SubnodeOffset, Plug, Ok, Offset, Kids, ChildIndex;
    AtIff(s, 0, n);
    SubnodeFinds(s, 0, n, name);
    ChildPlace(n.kids, TokSize(Head(n)), name);
    ChildTree(n.kids, name, st);
  }

  /** Moving phandles and references changes no child's name. */
  lemma {:induction false} MovedShape(t: Tree, t1: Tree, t2: Tree, f: Forest, sto: seq<u8>, delta: u32, name: seq<u8>)
    requires AdjustTree(t, delta) == Done(t1) && FixTree(t1, f, sto, delta) == Fixed(t2)
    ensures ChildIndex(t2.children, name) == ChildIndex(t.children, name)
  {
    hide AdjustTree, FixTree, ChildIndex;
    AdjustShape(t, delta);
    FixTreeShape(t1, f, sto, delta);
    Local.ShapeKids(t, t1);
    Local.ShapeKids(t1, t2);
    ShapeIndex(t.children, t1.children, name);
    ShapeIndex(t1.children, t2.children, name);
  }

  lemma {:induction false} MagicBlocks(h: Header, m: seq<u8>)
    requires Ordered(h, |m|)
    ensures var h' := h.(magic := NO_MAGIC);
      Ordered(h', |m|) && Struct(h', m) == Struct(h, m) && Strings(h', m) == Strings(h, m) && Rsv(h', m) == Rsv(h, m)
  {
  }

  /** `n1` is the overlay's root after the first pass over `n`. */
  ghost predicate PhandlesDone(bases: seq<Tree>, n: Forest, n1: Forest, sto: seq<u8>)
    requires n.Node?
  {
    && n1.Node? && Ok(n1) && n1.rest == n.rest && InPlace.Revised(n, n1, sto, Fixup.PhandleNames())
    && AdjustTree(TreeOf(n, sto), MaxTrees(bases)) == Done(TreeOf(n1, sto))
  }

  /** `n2` is the overlay's root after both passes, which keep what they promise. */
  ghost predicate PassesDone(bases: seq<Tree>, n: Forest, n1: Forest, n2: Forest, sto: seq<u8>)
    requires n.Node? && n1.Node?
  {
    && n2.Node? && n2.rest == n1.rest && InPlace.Revised(n1, n2, sto, InPlace.AnyName())
    && FixTree(TreeOf(n1, sto), Local.Lists(n1), sto, MaxTrees(bases)) == Fixed(TreeOf(n2, sto))
    && Local.Preserved(bases, TreeOf(n, sto), TreeOf(n2, sto), Local.Lists(n), sto)
  }

  /** The overlay after either pass is determined by the overlay before it, down to what its tree does not show. */
  lemma {:induction false} PassesUnique(bases: seq<Tree>, n: Forest, n1: Forest, n2: Forest, m1: Forest, m2: Forest,
                                        sto: seq<u8>)
    requires n.Node? && PhandlesDone(bases, n, n1, sto) && PhandlesDone(bases, n, m1, sto)
    ensures m1 == n1
    ensures PassesDone(bases, n, n1, n2, sto) && PassesDone(bases, n, m1, m2, sto) ==> m2 == n2
  {
    hide InPlace.Alike, InPlace.SameHidden, Local.Preserved, AdjustTree, FixTree, MaxTrees, Props, Kids, Ok,
      Fixup.PhandleNames, InPlace.AnyName;
    InPlace.Determined(n, n1, m1, sto, Fixup.PhandleNames(), Fixup.PhandleNames());
    InPlace.RevisedKids(n, n1, sto, Fixup.PhandleNames());
    InPlace.RevisedKids(n, m1, sto, Fixup.PhandleNames());
    if PassesDone(bases, n, n1, n2, sto) && PassesDone(bases, n, m1, m2, sto) {
      InPlace.Determined(n1, n2, m2, sto, InPlace.AnyName(), InPlace.AnyName());
      InPlace.RevisedKids(n1, n2, sto, InPlace.AnyName());
      InPlace.RevisedKids(n1, m2, sto, InPlace.AnyName());
    }
  }

  /**
   fdt_overlay_apply for an overlay without __fixups__ and __symbols__: the overlay's phandles and references are
   moved, then its fragments are merged into the base; the magic of a blob that may be damaged is erased.
   */
  method ApplyOverlay(fdt: Fdt, fdto: Fdt, ghost b: Forest, ghost n: Forest)
    returns (err: int, ghost n1: Forest, ghost n2: Forest, ghost b2: Forest)
    requires fdt.Valid() && fdt.Encodes(Hole, b) && fdto.Valid() && fdto.Encodes(Hole, n)
    requires fdt != fdto && fdt.mem != fdto.mem && fdt.mem.data != fdto.mem.data
    requires fdto.h.sizeStruct <= 0x7fff_0000
    requires Local.Selfless(Local.Lists(n), Kids(n.kids, Strings(fdto.h, fdto.mem.bytes)))
    requires var ts := Kids(n.kids, Strings(fdto.h, fdto.mem.bytes));
      ChildIndex(ts, FIXUPS) < 0 && ChildIndex(ts, SYMBOLS) < 0
    modifies fdt, fdt.mem, fdt.mem.data, fdto, fdto.mem, fdto.mem.data
    ensures fdt.Valid() && fdt.Encodes(Hole, b2) && fdto.Valid() && fdto.Encodes(Hole, n2)
    ensures fdto.h == old(fdto.h).(magic := NO_MAGIC) && fdt.h.totalsize == old(fdt.h).totalsize
    ensures err != 0 ==> fdt.h.magic == NO_MAGIC
    ensures Rsv(fdt.h, fdt.mem.bytes) == old(Rsv(fdt.h, fdt.mem.bytes))
    ensures var st, sto := old(Strings(fdt.h, fdt.mem.bytes)), old(Strings(fdto.h, fdto.mem.bytes));
      var bases := Kids(b, st);
      match AdjustTree(TreeOf(n, sto), MaxTrees(bases))
      case Failed(e) => err == e < 0 && b2 == b && fdt.mem.bytes == old(fdt.mem.bytes)
      case Done(t1) =>
        && PhandlesDone(bases, n, n1, sto)
        && var fixed := FixTree(t1, Local.Lists(n1), sto, MaxTrees(bases));
           if !fixed.Fixed? then
             && err == References.FixErr(fixed, n1, 0, sto, References.Reach(old(fdto.h))) < 0
             && b2 == b && fdt.mem.bytes == old(fdt.mem.bytes)
           else
             && PassesDone(bases, n, n1, n2, sto)
             && var r := MergeAll(bases, n2.kids, sto);
                && err == MergeErr(bases, n2.kids, sto, st, old(fdt.h))
                && (err == 0 ==> r == Done(Kids(b2, Strings(fdt.h, fdt.mem.bytes))))
                && (err == 0 ==> MergesTo(bases, Fragments(n2.kids), sto, Kids(b2, Strings(fdt.h, fdt.mem.bytes))))
                && (err != 0 && err != NOSPACE ==> StopsWith(bases, Fragments(n2.kids), sto, err))
  {
    hide Struct, Strings, Rsv, Plug, Holds, Str, At, Kids, Props, Check.Named, Ordered, FixTree, AdjustTree, MaxTrees,
      MergesTo, StopsWith, Fragments,
      References.ValuePlace, InPlace.Alike, InPlace.SameHidden, Local.Selfless, Local.Preserved, References.FixErr,
        Local.Lists, Fixup.PhandleNames, MergeAll, MergeErr, ChildIndex, SubnodeOffset, Path.LookupPath;
    ghost var bases, sto0 := Kids(b, Strings(fdt.h, fdt.mem.bytes)), Strings(fdto.h, fdto.mem.bytes);
    PlugHole(b);
    b2 := b;
    MagicBlocks(fdt.h, fdt.mem.bytes);
    var s, st := fdt.Blocks();
    err, n1, n2 := Local.MoveOverlay(s, st, fdto, b, n);
    MagicBlocks(fdto.h, fdto.mem.bytes);
    if n1.Node? && Ok(n1) {
      References.ErrZero(FixTree(TreeOf(n1, sto0), Local.Lists(n1), sto0, MaxTrees(bases)), n1, 0, sto0,
        References.Reach(fdto.h));
    }
    if err != 0 {
      fdto.h := fdto.h.(magic := NO_MAGIC);
      fdt.h := fdt.h.(magic := NO_MAGIC);
      return;
    }
    var so, sto := fdto.Blocks();
    PlugHole(n2);
    OverlayRoot(so, sto, n2);
    MovedShape(TreeOf(n, sto), TreeOf(n1, sto), TreeOf(n2, sto), Local.Lists(n1), sto, MaxTrees(bases), FIXUPS);
    MovedShape(TreeOf(n, sto), TreeOf(n1, sto), TreeOf(n2, sto), Local.Lists(n1), sto, MaxTrees(bases), SYMBOLS);
    NoChild(so, n2, sto, FIXUPS);
    NoChild(so, n2, sto, SYMBOLS);
    LookupTop(so, FIXUPS);
    var fixups := Path.PathOffset(so, [SLASH] + FIXUPS);
    assert fixups == NOTFOUND;
    err, b2 := MergeFragments(fdt, so, sto, b, n2);
    MergeAllIs(bases, n2.kids, sto);
    ErrIs(bases, n2.kids, sto, st, old(fdt.h));
    MagicBlocks(fdt.h, fdt.mem.bytes);
    if err != 0 {
      fdto.h := fdto.h.(magic := NO_MAGIC);
      fdt.h := fdt.h.(magic := NO_MAGIC);
      return;
    }
    var symbols := SubnodeLoop(so, 0, SYMBOLS);
    assert symbols < 0;
    fdto.h := fdto.h.(magic := NO_MAGIC);
  }

  lemma {:induction false} OverlayRoot(so: seq<u8>, sto: seq<u8>, n: Forest)
    requires Holds(so, n) && n.Node? && Check.Named(n, sto) && |so| <= 0x7fff_0000 && |sto| <= INT_MAX
    ensures OverlayAt(so, sto, 0, n)
  {
    hide At, Be32, Words;
    References.NamedNode(n, sto);
  }
}
