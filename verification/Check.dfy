/** Parsing a structure block back into a forest, and fdt_check_full's walk over its tags. */
module Check {
  import opened Bytes
  import opened Structure

  // ---------- Parsing ----------

  /** The token at `off`, when a tag was accepted there. */
  function ReadTok(s: seq<u8>, off: nat): (t: Token)
    requires NextTag(s, off).next >= 0 && NextTag(s, off).next <= |s|
    requires Be32(s, off) in {FDT_BEGIN_NODE, FDT_PROP}
    requires Be32(s, off) == FDT_PROP ==> Be32(s, off + 4) < TWO32 - 12
    ensures if Be32(s, off) == FDT_PROP then off + 12 <= |s| && t.PropTok? && t.nameoff == Be32(s, off + 8)
      else t.Begin?
  {
    var next := NextTag(s, off).next;
    if Be32(s, off) == FDT_BEGIN_NODE then
      var z := ScanNul(s, off + 4);
      Begin(s[off + 4..z], s[z + 1..next])
    else
      var len := Be32(s, off + 4);
      PropTok(Be32(s, off + 8), s[off + 12..off + 12 + len], s[off + 12 + len..next])
  }

  /** What was read is encoded where it was read. */
  lemma {:induction false} ReadBegin(s: seq<u8>, off: nat)
    requires Aligned(off) && 0 <= NextTag(s, off).next <= |s| && Be32(s, off) == FDT_BEGIN_NODE
    ensures var t := ReadTok(s, off);
            TokAt(s, off, t) && TokOk(t) && off + TokSize(t) == NextTag(s, off).next
  {
    hide Be32, Aligned, NextTag, TagAlign, PadLen, TokWords;
    NextTagForm(s, off);
    TokSizes(ReadTok(s, off));
    var n := ScanNul(s, off + 4) - off - 4;
    AlignAdd(off, 4 * 1 + (n + 1));
    TagAlignShift(1, n + 1);
  }

  lemma {:induction false} ReadProp(s: seq<u8>, off: nat)
    requires Aligned(off) && 0 <= NextTag(s, off).next <= |s| && Be32(s, off) == FDT_PROP
    requires Be32(s, off + 4) < TWO32 - 12
    ensures var t := ReadTok(s, off);
            TokAt(s, off, t) && TokOk(t) && off + TokSize(t) == NextTag(s, off).next
  {
    hide Be32, Aligned, NextTag, TagAlign, PadLen, TokWords;
    NextTagForm(s, off);
    TokSizes(ReadTok(s, off));
    AlignAdd(off, 4 * 3 + Be32(s, off + 4));
    TagAlignShift(3, Be32(s, off + 4));
  }

  datatype Parsed = Parsed(f: Forest, next: nat)

  /**
   Recursive descent over a sibling list; `next` is the offset of the tag that closes it.
   A property whose length word reaches 2^32 - 12 has no reading and fails.
   */
  function Parse(s: seq<u8>, off: nat): (r: Option<Parsed>)
    requires Aligned(off)
    ensures r.Some? ==> off <= r.value.next && Aligned(r.value.next)
    ensures r.Some? ==> NextTag(s, r.value.next).next >= 0 && NextTag(s, r.value.next).tag in {FDT_END, FDT_END_NODE}
    decreases |s| - off
  {
    hide Be32, Aligned;
    var st := NextTag(s, off);
    if st.next < 0 then None
    else if st.tag == FDT_END || st.tag == FDT_END_NODE then Some(Parsed(Empty, off))
    else if st.next > |s| || (st.tag == FDT_PROP && Be32(s, off + 4) >= TWO32 - 12) then None
    else
      NextTagProgress(s, off);
      if st.tag == FDT_NOP then
        var r := Parse(s, st.next);
        if r.None? then None else Some(Parsed(Nop(r.value.f), r.value.next))
      else
        var t := ReadTok(s, off);
        var k := Parse(s, st.next);
        if k.None? then None
        else if st.tag == FDT_PROP then Some(Parsed(Prop(t.nameoff, t.val, t.pad, k.value.f), k.value.next))
        else
          var e := NextTag(s, k.value.next);
          if e.tag != FDT_END_NODE then None
          else
            NextTagProgress(s, k.value.next);
            var r := Parse(s, e.next);
            if r.None? then None else Some(Parsed(Node(t.name, t.pad, k.value.f, r.value.f), r.value.next))
  }

  lemma {:induction false} WordTokAt(s: seq<u8>, off: nat, t: Token)
    requires t.End? || t.NopTok?
    requires Aligned(off) && off + 4 <= |s| && Be32(s, off) == TagOf(t)
    ensures TokAt(s, off, t) && NextTag(s, off).next == off + 4 == off + TokSize(t)
  {
    hide Be32, Aligned;
    AlignAdd(off, 4);
  }

  /** One unfolding of Parse, for what it accepts. */
  lemma {:induction false} ParseStep(s: seq<u8>, off: nat)
    requires Aligned(off) && Parse(s, off).Some?
    ensures var st := NextTag(s, off); var p := Parse(s, off).value;
      && st.next >= 0
      && (p.f.Empty? <==> st.tag in {FDT_END, FDT_END_NODE}) && (p.f.Empty? ==> p.next == off)
      && (p.f.Nop? <==> st.tag == FDT_NOP) && (p.f.Prop? <==> st.tag == FDT_PROP)
         && (p.f.Node? <==> st.tag == FDT_BEGIN_NODE)
      && (!p.f.Empty? ==> off + 4 <= st.next <= |s| && Aligned(st.next) && Parse(s, st.next).Some?)
      && (p.f.Nop? || p.f.Prop? ==> Parse(s, st.next).value == Parsed(p.f.rest, p.next))
      && (p.f.Prop? ==> Be32(s, off + 4) < TWO32 - 12 && ReadTok(s, off) == PropTok(p.f.nameoff, p.f.val, p.f.pad))
      && (p.f.Node? ==>
            var k := Parse(s, st.next).value; var e := NextTag(s, k.next);
            && ReadTok(s, off) == Begin(p.f.name, p.f.npad) && k.f == p.f.kids
            && e.tag == FDT_END_NODE && k.next + 4 <= e.next && Aligned(e.next)
            && Parse(s, e.next) == Some(Parsed(p.f.rest, p.next)))
  {
    hide Be32, Aligned, NextTag, ReadTok;
    var st := NextTag(s, off);
    if st.tag != FDT_END && st.tag != FDT_END_NODE {
      NextTagProgress(s, off);
      if st.tag == FDT_BEGIN_NODE { NextTagProgress(s, Parse(s, st.next).value.next); }
    }
  }

  /** What Parse accepts is the encoding of what it returns. */
  lemma {:induction false} ParseSound(s: seq<u8>, off: nat)
    requires Aligned(off) && Parse(s, off).Some?
    ensures At(s, off, Parse(s, off).value.f)
    ensures Parse(s, off).value.next == off + Size(Parse(s, off).value.f)
    decreases |s| - off
  {
    hide Be32, Aligned, TokAt, TokWords, ReadTok, NextTag, Parse;
    ParseStep(s, off);
    var st, f := NextTag(s, off), Parse(s, off).value.f;
    if !f.Empty? {
      ParseSound(s, st.next);
      if f.Nop? {
        WordTokAt(s, off, NopTok);
      } else if f.Prop? {
        ReadProp(s, off);
      } else {
        ReadBegin(s, off);
        var k := Parse(s, st.next).value;
        WordTokAt(s, k.next, End);
        ParseSound(s, NextTag(s, k.next).next);
      }
    }
  }

  lemma {:induction false} ReadTokIs(s: seq<u8>, off: nat, t: Token)
    requires TokAt(s, off, t) && (t.Begin? || t.PropTok?)
    ensures NextTag(s, off) == Step(TagOf(t), off + TokSize(t)) && off + TokSize(t) <= |s|
    ensures t.PropTok? ==> Be32(s, off + 4) < TWO32 - 12
    ensures ReadTok(s, off) == t
  {
    hide Be32, NextTag, Aligned;
    NextTagAt(s, off, t);
    if t.Begin? { NameScan(s, off, t.name); }
  }

  lemma {:induction false} ParseLeaf(s: seq<u8>, off: nat, t: Token, r: Parsed)
    requires TokAt(s, off, t) && (t.PropTok? || t.NopTok?) && Aligned(off + TokSize(t))
    requires Parse(s, off + TokSize(t)) == Some(r)
    ensures Parse(s, off) ==
      Some(Parsed(if t.PropTok? then Prop(t.nameoff, t.val, t.pad, r.f) else Nop(r.f), r.next))
  {
    hide Be32, Aligned, NextTag, ReadTok, TokAt;
    if t.PropTok? { ReadTokIs(s, off, t); } else { NextTagAt(s, off, t); }
  }

  lemma {:induction false} ParseNode(s: seq<u8>, off: nat, t: Token, k: Parsed, r: Parsed)
    requires TokAt(s, off, t) && t.Begin? && Aligned(off + TokSize(t))
    requires Parse(s, off + TokSize(t)) == Some(k)
    requires TokAt(s, k.next, End) && Aligned(k.next + 4) && Parse(s, k.next + 4) == Some(r)
    ensures Parse(s, off) == Some(Parsed(Node(t.name, t.pad, k.f, r.f), r.next))
  {
    hide Be32, Aligned, NextTag, ReadTok, TokAt;
    ReadTokIs(s, off, t);
    NextTagAt(s, k.next, End);
  }

  lemma {:induction false} ParseEmpty(s: seq<u8>, off: nat)
    requires Aligned(off) && NextTag(s, off).next >= 0 && NextTag(s, off).tag in {FDT_END, FDT_END_NODE}
    ensures Parse(s, off) == Some(Parsed(Empty, off))
  {
  }

  /** Every encoded forest is parsed back: an encoding has one reading. */
  lemma {:induction false} ParseComplete(s: seq<u8>, off: nat, f: Forest)
    requires At(s, off, f)
    requires var e := NextTag(s, off + Size(f)); e.next >= 0 && e.tag in {FDT_END, FDT_END_NODE}
    ensures Parse(s, off) == Some(Parsed(f, off + Size(f)))
    decreases f
  {
    hide Be32, Aligned, NextTag, ReadTok, TokAt, TokWords, At, Ok, Words, Parse;
    AtIff(s, off, f);
    match f {
      case Empty => ParseEmpty(s, off);
      case Prop(_, _, _, rest) =>
        ParseComplete(s, off + TokSize(Head(f)), rest);
        ParseLeaf(s, off, Head(f), Parsed(rest, off + Size(f)));
      case Nop(rest) =>
        ParseComplete(s, off + TokSize(Head(f)), rest);
        ParseLeaf(s, off, Head(f), Parsed(rest, off + Size(f)));
      case Node(_, _, kids, rest) =>
        var i := off + TokSize(Head(f));
        NextTagAt(s, i + Size(kids), End);
        ParseComplete(s, i, kids);
        ParseComplete(s, off + NodeSize(f), rest);
        ParseNode(s, off, Head(f), Parsed(kids, i + Size(kids)), Parsed(rest, off + Size(f)));
    }
  }

  // ---------- fdt_check_full ----------

  /**
   What the walk of fdt_check_full comes to. `Diverges`: the loop meets the same state again and never ends.
   `ReadsOutside`: a property header crosses the end of the structure block and the code reads past it.
   `ReadsNull`: fdt_get_name gives no name for the root, and the code reads through it.
   */
  datatype Verdict = Ret(code: int) | Diverges | ReadsOutside | ReadsNull

  function StrErr(st: seq<u8>, o: int): int {
    if o >= |st| then BADOFFSET else TRUNCATED
  }

  function CheckTags(s: seq<u8>, st: seq<u8>, off: nat, depth: nat, expectEnd: bool): (v: Verdict)
    requires Aligned(off)
    decreases |s| - off
  {
    hide Be32, Aligned;
    var t := NextTag(s, off);
    if t.next < 0 then Ret(t.next)
    else if expectEnd && t.tag != FDT_END then Ret(BADSTRUCTURE)
    else if t.tag == FDT_END then Ret(if depth != 0 then BADSTRUCTURE else 0)
    else if t.tag == FDT_PROP && off + 12 > |s| then ReadsOutside
    else if t.tag == FDT_PROP && Str(st, Be32(s, off + 8)).None? then Ret(StrErr(st, Be32(s, off + 8)))
    else
      NextTagProgress(s, off);
      if t.next == off then Diverges
      else if t.tag == FDT_BEGIN_NODE then
        if depth + 1 > INT_MAX || (depth == 0 && s[off + 4] != 0) then Ret(BADSTRUCTURE)
        else CheckTags(s, st, t.next, depth + 1, expectEnd)
      else if t.tag == FDT_END_NODE then
        if depth == 0 then Ret(BADSTRUCTURE) else CheckTags(s, st, t.next, depth - 1, expectEnd || depth == 1)
      else CheckTags(s, st, t.next, depth, expectEnd)
  }

  /** The walk over a blob that fdt_ro_probe_ refuses: it ends at the first name it asks for. */
  function UnprobedTags(s: seq<u8>, off: nat): (v: Verdict)
    requires Aligned(off)
    decreases |s| - off
  {
    hide Be32, Aligned;
    var t := NextTag(s, off);
    if t.next < 0 then Ret(t.next)
    else if t.tag == FDT_END then Ret(0)
    else if t.tag == FDT_BEGIN_NODE then ReadsNull
    else if t.tag == FDT_END_NODE then Ret(BADSTRUCTURE)
    else if t.tag == FDT_PROP then if off + 12 > |s| then ReadsOutside else Ret(TRUNCATED)
    else
      NextTagProgress(s, off);
      UnprobedTags(s, t.next)
  }

  /** fdt_check_full's loop; `probed` is whether fdt_ro_probe_, which every look at a name starts with, accepts. */
  method CheckLoop(s: seq<u8>, st: seq<u8>, probed: bool) returns (v: Verdict)
    ensures Aligned(0) && v == if probed then CheckTags(s, st, 0, 0, false) else UnprobedTags(s, 0)
  {
    hide Be32, NextTag;
    var nextoffset, depth, expectEnd := 0, 0, false;
    AlignedAdd(0, 0);
    while true
      invariant Aligned(nextoffset) && 0 <= nextoffset && 0 <= depth
      invariant probed ==> CheckTags(s, st, nextoffset, depth, expectEnd) == CheckTags(s, st, 0, 0, false)
      invariant !probed ==> UnprobedTags(s, nextoffset) == UnprobedTags(s, 0) && depth == 0 && !expectEnd
      decreases |s| - nextoffset
    {
      var offset := nextoffset;
      var tag;
      tag, nextoffset := NextTagScan(s, offset);
      if nextoffset < 0 { return Ret(nextoffset); }
      if expectEnd && tag != FDT_END { return Ret(BADSTRUCTURE); }
      if tag == FDT_END { return Ret(if depth != 0 then BADSTRUCTURE else 0); }
      NextTagProgress(s, offset);
      if tag == FDT_BEGIN_NODE {
        depth := depth + 1;
        if depth > INT_MAX { return Ret(BADSTRUCTURE); }
        if depth == 1 {
          if !probed { return ReadsNull; }
          if s[offset + 4] != 0 { return Ret(BADSTRUCTURE); }
        }
      } else if tag == FDT_END_NODE {
        if depth == 0 { return Ret(BADSTRUCTURE); }
        depth := depth - 1;
        if depth == 0 { expectEnd := true; }
      } else if tag == FDT_PROP {
        if offset + 12 > |s| { return ReadsOutside; }
        if !probed { return Ret(TRUNCATED); }
        var nameoff := Be32(s, offset + 8);
        if Str(st, nameoff).None? { return Ret(StrErr(st, nameoff)); }
        if nextoffset == offset { return Diverges; }
      }
    }
  }

  /** Property names all resolve in the strings block. */
  predicate Named(f: Forest, st: seq<u8>) {
    match f
    case Empty => true
    case Prop(nameoff, _, _, rest) => Str(st, nameoff).Some? && Named(rest, st)
    case Nop(rest) => Named(rest, st)
    case Node(_, _, kids, rest) => Named(kids, st) && Named(rest, st)
  }

  /** At the top level: properties and NOPs, then at most one node, nameless and last. */
  predicate RootOk(f: Forest) {
    match f
    case Empty => true
    case Node(name, _, _, rest) => name == [] && rest.Empty?
    case _ => RootOk(f.rest)
  }

  /** No property the walk meets before FDT_END has a length word that wraps 32-bit arithmetic. */
  predicate LensOk(s: seq<u8>, off: nat)
    requires Aligned(off)
    decreases |s| - off
  {
    hide Be32, Aligned;
    var t := NextTag(s, off);
    if t.next < 0 || t.tag == FDT_END then true
    else if t.tag == FDT_PROP && Be32(s, off + 4) >= TWO32 - 12 then false
    else
      NextTagProgress(s, off);
      LensOk(s, t.next)
  }

  /** Every property value the walk meets before FDT_END ends inside the block. */
  predicate ValuesInside(s: seq<u8>, off: nat)
    requires Aligned(off)
    decreases |s| - off
  {
    hide Be32, Aligned;
    var t := NextTag(s, off);
    if t.next < 0 || t.tag == FDT_END then true
    else if t.tag == FDT_PROP && off + 12 + Be32(s, off + 4) > |s| then false
    else
      NextTagProgress(s, off);
      t.next > off && ValuesInside(s, t.next)
  }

  /** The two readings of a sane length agree: values lie inside exactly when no length word wraps. */
  lemma {:induction false} LensAreValues(s: seq<u8>, off: nat)
    requires Aligned(off) && |s| <= INT_MAX
    ensures LensOk(s, off) <==> ValuesInside(s, off)
    decreases |s| - off
  {
    hide Be32, Aligned;
    var t := NextTag(s, off);
    if t.next >= 0 && t.tag != FDT_END {
      NextTagProgress(s, off);
      if t.next > off { LensAreValues(s, t.next); }
    }
  }

  ghost predicate Accepted(s: seq<u8>, st: seq<u8>, off: nat)
    requires Aligned(off)
  {
    && Parse(s, off).Some?
    && NextTag(s, Parse(s, off).value.next).tag == FDT_END
    && RootOk(Parse(s, off).value.f) && Named(Parse(s, off).value.f, st)
  }

  /** One unfolding of Parse at a node, and of the walk at any tag. */
  lemma {:induction false} ParseBegin(s: seq<u8>, off: nat)
    requires Aligned(off) && NextTag(s, off).tag == FDT_BEGIN_NODE
    ensures Aligned(NextTag(s, off).next)
    ensures var i := NextTag(s, off).next;
      if i > |s| || Parse(s, i).None? then Parse(s, off).None?
      else
        var k := Parse(s, i).value; var e := NextTag(s, k.next); var b := ReadTok(s, off);
        if e.tag != FDT_END_NODE then Parse(s, off).None?
        else
          Aligned(e.next) && Parse(s, off) == if Parse(s, e.next).None? then None else
            Some(Parsed(Node(b.name, b.pad, k.f, Parse(s, e.next).value.f), Parse(s, e.next).value.next))
  {
    hide Be32, Aligned, NextTag, ReadTok;
    NextTagProgress(s, off);
    var i := NextTag(s, off).next;
    if Parse(s, i).Some? { NextTagProgress(s, Parse(s, i).value.next); }
  }

  lemma {:induction false} CheckStep(s: seq<u8>, st: seq<u8>, off: nat, d: nat)
    requires Aligned(off) && |s| <= INT_MAX && 4 * d <= off && LensOk(s, off)
    ensures var t := NextTag(s, off); var v := CheckTags(s, st, off, d, false);
      if t.next < 0 then v != Ret(0)
      else if t.tag == FDT_END then v == Ret(0) <==> d == 0
      else
        && off + 4 <= t.next && Aligned(t.next) && LensOk(s, t.next)
        && (t.tag == FDT_NOP ==> v == CheckTags(s, st, t.next, d, false))
        && (t.tag == FDT_PROP ==> off + 12 <= |s| && Be32(s, off + 4) < TWO32 - 12)
        && (t.tag == FDT_PROP ==>
           if Str(st, Be32(s, off + 8)).Some? then v == CheckTags(s, st, t.next, d, false) else v != Ret(0))
        && (t.tag == FDT_BEGIN_NODE ==>
           if d == 0 && s[off + 4] != 0 then v != Ret(0) else v == CheckTags(s, st, t.next, d + 1, false))
        && (t.tag == FDT_END_NODE && d == 0 ==> v != Ret(0))
        && (t.tag == FDT_END_NODE && d >= 1 ==> v == CheckTags(s, st, t.next, d - 1, d == 1))
  {
    hide Be32, Aligned, NextTag;
    var t := NextTag(s, off);
    if t.next >= 0 && t.tag != FDT_END {
      NextTagProgress(s, off);
      NextTagForm(s, off);
    }
  }

  /** Inside a node, the walk passes over a sibling list exactly when it parses and its names resolve. */
  lemma {:induction false} CheckInner(s: seq<u8>, st: seq<u8>, off: nat, d: nat)
    requires Aligned(off) && |s| <= INT_MAX && 1 <= d && 4 * d <= off && LensOk(s, off)
    ensures CheckTags(s, st, off, d, false) == Ret(0) ==>
              && Parse(s, off).Some? && NextTag(s, Parse(s, off).value.next).tag == FDT_END_NODE
              && Named(Parse(s, off).value.f, st)
    ensures Parse(s, off).Some? ==> LensOk(s, Parse(s, off).value.next)
    ensures Parse(s, off).Some? && Named(Parse(s, off).value.f, st) ==>
              CheckTags(s, st, off, d, false) == CheckTags(s, st, Parse(s, off).value.next, d, false)
    decreases |s| - off
  {
    hide Be32, Aligned, NextTag, ReadTok, CheckTags, LensOk;
    CheckStep(s, st, off, d);
    var t := NextTag(s, off);
    if t.next < 0 {
    } else if t.tag == FDT_END || t.tag == FDT_END_NODE {
      ParseEmpty(s, off);
    } else if t.tag == FDT_BEGIN_NODE {
      CheckInnerNode(s, st, off, d);
    } else {
      CheckInner(s, st, t.next, d);
    }
  }

  lemma {:induction false} CheckInnerNode(s: seq<u8>, st: seq<u8>, off: nat, d: nat)
    requires Aligned(off) && |s| <= INT_MAX && 1 <= d && 4 * d <= off && LensOk(s, off)
    requires NextTag(s, off).next >= 0 && NextTag(s, off).tag == FDT_BEGIN_NODE
    ensures CheckTags(s, st, off, d, false) == Ret(0) ==>
              && Parse(s, off).Some? && NextTag(s, Parse(s, off).value.next).tag == FDT_END_NODE
              && Named(Parse(s, off).value.f, st)
    ensures Parse(s, off).Some? ==> LensOk(s, Parse(s, off).value.next)
    ensures Parse(s, off).Some? && Named(Parse(s, off).value.f, st) ==>
              CheckTags(s, st, off, d, false) == CheckTags(s, st, Parse(s, off).value.next, d, false)
    decreases |s| - off, 0
  {
    hide Be32, Aligned, NextTag, ReadTok, CheckTags, LensOk, Parse;
    CheckStep(s, st, off, d);
    ParseBegin(s, off);
    var i := NextTag(s, off).next;
    CheckInner(s, st, i, d + 1);
    if Parse(s, i).Some? {
      var k := Parse(s, i).value;
      if NextTag(s, k.next).tag == FDT_END_NODE {
        CheckStep(s, st, k.next, d + 1);
        CheckInner(s, st, NextTag(s, k.next).next, d);
      }
    }
  }

  /**
   fdt_check_full accepts exactly the blocks that are the encoding of one forest whose top level is sane
   and whose property names resolve, as long as no length word wraps.
   */
  lemma {:induction false} CheckIff(s: seq<u8>, st: seq<u8>, off: nat)
    requires Aligned(off) && |s| <= INT_MAX && LensOk(s, off)
    ensures CheckTags(s, st, off, 0, false) == Ret(0) <==> Accepted(s, st, off)
    decreases |s| - off
  {
    hide Be32, Aligned, NextTag, ReadTok, CheckTags, LensOk;
    CheckStep(s, st, off, 0);
    var t := NextTag(s, off);
    if t.next < 0 {
    } else if t.tag == FDT_END || t.tag == FDT_END_NODE {
      ParseEmpty(s, off);
    } else if t.tag == FDT_BEGIN_NODE {
      CheckRoot(s, st, off);
    } else {
      CheckIff(s, st, t.next);
    }
  }

  lemma {:induction false} RootName(s: seq<u8>, off: nat)
    requires NextTag(s, off).tag == FDT_BEGIN_NODE && NextTag(s, off).next <= |s|
    ensures ReadTok(s, off).name == [] <==> s[off + 4] == 0
  {
    hide Be32;
    NextTagForm(s, off);
  }

  lemma {:induction false} CheckRoot(s: seq<u8>, st: seq<u8>, off: nat)
    requires Aligned(off) && |s| <= INT_MAX && LensOk(s, off) && NextTag(s, off).tag == FDT_BEGIN_NODE
    ensures CheckTags(s, st, off, 0, false) == Ret(0) <==> Accepted(s, st, off)
  {
    hide Be32, Aligned, NextTag, ReadTok, CheckTags, LensOk, Parse;
    CheckStep(s, st, off, 0);
    ParseBegin(s, off);
    var i := NextTag(s, off).next;
    CheckInner(s, st, i, 1);
    if Parse(s, i).Some? && i <= |s| {
      RootName(s, off);
      var k := Parse(s, i).value;
      var e := NextTag(s, k.next);
      if e.tag == FDT_END_NODE {
        CheckStep(s, st, k.next, 1);
        CheckLast(s, st, k.next);
        if NextTag(s, e.next).next >= 0 && NextTag(s, e.next).tag == FDT_END {
          ParseEmpty(s, e.next);
          assert Named(Empty, st);
        } else if Parse(s, e.next).Some? {
          ParseStep(s, e.next);
        }
      }
    }
  }

  /** After the root node has closed only FDT_END may follow. */
  lemma {:induction false} CheckLast(s: seq<u8>, st: seq<u8>, off: nat)
    requires Aligned(off) && NextTag(s, off).next >= 0 && NextTag(s, off).tag == FDT_END_NODE
    ensures var e := NextTag(s, off).next;
      CheckTags(s, st, off, 1, false) == Ret(0) <==> NextTag(s, e).next >= 0 && NextTag(s, e).tag == FDT_END
  {
    hide Be32, Aligned, NextTag;
    NextTagProgress(s, off);
    assert CheckTags(s, st, off, 1, false) == CheckTags(s, st, NextTag(s, off).next, 0, true);
  }

  /** A block of one property with the given length word, in a root node, and its strings. */
  function WrapBlock(last: u8): seq<u8> {
    [0, 0, 0, 1, 0, 0, 0, 0, 0, 0, 0, 3, 255, 255, 255, last, 0, 0, 0, 2, 0, 0, 0, 9]
  }

  lemma {:induction false} WrapWords(last: u8)
    ensures var s := WrapBlock(last);
      && |s| == 24 && s[4] == 0 && Be32(s, 0) == FDT_BEGIN_NODE && Be32(s, 8) == FDT_PROP
      && Be32(s, 12) == 0xffff_ff00 + last as int && Be32(s, 16) == FDT_END_NODE && Be32(s, 20) == FDT_END
  {
    var s := WrapBlock(last);
    Word(s, 0, 0, 0, 0, 1);
    Word(s, 8, 0, 0, 0, 3);
    Word(s, 12, 255, 255, 255, last);
    Word(s, 16, 0, 0, 0, 2);
    Word(s, 20, 0, 0, 0, 9);
  }

  lemma {:induction false} Word(s: seq<u8>, o: nat, a: u8, b: u8, c: u8, d: u8)
    requires o + 4 <= |s| && s[o] == a && s[o + 1] == b && s[o + 2] == c && s[o + 3] == d
    ensures Be32(s, o) == ((a as int * 256 + b as int) * 256 + c as int) * 256 + d as int
  {
  }

  lemma {:induction false} WrapTags(last: u8)
    requires last >= 244
    ensures var s := WrapBlock(last);
      && |s| == 24 && s[4] == 0 && NextTag(s, 0) == Step(FDT_BEGIN_NODE, 8)
      && NextTag(s, 8) == Step(FDT_PROP, TagAlign(8 + last as int - 244))
      && NextTag(s, 16) == Step(FDT_END_NODE, 20) && NextTag(s, 20) == Step(FDT_END, 24)
      && Be32(s, 12) == 0xffff_ff00 + last as int && Be32(s, 16) == 2
  {
    hide Be32, WrapBlock;
    WrapWords(last);
    ScanNulUnique(WrapBlock(last), 4, 4);
  }

  /** Length words from 2^32 - 7 to 2^32 - 4 are accepted although no such value can lie in the block. */
  lemma {:induction false} WrapAccepted(last: u8, st: seq<u8>)
    requires 249 <= last <= 252 && Str(st, 2).Some?
    ensures Aligned(0) && CheckTags(WrapBlock(last), st, 0, 0, false) == Ret(0)
    ensures !ValuesInside(WrapBlock(last), 0)
  {
    hide Be32, Aligned, WrapBlock, NextTag, Str;
    var s := WrapBlock(last);
    AlignedAdd(0, 0);
    AlignedAdd(0, 2);
    AlignedAdd(0, 4);
    AlignedAdd(0, 5);
    WrapTags(last);
    var a, b, c := 8, 16, 20;
    assert CheckTags(s, st, c, 0, true) == Ret(0);
    assert CheckTags(s, st, b, 1, false) == Ret(0);
    assert CheckTags(s, st, a, 1, false) == Ret(0);
    assert !ValuesInside(s, a);
  }

  /** A length word of 2^32 - 12 makes no progress, and the walk never ends. */
  lemma {:induction false} WrapDiverges(last: u8, st: seq<u8>)
    requires last == 244 && Str(st, 2).Some?
    ensures Aligned(0) && CheckTags(WrapBlock(last), st, 0, 0, false) == Diverges
  {
    hide Be32, Aligned, WrapBlock, NextTag, Str;
    AlignedAdd(0, 0);
    AlignedAdd(0, 2);
    WrapTags(last);
    assert CheckTags(WrapBlock(last), st, 8, 1, false) == Diverges;
  }

  /** An encoded forest with a sane top level and resolvable names is accepted. */
  lemma {:induction false} CheckEncoded(s: seq<u8>, st: seq<u8>, f: Forest)
    requires At(s, 0, f) && NextTag(s, Size(f)) == Step(FDT_END, Size(f) + 4) && |s| <= INT_MAX
    requires RootOk(f) && Named(f, st)
    ensures Aligned(0) && CheckTags(s, st, 0, 0, false) == Ret(0)
  {
    hide At, NextTag, Words, Aligned, Named, RootOk;
    AlignedAdd(0, 0);
    ParseComplete(s, 0, f);
    LensParsed(s, 0);
    CheckIff(s, st, 0);
  }

  lemma {:induction false} LensParsed(s: seq<u8>, off: nat)
    requires Aligned(off) && Parse(s, off).Some?
    ensures LensOk(s, off) <== LensOk(s, Parse(s, off).value.next)
    decreases |s| - off
  {
    hide Be32, Aligned, NextTag, ReadTok, Parse;
    ParseStep(s, off);
    var t, p := NextTag(s, off), Parse(s, off).value;
    if !p.f.Empty? {
      LensParsed(s, t.next);
      if p.f.Node? { LensParsed(s, NextTag(s, Parse(s, t.next).value.next).next); }
    }
  }
}
