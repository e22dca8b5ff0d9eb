/**
 The structure block: tags as libfdt reads them byte by byte, the tokens they stand for,
 and the forest of properties, NOPs and nodes that a well nested block encodes.
 */
module Structure {
  import opened Bytes

  const FDT_BEGIN_NODE: int := 1
  const FDT_END_NODE: int := 2
  const FDT_PROP: int := 3
  const FDT_NOP: int := 4
  const FDT_END: int := 9

  const NOTFOUND: int := -1
  const EXISTS: int := -2
  const NOSPACE: int := -3
  const BADOFFSET: int := -4
  const BADPHANDLE: int := -6
  const BADSTATE: int := -7
  const TRUNCATED: int := -8
  const BADMAGIC: int := -9
  const BADVERSION: int := -10
  const BADSTRUCTURE: int := -11
  const BADLAYOUT: int := -12
  const INTERNAL: int := -13
  const BADOVERLAY: int := -16
  const NOPHANDLES: int := -17
  const BADFLAGS: int := -18

  /** A tag with the offset of the next one; a negative `next` is an error code and goes with FDT_END. */
  datatype Step = Step(tag: int, next: int)

  /** fdt_offset_ptr on a structure block `s`: is [off, off + len) inside it? */
  predicate InBlock(s: seq<u8>, off: int, len: u32) {
    0 <= off && off + len <= |s|
  }

  /** fdt_next_tag. The property length is added in 32-bit arithmetic and so may wrap. */
  function NextTag(s: seq<u8>, start: int): (r: Step)
    ensures r.next >= 0 ==> r.next >= start >= 0 && InBlock(s, start, 4) && r.tag == Be32(s, start)
    ensures r.next >= 0 ==> r.tag in {FDT_BEGIN_NODE, FDT_END_NODE, FDT_PROP, FDT_NOP, FDT_END}
    ensures r.tag == FDT_PROP ==> InBlock(s, start, 8)
    ensures r.tag == FDT_BEGIN_NODE ==> InBlock(s, start, 5)
    ensures r.next >= 0 ==> Aligned(r.next)
    ensures r.next < 0 ==> r.tag == FDT_END
  {
    if !InBlock(s, start, 4) then Step(FDT_END, TRUNCATED)
    else
      var tag := Be32(s, start);
      if tag == FDT_BEGIN_NODE then
        var z := ScanNul(s, start + 4);
        if z == |s| then Step(FDT_END, BADSTRUCTURE) else Step(tag, TagAlign(z + 1))
      else if tag == FDT_PROP then
        if !InBlock(s, start + 4, 4) then Step(FDT_END, BADSTRUCTURE)
        else
          var span := Add32(12, Be32(s, start + 4));
          if InBlock(s, start, span) then Step(tag, TagAlign(start + span)) else Step(FDT_END, BADSTRUCTURE)
      else if tag == FDT_END || tag == FDT_END_NODE || tag == FDT_NOP then
        Step(tag, TagAlign(start + 4))
      else Step(FDT_END, BADSTRUCTURE)
  }

  /** The source's form of NextTag: the node name is skipped one byte at a time. */
  method NextTagScan(s: seq<u8>, startoffset: int) returns (tag: int, nextoffset: int)
    ensures Step(tag, nextoffset) == NextTag(s, startoffset)
  {
    if !InBlock(s, startoffset, 4) { return FDT_END, TRUNCATED; }
    tag := Be32(s, startoffset);
    var offset := startoffset + 4;
    match tag {
      case 1 =>
        while offset < |s| && s[offset] != 0
          invariant startoffset + 4 <= offset <= |s|
          invariant ScanNul(s, offset) == ScanNul(s, startoffset + 4)
        {
          offset := offset + 1;
        }
        if offset == |s| { return FDT_END, BADSTRUCTURE; }
        offset := offset + 1;
      case 3 =>
        if !InBlock(s, offset, 4) { return FDT_END, BADSTRUCTURE; }
        var span := Add32(12, Be32(s, offset));
        if !InBlock(s, startoffset, span) { return FDT_END, BADSTRUCTURE; }
        offset := startoffset + span;
      case 2 =>
      case 4 =>
      case 9 =>
      case _ => return FDT_END, BADSTRUCTURE;
    }
    nextoffset := TagAlign(offset);
  }

  /** One unfolding of NextTag, for what it accepts. */
  lemma {:induction false} NextTagForm(s: seq<u8>, off: int)
    requires NextTag(s, off).next >= 0
    ensures var t := NextTag(s, off);
      && (t.tag == FDT_BEGIN_NODE ==> ScanNul(s, off + 4) < |s| && t.next == TagAlign(ScanNul(s, off + 4) + 1))
      && (t.tag == FDT_PROP ==> var span := Add32(12, Be32(s, off + 4));
                                off + span <= |s| && t.next == TagAlign(off + span))
      && (t.tag != FDT_BEGIN_NODE && t.tag != FDT_PROP ==> t.next == TagAlign(off + 4))
  {
    hide Be32, ScanNul, TagAlign;
  }

  /** Every accepted tag advances by at least one word, except a property whose length word is 2^32 - 12. */
  lemma {:induction false} NextTagProgress(s: seq<u8>, start: int)
    requires Aligned(start) && NextTag(s, start).next >= 0
    ensures Aligned(NextTag(s, start).next)
    ensures NextTag(s, start).next >= start + 4
            <==> !(Be32(s, start) == FDT_PROP && Be32(s, start + 4) == TWO32 - 12)
  {
    hide Be32;
    var tag := Be32(s, start);
    if tag == FDT_BEGIN_NODE {
      AlignAdd(start, ScanNul(s, start + 4) + 1 - start);
    } else if tag == FDT_PROP {
      AlignAdd(start, Add32(12, Be32(s, start + 4)));
    } else {
      AlignAdd(start, 4);
    }
  }

  // ---------- Tokens ----------

  datatype Token =
    | Begin(name: seq<u8>, pad: seq<u8>)
    | End
    | PropTok(nameoff: u32, val: seq<u8>, pad: seq<u8>)
    | NopTok

  /** What the format asks of a token: names are C strings, lengths fit, padding is to the next word. */
  predicate TokOk(t: Token) {
    match t
    case Begin(name, pad) => 0 !in name && |pad| == PadLen(|name| + 1)
    case PropTok(_, val, pad) => |val| < TWO32 - 12 && |pad| == PadLen(|val|)
    case _ => true
  }

  function TagOf(t: Token): int {
    match t
    case Begin(_, _) => FDT_BEGIN_NODE
    case End => FDT_END_NODE
    case PropTok(_, _, _) => FDT_PROP
    case NopTok => FDT_NOP
  }

  function TokWords(t: Token): (w: nat)
    ensures w >= 1
  {
    match t
    case Begin(name, _) => 1 + (|name| + 4) / 4
    case PropTok(_, val, _) => 3 + (|val| + 3) / 4
    case _ => 1
  }

  function TokSize(t: Token): (n: nat)
    ensures n >= 4
  {
    4 * TokWords(t)
  }

  lemma {:induction false} TokSizes(t: Token)
    ensures t.PropTok? ==> TokSize(t) == 12 + TagAlign(|t.val|) && PadLen(|t.val|) == TagAlign(|t.val|) - |t.val|
    ensures t.Begin? ==>
      TokSize(t) == 4 + TagAlign(|t.name| + 1) && PadLen(|t.name| + 1) == TagAlign(|t.name| + 1) - (|t.name| + 1)
    ensures t.End? || t.NopTok? ==> TokSize(t) == 4
  {
  }

  /** `t` is encoded at `off` of `s`. */
  ghost predicate TokAt(s: seq<u8>, off: int, t: Token): (b: bool)
    ensures b ==> TokOk(t) && 0 <= off && Aligned(off) && off + TokSize(t) <= |s|
  {
    && TokOk(t) && 0 <= off && Aligned(off) && off + TokSize(t) <= |s|
    && Be32(s, off) == TagOf(t)
    && match t
       case Begin(name, pad) =>
         var z := off + 4 + |name|;
         s[off + 4..z] == name && s[z] == 0 && s[z + 1..z + 1 + |pad|] == pad
       case PropTok(nameoff, val, pad) =>
         var v := off + 12;
         Be32(s, off + 4) == |val| && Be32(s, off + 8) == nameoff
         && s[v..v + |val|] == val && s[v + |val|..v + |val| + |pad|] == pad
       case _ => true
  }

  lemma {:induction false} PropWords(s: seq<u8>, off: nat, t: Token)
    requires TokAt(s, off, t) && t.PropTok?
    ensures 12 + |t.val| <= TokSize(t) && off + TokSize(t) <= |s|
    ensures Be32(s, off + 4) == |t.val| && Be32(s, off + 8) == t.nameoff && s[off + 12..off + 12 + |t.val|] == t.val
  {
  }

  lemma {:induction false} NameScan(s: seq<u8>, off: int, name: seq<u8>)
    requires 0 <= off && off + 4 + |name| < |s| && 0 !in name
    requires s[off + 4..off + 4 + |name|] == name && s[off + 4 + |name|] == 0
    ensures ScanNul(s, off + 4) == off + 4 + |name|
  {
    assert forall k :: off + 4 <= k < off + 4 + |name| ==> s[k] == name[k - off - 4];
    ScanNulUnique(s, off + 4, off + 4 + |name|);
  }

  lemma {:induction false} NextTagProp(s: seq<u8>, off: int, t: Token)
    requires TokAt(s, off, t) && t.PropTok?
    ensures NextTag(s, off) == Step(FDT_PROP, off + TokSize(t))
  {
    hide Be32, Aligned;
    AlignAdd(off, 12 + |t.val|);
  }

  lemma {:induction false} NextTagBegin(s: seq<u8>, off: int, t: Token)
    requires TokAt(s, off, t) && t.Begin?
    ensures NextTag(s, off) == Step(FDT_BEGIN_NODE, off + TokSize(t))
  {
    hide Be32, Aligned;
    NameScan(s, off, t.name);
    AlignAdd(off, 4 + |t.name| + 1);
  }

  /** fdt_next_tag reads an encoded token as what it is and steps exactly over it. */
  lemma {:induction false} NextTagAt(s: seq<u8>, off: int, t: Token)
    requires TokAt(s, off, t)
    ensures NextTag(s, off) == Step(TagOf(t), off + TokSize(t))
  {
    hide Be32, Aligned;
    match t {
      case Begin(_, _) => NextTagBegin(s, off, t);
      case PropTok(_, _, _) => NextTagProp(s, off, t);
      case _ => AlignAdd(off, 4);
    }
  }

  /**
   A block that ends inside an encoded token: TRUNCATED inside its tag, BADSTRUCTURE behind that up to the last byte
   that is not padding.
   */
  lemma {:induction false} NextTagCut(s: seq<u8>, off: nat, t: Token, k: nat)
    requires TokAt(s, off, t) && off <= k <= |s|
    ensures k < off + 4 ==> NextTag(s[..k], off) == Step(FDT_END, TRUNCATED)
    ensures t.Begin? && off + 4 <= k <= off + 4 + |t.name| ==> NextTag(s[..k], off) == Step(FDT_END, BADSTRUCTURE)
    ensures t.PropTok? && off + 4 <= k < off + 12 + |t.val| ==> NextTag(s[..k], off) == Step(FDT_END, BADSTRUCTURE)
  {
    hide Be32, Aligned, TagAlign;
    if off + 4 <= k {
      Move32(s[..k], 0, s, 0, k, off);
      if t.Begin? && k <= off + 4 + |t.name| {
        assert forall i :: off + 4 <= i < k ==> s[..k][i] == t.name[i - off - 4];
      }
      if off + 8 <= k { Move32(s[..k], 0, s, 0, k, off + 4); }
    }
  }

  lemma {:induction false} TokMoveBegin(s: seq<u8>, off: nat, s': seq<u8>, off': nat, n: nat, t: Token)
    requires TokAt(s, off, t) && t.Begin? && Aligned(off') && TokSize(t) <= n && off + n <= |s| && off' + n <= |s'|
    requires s[off..off + n] == s'[off'..off' + n]
    ensures TokAt(s', off', t)
  {
    hide Be32, Aligned;
    var l := |t.name|;
    Move32(s, off, s', off', n, 0);
    Move(s, off, s', off', n, 4, l);
    Move1(s, off, s', off', n, 4 + l);
    Move(s, off, s', off', n, 5 + l, |t.pad|);
  }

  lemma {:induction false} TokMoveProp(s: seq<u8>, off: nat, s': seq<u8>, off': nat, n: nat, t: Token)
    requires TokAt(s, off, t) && t.PropTok? && Aligned(off') && TokSize(t) <= n && off + n <= |s| && off' + n <= |s'|
    requires s[off..off + n] == s'[off'..off' + n]
    ensures TokAt(s', off', t)
  {
    hide Be32, Aligned;
    Move32(s, off, s', off', n, 0);
    Move32(s, off, s', off', n, 4);
    Move32(s, off, s', off', n, 8);
    Move(s, off, s', off', n, 12, |t.val|);
    Move(s, off, s', off', n, 12 + |t.val|, |t.pad|);
  }

  /** An encoded token moved elsewhere is still that token. */
  lemma {:induction false} TokMove(s: seq<u8>, off: nat, s': seq<u8>, off': nat, n: nat, t: Token)
    requires TokAt(s, off, t) && Aligned(off') && TokSize(t) <= n && off + n <= |s| && off' + n <= |s'|
    requires s[off..off + n] == s'[off'..off' + n]
    ensures TokAt(s', off', t)
  {
    hide Be32, Aligned;
    match t {
      case Begin(_, _) => TokMoveBegin(s, off, s', off', n, t);
      case PropTok(_, _, _) => TokMoveProp(s, off, s', off', n, t);
      case _ => Move32(s, off, s', off', n, 0);
    }
  }

  // ---------- Forests ----------

  /** A list of siblings, each a property, a NOP or a node with its own list of contents. */
  datatype Forest =
    | Empty
    | Prop(nameoff: u32, val: seq<u8>, pad: seq<u8>, rest: Forest)
    | Nop(rest: Forest)
    | Node(name: seq<u8>, npad: seq<u8>, kids: Forest, rest: Forest)

  predicate Ok(f: Forest) {
    match f
    case Empty => true
    case Prop(nameoff, val, pad, rest) => TokOk(PropTok(nameoff, val, pad)) && Ok(rest)
    case Nop(rest) => Ok(rest)
    case Node(name, npad, kids, rest) => TokOk(Begin(name, npad)) && Ok(kids) && Ok(rest)
  }

  /** The token a nonempty forest starts with. */
  function Head(f: Forest): (t: Token)
    requires Ok(f) && !f.Empty?
    ensures TokOk(t)
  {
    match f
    case Prop(nameoff, val, pad, _) => PropTok(nameoff, val, pad)
    case Nop(_) => NopTok
    case Node(name, npad, _, _) => Begin(name, npad)
  }

  function Words(f: Forest): nat
    requires Ok(f)
  {
    match f
    case Empty => 0
    case Prop(_, _, _, rest) => TokWords(Head(f)) + Words(rest)
    case Nop(rest) => TokWords(NopTok) + Words(rest)
    case Node(_, _, kids, rest) => TokWords(Head(f)) + Words(kids) + TokWords(End) + Words(rest)
  }

  function Size(f: Forest): nat
    requires Ok(f)
  {
    4 * Words(f)
  }

  /** The bytes of a node without the siblings after it. */
  function NodeSize(f: Forest): nat
    requires Ok(f) && f.Node?
  {
    TokSize(Head(f)) + Size(f.kids) + TokSize(End)
  }

  /** The forest is encoded at `off`: its tokens one after the other, each node closed by FDT_END_NODE. */
  ghost predicate At(s: seq<u8>, off: int, f: Forest): (b: bool)
    ensures b ==> Ok(f) && 0 <= off && Aligned(off)
    decreases f
  {
    Ok(f) &&
    match f
    case Empty => 0 <= off <= |s| && Aligned(off)
    case Node(_, _, kids, rest) =>
      var i := off + TokSize(Head(f));
      TokAt(s, off, Head(f)) && At(s, i, kids) && TokAt(s, i + Size(kids), End) && At(s, off + NodeSize(f), rest)
    case _ => TokAt(s, off, Head(f)) && At(s, off + TokSize(Head(f)), f.rest)
  }

  /** One unfolding of At. */
  lemma {:induction false} AtIff(s: seq<u8>, off: int, f: Forest)
    requires Ok(f)
    ensures f.Empty? ==> Size(f) == 0 && At(s, off, f) == (0 <= off <= |s| && Aligned(off))
    ensures f.Node? ==> Ok(f.kids) && Ok(f.rest)
    ensures f.Node? ==> Size(f) == NodeSize(f) + Size(f.rest)
                        && NodeSize(f) == TokSize(Head(f)) + Size(f.kids) + 4 && TokSize(End) == 4
    ensures f.Node? ==> At(s, off, f) == (&& TokAt(s, off, Head(f)) && At(s, off + TokSize(Head(f)), f.kids)
                                          && TokAt(s, off + TokSize(Head(f)) + Size(f.kids), End)
                                          && At(s, off + NodeSize(f), f.rest))
    ensures f.Prop? || f.Nop? ==> Ok(f.rest) && Size(f) == TokSize(Head(f)) + Size(f.rest)
    ensures f.Prop? || f.Nop? ==> At(s, off, f) == (TokAt(s, off, Head(f)) && At(s, off + TokSize(Head(f)), f.rest))
  {
    hide TokAt;
  }

  lemma {:induction false} AtFits(s: seq<u8>, off: int, f: Forest)
    requires At(s, off, f)
    ensures 0 <= off && Aligned(off) && off + Size(f) <= |s| && Aligned(off + Size(f))
    decreases f
  {
    hide *;
    AtIff(s, off, f);
    match f {
      case Empty =>
      case Node(_, _, _, rest) => AtFits(s, off + NodeSize(f), rest);
      case Prop(_, _, _, rest) => AtFits(s, off + TokSize(Head(f)), rest);
      case Nop(rest) => AtFits(s, off + TokSize(Head(f)), rest);
    }
  }

  lemma {:induction false} TokFits(s: seq<u8>, off: int, t: Token)
    requires TokAt(s, off, t)
    ensures TokOk(t) && 0 <= off && Aligned(off) && off + TokSize(t) <= |s| && Aligned(off + TokSize(t))
  {
    hide Be32, TokWords, Aligned;
    AlignedAdd(off, TokWords(t));
  }

  /** An encoded forest moved elsewhere is still that forest. */
  lemma {:induction false} AtMove(s: seq<u8>, off: nat, s': seq<u8>, off': nat, n: nat, f: Forest)
    requires At(s, off, f) && Aligned(off') && Size(f) <= n && off + n <= |s| && off' + n <= |s'|
    requires s[off..off + n] == s'[off'..off' + n]
    ensures At(s', off', f)
    decreases f
  {
    hide *;
    AtIff(s, off, f);
    AtIff(s', off', f);
    if f.Node? {
      AtMoveNode(s, off, s', off', n, f);
    } else if !f.Empty? {
      var h := TokSize(Head(f));
      TokMove(s, off, s', off', n, Head(f));
      TokFits(s', off', Head(f));
      Move(s, off, s', off', n, h, n - h);
      AtMove(s, off + h, s', off' + h, n - h, f.rest);
    }
  }

  lemma {:induction false} AtMoveNode(s: seq<u8>, off: nat, s': seq<u8>, off': nat, n: nat, f: Forest)
    requires At(s, off, f) && f.Node? && Aligned(off') && Size(f) <= n && off + n <= |s| && off' + n <= |s'|
    requires s[off..off + n] == s'[off'..off' + n]
    ensures At(s', off', f)
    decreases f, 0
  {
    hide *;
    AtIff(s, off, f);
    AtIff(s', off', f);
    var h, m := TokSize(Head(f)), NodeSize(f);
    var k := h + Size(f.kids);
    TokMove(s, off, s', off', n, Head(f));
    TokFits(s', off', Head(f));
    Move(s, off, s', off', n, h, n - h);
    AtMove(s, off + h, s', off' + h, n - h, f.kids);
    AtFits(s', off' + h, f.kids);
    Move(s, off, s', off', n, k, n - k);
    TokMove(s, off + k, s', off' + k, n - k, End);
    TokFits(s', off' + k, End);
    Move(s, off, s', off', n, m, n - m);
    AtMove(s, off + m, s', off' + m, n - m, f.rest);
  }
}
