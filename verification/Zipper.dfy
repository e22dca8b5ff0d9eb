/** One-hole contexts: a place in a forest, kept while what is at that place changes. */
module Zipper {
  import opened Bytes
  import opened Structure

  /** The way from the start of a sibling list to a hole in it or below it. */
  datatype Ctx =
    | Hole
    | PastProp(nameoff: u32, val: seq<u8>, pad: seq<u8>, c: Ctx)
    | PastNop(c: Ctx)
    | PastNode(name: seq<u8>, npad: seq<u8>, kids: Forest, c: Ctx)
    | Into(name: seq<u8>, npad: seq<u8>, c: Ctx, rest: Forest)

  function Plug(c: Ctx, f: Forest): Forest {
    match c
    case Hole => f
    case PastProp(nameoff, val, pad, d) => Prop(nameoff, val, pad, Plug(d, f))
    case PastNop(d) => Nop(Plug(d, f))
    case PastNode(name, npad, kids, d) => Node(name, npad, kids, Plug(d, f))
    case Into(name, npad, d, rest) => Node(name, npad, Plug(d, f), rest)
  }

  predicate OkC(c: Ctx) {
    Ok(Plug(c, Empty))
  }

  lemma {:induction false} OkPlug(c: Ctx, f: Forest)
    ensures Ok(Plug(c, f)) <==> OkC(c) && Ok(f)
  {
    if !c.Hole? { OkPlug(c.c, f); }
  }

  /** The token that leads one step further into a context. */
  function HeadC(c: Ctx): Token
    requires !c.Hole?
  {
    match c
    case PastProp(nameoff, val, pad, _) => PropTok(nameoff, val, pad)
    case PastNop(_) => NopTok
    case PastNode(name, npad, _, _) => Begin(name, npad)
    case Into(name, npad, _, _) => Begin(name, npad)
  }

  /** The offset of the hole, relative to the start of the whole list. */
  function Offset(c: Ctx): nat
    requires OkC(c)
  {
    match c
    case Hole => 0
    case PastNode(_, _, kids, d) => TokSize(HeadC(c)) + Size(kids) + TokSize(End) + Offset(d)
    case _ => TokSize(HeadC(c)) + Offset(c.c)
  }

  lemma {:induction false} SizePlug(c: Ctx, f: Forest)
    requires OkC(c) && Ok(f)
    ensures Ok(Plug(c, f)) && Offset(c) + Size(f) <= Size(Plug(c, f))
    ensures Size(Plug(c, f)) == Size(Plug(c, Empty)) + Size(f)
  {
    hide TokWords;
    OkPlug(c, f);
    if !c.Hole? { SizePlug(c.c, f); }
  }

  /** Bytes equal before the hole and after it: refilling the hole keeps everything else. */
  predicate Spliced(s: seq<u8>, o: nat, n: nat, s': seq<u8>, n': nat) {
    && o + n <= |s| && o + n' <= |s'| && |s| - n == |s'| - n'
    && s[0..o] == s'[0..o] && s[o + n..|s|] == s'[o + n'..|s'|]
  }

  /** One unfolding of Plug, Offset and Size along a context. */
  lemma {:induction false} PlugStep(c: Ctx, f: Forest)
    requires OkC(c) && Ok(f)
    ensures Ok(Plug(c, f)) && Size(Plug(c, f)) == Size(Plug(c, Empty)) + Size(f)
    ensures c.Hole? ==> Plug(c, f) == f && Offset(c) == 0
    ensures !c.Hole? ==> OkC(c.c) && !Plug(c, f).Empty? && Head(Plug(c, f)) == HeadC(c)
    ensures c.Into? ==> Plug(c, f) == Node(c.name, c.npad, Plug(c.c, f), c.rest)
    ensures c.PastNode? ==> Plug(c, f) == Node(c.name, c.npad, c.kids, Plug(c.c, f))
                            && Offset(c) == NodeSize(Plug(c, f)) + Offset(c.c)
    ensures c.PastProp? || c.PastNop? ==> !Plug(c, f).Node? && Plug(c, f).rest == Plug(c.c, f)
    ensures !c.Hole? && !c.PastNode? ==> Offset(c) == TokSize(HeadC(c)) + Offset(c.c)
  {
    hide TokWords, Words;
    OkPlug(c, f);
    SizePlug(c, f);
    if !c.Hole? { OkPlug(c.c, f); }
  }

  /** What is encoded at the hole of an encoded context. */
  lemma {:induction false} AtPlug(s: seq<u8>, base: nat, c: Ctx, f: Forest)
    requires OkC(c) && Ok(f) && At(s, base, Plug(c, f))
    ensures At(s, base + Offset(c), f)
    decreases c
  {
    hide *;
    PlugStep(c, f);
    if !c.Hole? {
      AtIff(s, base, Plug(c, f));
      var i := if c.PastNode? then base + NodeSize(Plug(c, f)) else base + TokSize(HeadC(c));
      AtPlug(s, i, c.c, f);
    }
  }

  /** Refilling the hole of an encoded context keeps the context. */
  lemma {:induction false} SpliceAt(s: seq<u8>, s': seq<u8>, base: nat, c: Ctx, f: Forest, g: Forest)
    requires OkC(c) && Ok(f) && Ok(g) && At(s, base, Plug(c, f))
    requires Spliced(s, base + Offset(c), Size(f), s', Size(g)) && At(s', base + Offset(c), g)
    ensures At(s', base, Plug(c, g))
    decreases c
  {
    hide *;
    PlugStep(c, f);
    PlugStep(c, g);
    if !c.Hole? {
      PlugStep(c.c, f);
      PlugStep(c.c, g);
      AtIff(s, base, Plug(c, f));
      AtIff(s', base, Plug(c, g));
      SpliceTok(s, s', base + Offset(c), Size(f), Size(g), base, HeadC(c));
      match c {
        case PastNode(_, _, kids, d) =>
          var i, o := base + TokSize(HeadC(c)), base + Offset(c);
          SpliceForest(s, s', o, Size(f), Size(g), i, kids);
          SpliceTok(s, s', o, Size(f), Size(g), i + Size(kids), End);
          SpliceAt(s, s', base + NodeSize(Plug(c, f)), d, f, g);
        case Into(_, _, d, rest) =>
          SpliceAt(s, s', base + TokSize(HeadC(c)), d, f, g);
          var i := base + TokSize(HeadC(c));
          AtFits(s', i, Plug(d, g));
          SizePlug(d, f);
          SpliceInto(s, s', base + Offset(c), Size(f), Size(g), i + Size(Plug(d, f)), i + Size(Plug(d, g)), rest);
        case PastProp(_, _, _, d) => SpliceAt(s, s', base + TokSize(HeadC(c)), d, f, g);
        case PastNop(d) => SpliceAt(s, s', base + TokSize(HeadC(c)), d, f, g);
      }
    }
  }

  lemma {:induction false} SpliceTok(s: seq<u8>, s': seq<u8>, o: nat, n: nat, n': nat, i: nat, t: Token)
    requires TokAt(s, i, t) && i + TokSize(t) <= o && Spliced(s, o, n, s', n')
    ensures TokAt(s', i, t)
  {
    hide TokAt, TokWords;
    TokFits(s, i, t);
    Before(s, s', o, i, TokSize(t));
    TokMove(s, i, s', i, TokSize(t), t);
  }

  lemma {:induction false} SpliceForest(s: seq<u8>, s': seq<u8>, o: nat, n: nat, n': nat, i: nat, f: Forest)
    requires At(s, i, f) && i + Size(f) <= o && Spliced(s, o, n, s', n')
    ensures At(s', i, f)
  {
    hide At, Words;
    AtFits(s, i, f);
    Before(s, s', o, i, Size(f));
    AtMove(s, i, s', i, Size(f), f);
  }

  /** After the hole everything moves by the difference of the sizes. */
  lemma {:induction false} SpliceInto(s: seq<u8>, s': seq<u8>, o: nat, n: nat, n': nat, e: nat, e': nat, rest: Forest)
    requires TokAt(s, e, End) && At(s, e + 4, rest) && Spliced(s, o, n, s', n')
    requires o + n <= e && e' == e - n + n' && Aligned(e')
    ensures TokAt(s', e', End) && At(s', e' + 4, rest)
  {
    hide TokAt, At, Words, Aligned;
    TokFits(s, e, End);
    AtFits(s, e + 4, rest);
    After(s, s', o, n, n', e, 4);
    TokMove(s, e, s', e', 4, End);
    TokFits(s', e', End);
    After(s, s', o, n, n', e + 4, Size(rest));
    AtMove(s, e + 4, s', e' + 4, Size(rest), rest);
  }

  lemma {:induction false} Before(s: seq<u8>, s': seq<u8>, o: nat, i: nat, n: nat)
    requires i + n <= o <= |s| && o <= |s'| && s[0..o] == s'[0..o]
    ensures s[i..i + n] == s'[i..i + n]
  {
    Move(s, 0, s', 0, o, i, n);
  }

  lemma {:induction false} After(s: seq<u8>, s': seq<u8>, o: nat, n: nat, n': nat, i: nat, m: nat)
    requires Spliced(s, o, n, s', n') && o + n <= i && i + m <= |s|
    ensures i - n + n' + m <= |s'| && s[i..i + m] == s'[i - n + n'..i - n + n' + m]
  {
    Move(s, o + n, s', o + n', |s| - o - n, i - o - n, m);
  }

  /** A structure block that encodes `f`: its tokens, then FDT_END, then anything. */
  ghost predicate Holds(s: seq<u8>, f: Forest) {
    |s| <= INT_MAX && At(s, 0, f) && Size(f) + 4 <= |s| && Be32(s, Size(f)) == FDT_END
  }

  lemma {:induction false} HoldsAt(s: seq<u8>, s': seq<u8>, c: Ctx, f: Forest, g: Forest)
    requires OkC(c) && Ok(f) && Ok(g) && At(s, 0, Plug(c, f))
    requires Spliced(s, Offset(c), Size(f), s', Size(g)) && At(s', Offset(c), g)
    ensures At(s', 0, Plug(c, g))
  {
    hide *;
    SpliceAt(s, s', 0, c, f, g);
  }

  /** A splice of the structure block at the hole refills the hole and changes nothing else. */
  lemma {:induction false} HoldsSplice(s: seq<u8>, s': seq<u8>, c: Ctx, f: Forest, g: Forest)
    requires Holds(s, Plug(c, f)) && OkC(c) && Ok(f) && Ok(g) && |s'| <= INT_MAX
    requires Spliced(s, Offset(c), Size(f), s', Size(g)) && At(s', Offset(c), g)
    ensures Holds(s', Plug(c, g))
  {
    hide Be32, TokWords, Plug, Words, At, Ok, Offset;
    HoldsAt(s, s', c, f, g);
    SizePlug(c, f);
    SizePlug(c, g);
    var n := Size(Plug(c, f));
    Move32(s, Offset(c) + Size(f), s', Offset(c) + Size(g), |s| - Offset(c) - Size(f), n - Offset(c) - Size(f));
  }
}
