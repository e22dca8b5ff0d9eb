/** What the sequential-write calls say: the tokens they lay down one after the other, and the tree they spell out. */
module Script {
  import opened Bytes
  import opened Structure
  import Check
  import opened Tree

  // ---------- Rows of tokens ----------

  function RowWords(ts: seq<Token>): nat {
    if ts == [] then 0 else TokWords(ts[0]) + RowWords(ts[1..])
  }

  function RowSize(ts: seq<Token>): nat {
    4 * RowWords(ts)
  }

  /** The tokens are encoded one after the other from `off` on. */
  ghost predicate RowAt(s: seq<u8>, off: int, ts: seq<Token>): (b: bool)
    ensures b ==> 0 <= off && Aligned(off)
    decreases |ts|
  {
    if ts == [] then 0 <= off <= |s| && Aligned(off)
    else TokAt(s, off, ts[0]) && RowAt(s, off + TokSize(ts[0]), ts[1..])
  }

  lemma {:induction false} RowFits(s: seq<u8>, off: int, ts: seq<Token>)
    requires RowAt(s, off, ts)
    ensures 0 <= off && off + RowSize(ts) <= |s| && Aligned(off + RowSize(ts))
    decreases |ts|
  {
    hide TokAt, TokWords, Aligned;
    if ts != [] { RowFits(s, off + TokSize(ts[0]), ts[1..]); }
  }

  lemma {:induction false} RowConcat(s: seq<u8>, off: int, a: seq<Token>, b: seq<Token>)
    ensures RowSize(a + b) == RowSize(a) + RowSize(b)
    ensures RowAt(s, off, a + b) <==> RowAt(s, off, a) && RowAt(s, off + RowSize(a), b)
    decreases |a|
  {
    hide TokAt, TokWords, Aligned;
    if a == [] {
      assert a + b == b;
      if RowAt(s, off, b) { RowFits(s, off, b); }
    } else {
      assert (a + b)[1..] == a[1..] + b;
      RowConcat(s, off + TokSize(a[0]), a[1..], b);
    }
  }

  lemma {:induction false} RowMove(s: seq<u8>, off: nat, s': seq<u8>, off': nat, n: nat, ts: seq<Token>)
    requires RowAt(s, off, ts) && Aligned(off') && RowSize(ts) <= n && off + n <= |s| && off' + n <= |s'|
    requires s[off..off + n] == s'[off'..off' + n]
    ensures RowAt(s', off', ts)
    decreases |ts|
  {
    hide TokAt, TokWords, Aligned;
    if ts != [] {
      var k := TokSize(ts[0]);
      TokMove(s, off, s', off', n, ts[0]);
      TokFits(s', off', ts[0]);
      Move(s, off, s', off', n, k, n - k);
      RowMove(s, off + k, s', off' + k, n - k, ts[1..]);
    }
  }

  // ---------- Calls ----------

  /** One successful call in the struct state. */
  datatype Op = BeginNode(name: seq<u8>) | EndNode | Property(name: seq<u8>, val: seq<u8>)

  /** A balanced list of calls: properties and nodes, each node closed. */
  datatype Script =
    | Stop
    | Set(name: seq<u8>, val: seq<u8>, rest: Script)
    | Sub(name: seq<u8>, kids: Script, rest: Script)

  function Ops(p: Script): seq<Op> {
    match p
    case Stop => []
    case Set(name, val, rest) => [Property(name, val)] + Ops(rest)
    case Sub(name, kids, rest) => [BeginNode(name)] + (Ops(kids) + ([EndNode] + Ops(rest)))
  }

  /** The tree that the calls describe: the properties set before the first subnode, and the subnodes. */
  ghost function PropsOf(p: Script): map<seq<u8>, seq<u8>> {
    match p
    case Set(name, val, rest) => PropsOf(rest)[name := val]
    case _ => map[]
  }

  ghost function KidsOf(p: Script): seq<Tree> {
    match p
    case Stop => []
    case Set(_, _, rest) => KidsOf(rest)
    case Sub(name, kids, rest) => [Tree(name, PropsOf(kids), KidsOf(kids))] + KidsOf(rest)
  }

  /** A name is at the offset `o` of the strings, `base` being what the offset 0 stands for. */
  ghost predicate Says(t: Token, op: Op, st: seq<u8>, base: int) {
    match op
    case BeginNode(name) => t.Begin? && t.name == name
    case EndNode => t.End?
    case Property(name, val) => t.PropTok? && t.val == val && Str(st, base + t.nameoff) == Some(name)
  }

  ghost predicate SayAll(ts: seq<Token>, ops: seq<Op>, st: seq<u8>, base: int) {
    |ts| == |ops| && forall i :: 0 <= i < |ts| ==> Says(ts[i], ops[i], st, base)
  }

  ghost function Nth(ts: seq<Token>, i: nat): Token {
    if i < |ts| then ts[i] else End
  }

  ghost function Cut(ts: seq<Token>, i: nat, j: nat): seq<Token> {
    if i <= j <= |ts| then ts[i..j] else []
  }

  /** The forest that the tokens of a balanced list of calls spell out. */
  ghost function Build(p: Script, ts: seq<Token>): Forest
    decreases p
  {
    var t := Nth(ts, 0);
    match p
    case Stop => Empty
    case Set(_, _, rest) => if t.PropTok? then Prop(t.nameoff, t.val, t.pad, Build(rest, Cut(ts, 1, |ts|))) else Empty
    case Sub(_, kids, rest) =>
      var k := |Ops(kids)|;
      if t.Begin? then Node(t.name, t.pad, Build(kids, Cut(ts, 1, 1 + k)), Build(rest, Cut(ts, 2 + k, |ts|))) else Empty
  }

  lemma {:induction false} SayPart(ts: seq<Token>, a: seq<Op>, b: seq<Op>, c: seq<Op>, st: seq<u8>, base: int)
    requires SayAll(ts, a + (b + c), st, base)
    ensures |ts| == |a| + |b| + |c| && SayAll(ts[|a|..|a| + |b|], b, st, base)
  {
    hide Says;
    var ops := a + (b + c);
    forall i | 0 <= i < |b| ensures Says(ts[|a|..|a| + |b|][i], b[i], st, base) {
      assert ops[|a| + i] == b[i] && Says(ts[|a| + i], ops[|a| + i], st, base);
    }
  }

  /** The tokens of a script whose calls they say are the encoding of a forest that reads as the script. */
  lemma {:induction false} BuildIs(p: Script, ts: seq<Token>, s: seq<u8>, off: nat, st: seq<u8>)
    requires SayAll(ts, Ops(p), st, 0) && RowAt(s, off, ts)
    ensures var f := Build(p, ts);
      && At(s, off, f) && Size(f) == RowSize(ts) && Check.Named(f, st)
      && Props(f, st) == PropsOf(p) && Kids(f, st) == KidsOf(p)
    decreases p
  {
    hide TokAt, TokWords, RowAt, RowWords, At, Words, Says, Aligned, Str;
    match p {
      case Stop => BuildStop(ts, s, off, st);
      case Set(name, val, rest) => BuildSet(p, ts, s, off, st);
      case Sub(name, kids, rest) => BuildSub(p, ts, s, off, st);
    }
  }

  lemma {:induction false} BuildStop(ts: seq<Token>, s: seq<u8>, off: nat, st: seq<u8>)
    requires ts == [] && RowAt(s, off, ts)
    ensures At(s, off, Empty) && Size(Empty) == RowSize(ts)
  {
  }

  lemma {:induction false} RowCons(s: seq<u8>, off: int, ts: seq<Token>)
    requires ts != [] && RowAt(s, off, ts)
    ensures TokAt(s, off, ts[0]) && RowAt(s, off + TokSize(ts[0]), ts[1..])
      && RowSize(ts) == TokSize(ts[0]) + RowSize(ts[1..])
  {
    hide TokAt, TokWords, Aligned;
  }

  lemma {:induction false} BuildSet(p: Script, ts: seq<Token>, s: seq<u8>, off: nat, st: seq<u8>)
    requires p.Set? && SayAll(ts, Ops(p), st, 0) && RowAt(s, off, ts)
    ensures var f := Build(p, ts);
      && At(s, off, f) && Size(f) == RowSize(ts) && Check.Named(f, st)
      && Props(f, st) == PropsOf(p) && Kids(f, st) == KidsOf(p)
    decreases p, 0
  {
    hide TokAt, TokWords, RowAt, RowWords, At, Words, Aligned, Str;
    assert Says(ts[0], Ops(p)[0], st, 0);
    hide Says;
    assert Ops(p) == [Ops(p)[0]] + (Ops(p.rest) + []);
    SayPart(ts, [Ops(p)[0]], Ops(p.rest), [], st, 0);
    RowCons(s, off, ts);
    TokFits(s, off, ts[0]);
    BuildIs(p.rest, ts[1..], s, off + TokSize(ts[0]), st);
    assert ts[1..] == Cut(ts, 1, |ts|) == ts[1..1 + |Ops(p.rest)|];
    AtIff(s, off, Build(p, ts));
  }

  lemma {:induction false} SaySub(p: Script, ts: seq<Token>, st: seq<u8>)
    requires p.Sub? && SayAll(ts, Ops(p), st, 0)
    ensures var k := |Ops(p.kids)|;
      && |ts| == 2 + k + |Ops(p.rest)| && ts[0].Begin? && ts[0].name == p.name && ts[1 + k].End?
      && SayAll(ts[1..1 + k], Ops(p.kids), st, 0) && SayAll(ts[2 + k..], Ops(p.rest), st, 0)
  {
    hide Str;
    var k, b, r := |Ops(p.kids)|, [BeginNode(p.name)], Ops(p.rest);
    assert Ops(p)[0] == BeginNode(p.name) && Ops(p)[1 + k] == EndNode;
    assert Says(ts[0], Ops(p)[0], st, 0) && Says(ts[1 + k], EndNode, st, 0);
    hide Says;
    SayPart(ts, b, Ops(p.kids), [EndNode] + r, st, 0);
    assert Ops(p) == (b + Ops(p.kids) + [EndNode]) + (r + []);
    SayPart(ts, b + Ops(p.kids) + [EndNode], r, [], st, 0);
    assert ts[2 + k..] == ts[2 + k..2 + k + |r|];
  }

  lemma {:induction false} RowSub(ts: seq<Token>, k: nat, s: seq<u8>, off: nat)
    requires 2 + k <= |ts| && RowAt(s, off, ts) && ts[1 + k].End?
    ensures var i, n := off + TokSize(ts[0]), RowSize(ts[1..1 + k]);
      && TokAt(s, off, ts[0]) && RowAt(s, i, ts[1..1 + k]) && TokAt(s, i + n, End) && RowAt(s, i + n + 4, ts[2 + k..])
      && RowSize(ts) == TokSize(ts[0]) + n + 4 + RowSize(ts[2 + k..])
  {
    hide TokAt, TokWords, RowAt, RowWords, Aligned;
    var i, a, c := off + TokSize(ts[0]), ts[1..1 + k], ts[1 + k..];
    RowCons(s, off, ts);
    assert ts[1..] == a + c;
    RowConcat(s, i, a, c);
    RowCons(s, i + RowSize(a), c);
    assert c[1..] == ts[2 + k..];
    TokSizes(End);
  }

  lemma {:induction false} BuildSub(p: Script, ts: seq<Token>, s: seq<u8>, off: nat, st: seq<u8>)
    requires p.Sub? && SayAll(ts, Ops(p), st, 0) && RowAt(s, off, ts)
    ensures var f := Build(p, ts);
      && At(s, off, f) && Size(f) == RowSize(ts) && Check.Named(f, st)
      && Props(f, st) == PropsOf(p) && Kids(f, st) == KidsOf(p)
    decreases p, 0
  {
    hide TokAt, TokWords, RowAt, RowWords, At, Words, Aligned, Str, Ops, SayAll, Says;
    var k := |Ops(p.kids)|;
    SaySub(p, ts, st);
    RowSub(ts, k, s, off);
    var a, b, i := ts[1..1 + k], ts[2 + k..], off + TokSize(ts[0]);
    TokFits(s, off, ts[0]);
    BuildIs(p.kids, a, s, i, st);
    BuildIs(p.rest, b, s, i + RowSize(a) + 4, st);
    assert b == Cut(ts, 2 + k, |ts|) && a == Cut(ts, 1, 1 + k);
    AtIff(s, off, Build(p, ts));
  }
}
