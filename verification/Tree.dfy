/** The device tree that an encoded forest stands for. */
module Tree {
  import opened Bytes
  import opened Structure
  import opened Zipper
  import Check

  /** A node: its name, its properties by name, and its children in order. */
  datatype Tree = Tree(name: seq<u8>, props: map<seq<u8>, seq<u8>>, children: seq<Tree>)

  /** The properties a lookup can see: the leading run of a node's contents, the first of a name winning. */
  ghost function Props(f: Forest, st: seq<u8>): map<seq<u8>, seq<u8>> {
    match f
    case Prop(nameoff, val, _, rest) =>
      (match Str(st, nameoff) case Some(n) => Props(rest, st)[n := val] case None => Props(rest, st))
    case Nop(rest) => Props(rest, st)
    case _ => map[]
  }

  ghost function Kids(f: Forest, st: seq<u8>): seq<Tree> {
    match f
    case Empty => []
    case Node(name, _, kids, rest) => [Tree(name, Props(kids, st), Kids(kids, st))] + Kids(rest, st)
    case _ => Kids(f.rest, st)
  }

  ghost function TreeOf(f: Forest, st: seq<u8>): Tree
    requires f.Node?
  {
    Tree(f.name, Props(f.kids, st), Kids(f.kids, st))
  }

  /** `st'` extends the strings block `st`. */
  ghost predicate Extends(st: seq<u8>, st': seq<u8>) {
    |st| <= |st'| && st'[0..|st|] == st
  }

  lemma {:induction false} StrExtends(st: seq<u8>, st': seq<u8>, o: int)
    requires Extends(st, st') && Str(st, o).Some?
    ensures Str(st', o) == Str(st, o)
  {
    StrGrow([], st, st'[|st|..], o);
    assert [] + st + st'[|st|..] == st';
  }

  /** Names added to the strings block change nothing in a tree whose names all resolve. */
  lemma {:induction false} ExtendsKeeps(f: Forest, st: seq<u8>, st': seq<u8>)
    requires Check.Named(f, st) && Extends(st, st')
    ensures Check.Named(f, st') && Props(f, st') == Props(f, st) && Kids(f, st') == Kids(f, st)
    decreases f
  {
    hide Extends, Str;
    match f {
      case Empty =>
      case Prop(nameoff, _, _, rest) => StrExtends(st, st', nameoff); ExtendsKeeps(rest, st, st');
      case Nop(rest) => ExtendsKeeps(rest, st, st');
      case Node(_, _, kids, rest) => ExtendsKeeps(kids, st, st'); ExtendsKeeps(rest, st, st');
    }
  }

  /** Two fillings of a hole that read the same make trees that read the same. */
  lemma {:induction false} PlugReads(c: Ctx, f: Forest, g: Forest, st: seq<u8>)
    requires Props(f, st) == Props(g, st) && Kids(f, st) == Kids(g, st)
    ensures Props(Plug(c, f), st) == Props(Plug(c, g), st) && Kids(Plug(c, f), st) == Kids(Plug(c, g), st)
  {
    if !c.Hole? { PlugReads(c.c, f, g, st); }
  }

  lemma {:induction false} NamedPlug(c: Ctx, f: Forest, st: seq<u8>)
    ensures Check.Named(Plug(c, f), st) <==> Check.Named(Plug(c, Empty), st) && Check.Named(f, st)
  {
    if !c.Hole? { NamedPlug(c.c, f, st); }
  }

  // ---------- Composed contexts ----------

  ghost function Compose(c: Ctx, d: Ctx): Ctx {
    match c
    case Hole => d
    case PastProp(nameoff, val, pad, e) => PastProp(nameoff, val, pad, Compose(e, d))
    case PastNop(e) => PastNop(Compose(e, d))
    case PastNode(name, npad, kids, e) => PastNode(name, npad, kids, Compose(e, d))
    case Into(name, npad, e, rest) => Into(name, npad, Compose(e, d), rest)
  }

  lemma {:induction false} PlugCompose(c: Ctx, d: Ctx, f: Forest)
    ensures Plug(Compose(c, d), f) == Plug(c, Plug(d, f))
  {
    if !c.Hole? { PlugCompose(c.c, d, f); }
  }

  lemma {:induction false} OffsetCompose(c: Ctx, d: Ctx)
    requires OkC(Compose(c, d))
    ensures OkC(c) && OkC(d) && Offset(Compose(c, d)) == Offset(c) + Offset(d)
  {
    hide TokWords, Words;
    PlugCompose(c, d, Empty);
    OkPlug(c, Plug(d, Empty));
    if !c.Hole? { OffsetCompose(c.c, d); }
  }
}
