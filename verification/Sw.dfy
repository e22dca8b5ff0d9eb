/** Sequential write: a blob laid down call by call, the structure block growing up and the strings growing down. */
module Sw {
  import opened Bytes
  import opened Memory
  import opened Structure
  import Zipper
  import opened Check
  import opened Tree
  import opened Edit
  import opened Blob
  import opened Rw
  import opened Script

  const HDR: int := 48
  const NO_NAME_DEDUP: int := 1

  /** A memory reservation. */
  datatype Entry = Entry(address: u64, size: u64)

  function Put64(x: u64): (b: seq<u8>)
    ensures |b| == 8
  {
    Put32(x / TWO32) + Put32(x % TWO32)
  }

  function EntryBytes(e: Entry): (b: seq<u8>)
    ensures |b| == 16
  {
    Put64(e.address) + Put64(e.size)
  }

  function EntriesBytes(es: seq<Entry>): (b: seq<u8>)
    ensures |b| == 16 * |es|
    decreases |es|
  {
    if es == [] then [] else EntriesBytes(es[..|es| - 1]) + EntryBytes(es[|es| - 1])
  }

  lemma {:induction false} MoreEntries(es: seq<Entry>, e: Entry)
    ensures EntriesBytes(es + [e]) == EntriesBytes(es) + EntryBytes(e)
  {
    hide EntryBytes;
    assert (es + [e])[..|es|] == es;
  }

  // ---------- The blob while it is being written ----------

  /** Header, reservations, structure, a gap, and the strings at the very end. */
  predicate Layout(h: Header, base: nat, n: nat) {
    && h.magic == FDT_SW_MAGIC && h.version == 17 && h.lastComp <= 1 && h.offRsv == HDR
    && HDR <= h.offStruct && h.offStruct + h.sizeStruct + h.sizeStrings <= h.totalsize < INT_MAX
       && base + h.totalsize <= n
    && ((h.offStrings == h.totalsize && HDR + 16 <= h.offStruct)
       || (h.offStrings == 0 && h.sizeStruct == 0 && h.sizeStrings == 0))
  }

  function Entries(m: seq<u8>, base: nat, h: Header): seq<u8>
    requires Layout(h, base, |m|)
  {
    m[base + HDR..base + h.offStruct]
  }

  function Written(m: seq<u8>, base: nat, h: Header): seq<u8>
    requires Layout(h, base, |m|)
  {
    m[base + h.offStruct..base + h.offStruct + h.sizeStruct]
  }

  function Tab(m: seq<u8>, base: nat, h: Header): seq<u8>
    requires Layout(h, base, |m|)
  {
    m[base + h.totalsize - h.sizeStrings..base + h.totalsize]
  }

  /** The bytes say the reservations, the tokens and, through the strings, the calls. */
  ghost predicate Good(m: seq<u8>, base: nat, h: Header, es: seq<Entry>, ts: seq<Token>, ops: seq<Op>) {
    && Layout(h, base, |m|) && Entries(m, base, h) == EntriesBytes(es)
    && RowAt(Written(m, base, h), 0, ts) && RowSize(ts) == h.sizeStruct
    && SayAll(ts, ops, Tab(m, base, h), h.sizeStrings - TWO32)
  }

  /** Writes into the gap change nothing. */
  lemma {:induction false} GoodGap(m: seq<u8>, m': seq<u8>, base: nat, h: Header, es: seq<Entry>, ts: seq<Token>,
                                   ops: seq<Op>, p: nat, n: nat)
    requires Good(m, base, h, es, ts, ops) && Patched(m, m', p, n)
    requires base + h.offStruct + h.sizeStruct <= p && p + n <= base + h.totalsize - h.sizeStrings
    ensures Good(m', base, h, es, ts, ops)
    ensures Entries(m', base, h) == Entries(m, base, h) && Written(m', base, h) == Written(m, base, h)
      && Tab(m', base, h) == Tab(m, base, h)
  {
    hide RowAt, RowWords, SayAll, EntriesBytes;
    var e := base + h.offStruct + h.sizeStruct;
    Untouched(m, m', p, n, base + HDR, base + h.offStruct);
    Untouched(m, m', p, n, base + h.offStruct, e);
    Untouched(m, m', p, n, base + h.totalsize - h.sizeStrings, base + h.totalsize);
  }

  /** One more token, already written into the gap. */
  lemma {:induction false} GoodToken(m: seq<u8>, base: nat, h: Header, es: seq<Entry>, ts: seq<Token>, ops: seq<Op>,
                                     t: Token, op: Op)
    requires Good(m, base, h, es, ts, ops) && h.offStrings == h.totalsize
    requires h.offStruct + h.sizeStruct + TokSize(t) + h.sizeStrings <= h.totalsize
    requires TokAt(m[base + h.offStruct..base + h.offStruct + h.sizeStruct + TokSize(t)], h.sizeStruct, t)
    requires Says(t, op, Tab(m, base, h), h.sizeStrings - TWO32)
    ensures Good(m, base, h.(sizeStruct := h.sizeStruct + TokSize(t)), es, ts + [t], ops + [op])
  {
    hide RowAt, RowWords, Says, EntriesBytes, TokAt, TokWords, Str, Aligned;
    var p, k := base + h.offStruct, h.sizeStruct;
    var s := m[p..p + k + TokSize(t)];
    Slice(m, p, k + TokSize(t), 0, k);
    assert Written(m, base, h)[0..k] == Written(m, base, h);
    AlignedAdd(0, 0);
    RowMove(Written(m, base, h), 0, s, 0, k, ts);
    RowOne(s, k, t);
    RowConcat(s, 0, ts, [t]);
  }

  lemma {:induction false} RowOne(s: seq<u8>, off: nat, t: Token)
    requires TokAt(s, off, t)
    ensures RowAt(s, off, [t]) && RowSize([t]) == TokSize(t)
  {
    hide TokAt, TokWords, Aligned;
    var r := [t];
    assert r[1..] == [] && RowWords(r[1..]) == 0;
    TokFits(s, off, t);
  }

  /** One more name, already written in front of the strings. */
  lemma {:induction false} GoodString(m: seq<u8>, base: nat, h: Header, es: seq<Entry>, ts: seq<Token>, ops: seq<Op>,
                                      name: seq<u8>)
    requires Good(m, base, h, es, ts, ops) && h.offStrings == h.totalsize && 0 !in name
    requires h.offStruct + h.sizeStruct + |name| + 1 + h.sizeStrings <= h.totalsize
    requires var q := base + h.totalsize - h.sizeStrings; m[q - |name| - 1..q] == name + [0]
    ensures var h' := h.(sizeStrings := h.sizeStrings + |name| + 1);
      Good(m, base, h', es, ts, ops) && Str(Tab(m, base, h'), 0) == Some(name)
  {
    hide RowAt, RowWords, EntriesBytes, Str, Says;
    var q, h' := base + h.totalsize - h.sizeStrings, h.(sizeStrings := h.sizeStrings + |name| + 1);
    var st, st' := Tab(m, base, h), Tab(m, base, h');
    assert st' == (name + [0]) + st + [];
    forall i | 0 <= i < |ts| ensures Says(ts[i], ops[i], st', h'.sizeStrings - TWO32) {
      assert Says(ts[i], ops[i], st, h.sizeStrings - TWO32);
      SaysGrow(ts[i], ops[i], name + [0], st, h.sizeStrings - TWO32);
    }
    TailString(st', 0, name);
  }

  lemma {:induction false} SaysGrow(t: Token, op: Op, front: seq<u8>, st: seq<u8>, base: int)
    requires Says(t, op, st, base)
    ensures Says(t, op, front + st + [], |front| + base)
  {
    hide Str;
    if op.Property? { StrGrow(front, st, [], base + t.nameoff); }
  }

  // ---------- fdt_resize ----------

  /** Head and tail where they were and where they are: each keeps its bytes. */
  ghost predicate Relocated(m: seq<u8>, m': seq<u8>, fdt: nat, total: nat, buf: nat, size: nat, head: nat, tail: nat) {
    && |m| == |m'| && head + tail <= total && head + tail <= size && fdt + total <= |m| && buf + size <= |m|
    && m'[buf..buf + head] == m[fdt..fdt + head]
       && m'[buf + size - tail..buf + size] == m[fdt + total - tail..fdt + total]
  }

  lemma {:induction false} HeadFirst(m: seq<u8>, m1: seq<u8>, m2: seq<u8>, fdt: nat, total: nat, buf: nat, size: nat,
                                     head: nat, tail: nat)
    requires head + tail <= total && head + tail <= size && fdt + total <= |m| && buf + size <= |m| && buf <= fdt
    requires Copied(m, m1, buf, fdt, head) && Copied(m1, m2, buf + size - tail, fdt + total - tail, tail)
    ensures Relocated(m, m2, fdt, total, buf, size, head, tail)
  {
    Untouched(m, m1, buf, head, fdt + total - tail, fdt + total);
    Untouched(m1, m2, buf + size - tail, tail, buf, buf + head);
  }

  lemma {:induction false} TailFirst(m: seq<u8>, m1: seq<u8>, m2: seq<u8>, fdt: nat, total: nat, buf: nat, size: nat,
                                     head: nat, tail: nat)
    requires head + tail <= total && head + tail <= size && fdt + total <= |m| && buf + size <= |m| && fdt < buf
    requires Copied(m, m1, buf + size - tail, fdt + total - tail, tail) && Copied(m1, m2, buf, fdt, head)
    ensures Relocated(m, m2, fdt, total, buf, size, head, tail)
  {
    Untouched(m, m1, buf + size - tail, tail, fdt, fdt + head);
    Untouched(m1, m2, buf, head, buf + size - tail, buf + size);
  }

  lemma {:induction false} MoveBoth(m: seq<u8>, m1: seq<u8>, m2: seq<u8>, fdt: nat, total: nat, buf: nat, size: nat,
                                    head: nat, tail: nat)
    requires head + tail <= total && head + tail <= size && fdt + total <= |m| && buf + size <= |m|
    requires if buf <= fdt then
               Copied(m, m1, buf, fdt, head) && Copied(m1, m2, buf + size - tail, fdt + total - tail, tail)
             else
               Copied(m, m1, buf + size - tail, fdt + total - tail, tail) && Copied(m1, m2, buf, fdt, head)
    ensures Relocated(m, m2, fdt, total, buf, size, head, tail)
  {
    hide Copied, Relocated;
    if buf <= fdt {
      HeadFirst(m, m1, m2, fdt, total, buf, size, head, tail);
    } else {
      TailFirst(m, m1, m2, fdt, total, buf, size, head, tail);
    }
  }

  lemma {:induction false} GoodMove(m: seq<u8>, m': seq<u8>, base: nat, buf: nat, h: Header, h': Header,
                                    es: seq<Entry>, ts: seq<Token>, ops: seq<Op>)
    requires Good(m, base, h, es, ts, ops) && h'.totalsize < INT_MAX
    requires Relocated(m, m', base, h.totalsize, buf, h'.totalsize, h.offStruct + h.sizeStruct, h.sizeStrings)
    requires h' == h.(totalsize := h'.totalsize, offStrings := if h.offStrings == 0 then 0 else h'.totalsize)
    ensures Good(m', buf, h', es, ts, ops)
  {
    hide RowAt, RowWords, EntriesBytes, SayAll;
    var head := h.offStruct + h.sizeStruct;
    Move(m, base, m', buf, head, HDR, h.offStruct - HDR);
    Move(m, base, m', buf, head, h.offStruct, h.sizeStruct);
  }

  // ---------- The bytes of one call ----------

  lemma {:induction false} WindowWord(m: seq<u8>, w: nat, n: nat, k: nat)
    requires w + n <= |m| && k + 4 <= n
    ensures Be32(m[w..w + n], k) == Be32(m, w + k)
  {
    var s := m[w..w + n];
    assert s[k] == m[w + k] && s[k + 1] == m[w + k + 1] && s[k + 2] == m[w + k + 2] && s[k + 3] == m[w + k + 3];
  }

  /** A tag and a name written at `w + k`, seen in the window from `w` on. */
  lemma {:induction false} BeginWritten(m: seq<u8>, m1: seq<u8>, m2: seq<u8>, w: nat, k: nat, name: seq<u8>, n: nat)
    returns (pad: seq<u8>)
    requires Aligned(k) && 0 !in name && n == 4 + TagAlign(|name| + 1) && w + k + n <= |m|
    requires Stored(m, m1, w + k, Put32(FDT_BEGIN_NODE)) && Stored(m1, m2, w + k + 4, name + [0])
    ensures Patched(m, m2, w + k, n) && TokSize(Begin(name, pad)) == n && TokAt(m2[w..w + (k + n)], k, Begin(name, pad))
  {
    hide Be32, Put32, TagAlign, TokAt, TokWords, Aligned, PadLen;
    var p, l := w + k, |name| + 1;
    pad := m2[p + 4 + l..p + n];
    TokSizes(Begin(name, pad));
    Widen(m, m1, p, 4, p, n);
    Widen(m1, m2, p + 4, l, p, n);
    PatchedTrans(m, m1, m2, p, n);
    PatchWord(m1, p, FDT_BEGIN_NODE);
    PatchKeeps(m1, m2, p + 4, l, p);
    WindowWord(m2, w, k + n, k);
    Slice(m2, w, k + n, k + 4, k + n);
    assert m2[p + 4..p + n] == m2[p + 4..p + 4 + l] + pad;
    BeginTok(m2[w..w + (k + n)], k, name, pad);
  }

  lemma {:induction false} EndWritten(m0: seq<u8>, m: seq<u8>, w: nat, k: nat)
    requires Aligned(k) && Stored(m0, m, w + k, Put32(FDT_END_NODE))
    ensures w + k + 4 <= |m| && TokAt(m[w..w + (k + 4)], k, End) && Patched(m0, m, w + k, 4)
  {
    hide Be32, Put32, TokAt, Aligned;
    PatchWord(m, w + k, FDT_END_NODE);
    WindowWord(m, w, k + 4, k);
    EndTok(m[w..w + (k + 4)], k);
  }

  /** The header words of a property as fdt_property_placeholder writes them, and then the value. */
  lemma {:induction false} PropWritten(m: seq<u8>, m1: seq<u8>, m2: seq<u8>, m3: seq<u8>, m4: seq<u8>, w: nat, k: nat,
                                       nameoff: u32, val: seq<u8>, n: nat) returns (t: Token)
    requires Aligned(k) && |val| < TWO32 - 12 && n == 12 + TagAlign(|val|) && w + k + n <= |m|
    requires var p := w + k;
      && Stored(m, m1, p, Put32(FDT_PROP)) && Stored(m1, m2, p + 8, Put32(nameoff))
      && Stored(m2, m3, p + 4, Put32(|val|)) && Stored(m3, m4, p + 12, val)
    ensures Patched(m, m4, w + k, n) && t.PropTok? && t.nameoff == nameoff && t.val == val && TokSize(t) == n
    ensures TokAt(m4[w..w + (k + n)], k, t)
  {
    hide Be32, Put32, TagAlign, TokAt, TokWords, Aligned;
    var p := w + k;
    PropWords4(m, m1, m2, m3, m4, p, nameoff, val, n);
    var s := m4[w..w + (k + n)];
    WindowWord(m4, w, k + n, k);
    WindowWord(m4, w, k + n, k + 4);
    WindowWord(m4, w, k + n, k + 8);
    Slice(m4, w, k + n, k + 12, k + 12 + |val|);
    HeadTok(s, k, nameoff, |val|);
    t := TokFrom(s, k, nameoff, |val|);
  }

  lemma {:induction false} PropWords4(m: seq<u8>, m1: seq<u8>, m2: seq<u8>, m3: seq<u8>, m4: seq<u8>, p: nat,
                                      nameoff: u32, val: seq<u8>, n: nat)
    requires |val| < TWO32 - 12 && n == 12 + TagAlign(|val|) && p + n <= |m|
    requires Patched(m, m1, p, 4) && m1[p..p + 4] == Put32(FDT_PROP)
    requires Patched(m1, m2, p + 8, 4) && m2[p + 8..p + 12] == Put32(nameoff)
    requires Patched(m2, m3, p + 4, 4) && m3[p + 4..p + 8] == Put32(|val|)
    requires Patched(m3, m4, p + 12, |val|)
    ensures Patched(m, m4, p, n) && Be32(m4, p) == FDT_PROP && Be32(m4, p + 4) == |val| && Be32(m4, p + 8) == nameoff
  {
    hide Be32, Put32, TagAlign, Patched;
    PatchedSize(m, m1, p, 4);
    PatchedSize(m1, m2, p + 8, 4);
    PatchedSize(m2, m3, p + 4, 4);
    PatchedSize(m3, m4, p + 12, |val|);
    Widen(m, m1, p, 4, p, n);
    Widen(m1, m2, p + 8, 4, p, n);
    Widen(m2, m3, p + 4, 4, p, n);
    Widen(m3, m4, p + 12, |val|, p, n);
    PatchedTrans(m, m1, m2, p, n);
    PatchedTrans(m, m2, m3, p, n);
    PatchedTrans(m, m3, m4, p, n);
    PatchWord(m1, p, FDT_PROP);
    PatchKeeps(m1, m2, p + 8, 4, p);
    PatchKeeps(m2, m3, p + 4, 4, p);
    PatchKeeps(m3, m4, p + 12, |val|, p);
    PatchWord(m2, p + 8, nameoff);
    PatchKeeps(m2, m3, p + 4, 4, p + 8);
    PatchKeeps(m3, m4, p + 12, |val|, p + 8);
    PatchWord(m3, p + 4, |val|);
    PatchKeeps(m3, m4, p + 12, |val|, p + 4);
  }

  // ---------- fdt_finish ----------

  /** A name offset counted from the start of the strings instead of from their end. */
  function RelocTok(t: Token, n: u32): Token {
    if t.PropTok? then PropTok(Add32(t.nameoff, n), t.val, t.pad) else t
  }

  function RelocAll(ts: seq<Token>, n: u32): (r: seq<Token>)
    ensures |r| == |ts|
  {
    seq(|ts|, i requires 0 <= i < |ts| => RelocTok(ts[i], n))
  }

  lemma {:induction false} RelocSay(ts: seq<Token>, ops: seq<Op>, st: seq<u8>)
    requires |st| < TWO32 && SayAll(ts, ops, st, |st| - TWO32)
    ensures SayAll(RelocAll(ts, |st|), ops, st, 0)
  {
    hide Str;
    var r := RelocAll(ts, |st|);
    forall i | 0 <= i < |r| ensures Says(r[i], ops[i], st, 0) {
      assert Says(ts[i], ops[i], st, |st| - TWO32);
    }
  }

  lemma {:induction false} RelocSize(t: Token, n: u32)
    ensures TokSize(RelocTok(t, n)) == TokSize(t)
  {
  }

  /** The first `k` tokens have been corrected, the others not yet; FDT_END comes last. */
  ghost predicate Partly(s: seq<u8>, ts: seq<Token>, k: nat, n: u32)
    requires k <= |ts|
  {
    && RowAt(s, 0, RelocAll(ts[..k], n) + ts[k..]) && RowSize(ts) + 4 == |s| && Be32(s, RowSize(ts)) == FDT_END
    && RowSize(RelocAll(ts[..k], n)) == RowSize(ts[..k])
  }

  lemma {:induction false} PartlyNext(s: seq<u8>, ts: seq<Token>, k: nat, n: u32)
    requires k < |ts| && Partly(s, ts, k, n)
    ensures TokAt(s, RowSize(ts[..k]), ts[k]) && RowSize(ts[..k + 1]) == RowSize(ts[..k]) + TokSize(ts[k])
    ensures RowSize(ts[..k]) + TokSize(ts[k]) + 4 <= |s|
  {
    hide TokAt, TokWords, Be32, Aligned, RelocTok;
    var a, b := RelocAll(ts[..k], n), ts[k..];
    RowConcat(s, 0, a, b);
    RowCons(s, RowSize(a), b);
    assert ts[..k + 1] == ts[..k] + [ts[k]];
    RowConcat(s, 0, ts[..k], [ts[k]]);
    RowOne(s, RowSize(a), ts[k]);
    assert ts == ts[..k + 1] + ts[k + 1..];
    RowConcat(s, 0, ts[..k + 1], ts[k + 1..]);
  }

  lemma {:induction false} PartlyEnd(s: seq<u8>, ts: seq<Token>, k: nat, n: u32)
    requires k == |ts| && Partly(s, ts, k, n)
    ensures RowAt(s, 0, RelocAll(ts, n)) && RowSize(RelocAll(ts, n)) == RowSize(ts) == RowSize(ts[..k])
    ensures NextTag(s, RowSize(ts)) == Step(FDT_END, RowSize(ts) + 4)
  {
    hide TokAt, TokWords, Be32, Aligned, RelocTok, RowAt, RowWords;
    assert ts[..k] == ts && ts[k..] == [] && RelocAll(ts, n) + [] == RelocAll(ts, n);
    RowFits(s, 0, RelocAll(ts, n));
    AlignAdd(RowSize(ts), 4);
  }

  lemma {:induction false} RelocMore(ts: seq<Token>, k: nat, n: u32)
    requires k < |ts|
    ensures RelocAll(ts[..k + 1], n) + ts[k + 1..] == RelocAll(ts[..k], n) + ([RelocTok(ts[k], n)] + ts[k + 1..])
    ensures RelocAll(ts[..k + 1], n) == RelocAll(ts[..k], n) + [RelocTok(ts[k], n)]
    ensures ts[k..] == [ts[k]] + ts[k + 1..]
  {
    hide RelocTok;
  }

  /** One token of a row replaced by one of the same size. */
  lemma {:induction false} RowReplace(s: seq<u8>, s': seq<u8>, a: seq<Token>, t: Token, b: seq<Token>, u: Token)
    requires RowAt(s, 0, a + ([t] + b)) && TokSize(u) == TokSize(t) && TokAt(s', RowSize(a), u)
    requires Patched(s, s', RowSize(a), TokSize(t))
    ensures RowAt(s', 0, a + ([u] + b))
  {
    hide TokAt, TokWords, RowAt, RowWords, Aligned;
    var i, j := RowSize(a), RowSize(a) + TokSize(t);
    RowConcat(s, 0, a, [t] + b);
    RowCons(s, i, [t] + b);
    assert ([t] + b)[1..] == b;
    RowFits(s, 0, a);
    RowFits(s, j, b);
    AlignedAdd(0, 0);
    RowMove(s, 0, s', 0, i, a);
    Untouched(s, s', i, TokSize(t), j, j + RowSize(b));
    RowMove(s, j, s', j, RowSize(b), b);
    RowOne(s', i, u);
    assert [u] + b == [u] + b;
    RowConcat(s', i, [u], b);
    RowConcat(s', 0, a, [u] + b);
  }

  lemma {:induction false} PatchedName(s: seq<u8>, s': seq<u8>, o: nat, t: Token, w: u32)
    requires TokAt(s, o, t) && t.PropTok? && Patched(s, s', o + 8, 4) && s'[o + 8..o + 12] == Put32(w)
    ensures TokAt(s', o, PropTok(w, t.val, t.pad)) && TokSize(PropTok(w, t.val, t.pad)) == TokSize(t)
    ensures Patched(s, s', o, TokSize(t))
  {
    hide Be32, Put32, Aligned, Patched;
    PatchedSize(s, s', o + 8, 4);
    PatchKeeps(s, s', o + 8, 4, o);
    PatchKeeps(s, s', o + 8, 4, o + 4);
    PatchWord(s', o + 8, w);
    Untouched(s, s', o + 8, 4, o + 12, o + 12 + |t.val|);
    Untouched(s, s', o + 8, 4, o + 12 + |t.val|, o + 12 + |t.val| + |t.pad|);
    Widen(s, s', o + 8, 4, o, TokSize(t));
  }

  /** One turn of fdt_finish's walk. */
  lemma {:induction false} PartlyStep(s: seq<u8>, s': seq<u8>, ts: seq<Token>, k: nat, n: u32)
    requires k < |ts| && Partly(s, ts, k, n)
    requires var o, t := RowSize(ts[..k]), ts[k];
      if t.PropTok? then Patched(s, s', o + 8, 4) && s'[o + 8..o + 12] == Put32(Add32(t.nameoff, n)) else s' == s
    ensures Partly(s', ts, k + 1, n)
  {
    hide TokAt, TokWords, RowAt, RowWords, Aligned, Be32, Put32, Patched;
    var a, t, b, u := RelocAll(ts[..k], n), ts[k], ts[k + 1..], RelocTok(ts[k], n);
    var o := RowSize(ts[..k]);
    PartlyNext(s, ts, k, n);
    RelocMore(ts, k, n);
    RelocSize(t, n);
    if t.PropTok? {
      PatchedName(s, s', o, t, Add32(t.nameoff, n));
      PatchedSize(s, s', o + 8, 4);
      TokSizes(t);
      PatchKeeps(s, s', o + 8, 4, RowSize(ts));
      RowReplace(s, s', a, t, b, u);
    }
    hide RelocTok, RelocAll;
    assert TokAt(s', o, u);
    RowOne(s', o, u);
    RowConcat(s', 0, a, [u]);
    RowConcat(s', 0, ts[..k], [t]);
    assert ts[..k + 1] == ts[..k] + [t];
    RowOne(s, o, t);
  }

  /** The result for a name whose copy would start in front of the buffer; real offsets are negative. */
  const OUTSIDE: int := 1

  /** The room test of fdt_add_string_, in 32-bit arithmetic. */
  predicate StringRoom(h: Header, len: nat)
    requires h.sizeStrings + len < TWO32 && h.offStruct + h.sizeStruct < TWO32
  {
    var left := h.totalsize - (h.sizeStrings + len);
    (if left < 0 then left + TWO32 else left) >= h.offStruct + h.sizeStruct
  }

  /** The test tells whether there is room exactly when the strings with the new name are no larger than the buffer. */
  lemma {:induction false} StringRoomIff(h: Header, len: nat)
    requires h.offStruct + h.sizeStruct + h.sizeStrings <= h.totalsize < INT_MAX && len < INT_MAX
    ensures (StringRoom(h, len) <==> h.offStruct + h.sizeStruct + h.sizeStrings + len <= h.totalsize)
            <==> h.sizeStrings + len <= h.totalsize
  {
  }

  class Writer {
    const mem: Buffer
    var base: nat
    var h: Header
    ghost var es: seq<Entry>
    ghost var ts: seq<Token>
    ghost var ops: seq<Op>

    ghost predicate Valid()
      reads this, mem, mem.data
    {
      mem.Valid() && Good(mem.bytes, base, h, es, ts, ops)
    }

    /** fdt_create_with_flags on a buffer that passes its two tests; see Create. */
    constructor (mem: Buffer, base: nat, bufsize: nat, flags: u32)
      requires mem.Valid() && base + bufsize <= |mem.bytes| && HDR <= bufsize < INT_MAX && flags <= 1
      modifies mem, mem.data
      ensures Valid() && this.mem == mem && this.base == base && es == [] && ts == [] && ops == []
      ensures h == Header(FDT_SW_MAGIC, bufsize, HDR, 0, HDR, 17, flags, 0, 0)
      ensures Patched(old(mem.bytes), mem.bytes, base, bufsize)
    {
      this.mem := mem;
      this.base := base;
      h := Header(FDT_SW_MAGIC, bufsize, HDR, 0, HDR, 17, flags, 0, 0);
      es, ts, ops := [], [], [];
      new;
      mem.Store(base, seq(bufsize, _ => 0 as u8));
      AlignedAdd(0, 0);
    }

    /** FDT_SW_PROBE_MEMRSV and FDT_SW_PROBE_STRUCT. */
    predicate InRsv()
      reads this
    {
      h.magic == FDT_SW_MAGIC && h.offStrings == 0
    }

    predicate InStruct()
      reads this
    {
      h.magic == FDT_SW_MAGIC && h.offStrings == h.totalsize
    }

    /** The two copies of fdt_resize, in the order that clobbers nothing. */
    method MoveParts(buf: nat, bufsize: nat, total: nat, headsize: nat, tailsize: nat)
      requires mem.Valid() && headsize + tailsize <= total && headsize + tailsize <= bufsize
      requires base + total <= |mem.bytes| && buf + bufsize <= |mem.bytes|
      modifies mem, mem.data
      ensures mem.Valid() && Relocated(old(mem.bytes), mem.bytes, base, total, buf, bufsize, headsize, tailsize)
    {
      hide Copied, Relocated;
      var oldtail, newtail := base + total - tailsize, buf + bufsize - tailsize;
      ghost var m1;
      if buf <= base {
        mem.Memmove(buf, base, headsize);
        m1 := mem.bytes;
        mem.Memmove(newtail, oldtail, tailsize);
      } else {
        mem.Memmove(newtail, oldtail, tailsize);
        m1 := mem.bytes;
        mem.Memmove(buf, base, headsize);
      }
      MoveBoth(old(mem.bytes), m1, mem.bytes, base, total, buf, bufsize, headsize, tailsize);
    }

    /** fdt_resize, for every placement of the new buffer, overlapping the old one or not. */
    method Resize(buf: nat, bufsize: int) returns (err: int)
      requires Valid() && buf + bufsize <= |mem.bytes| && bufsize < INT_MAX
      modifies this, mem, mem.data
      ensures Valid() && es == old(es) && ts == old(ts) && ops == old(ops)
      ensures err == if bufsize < 0 || old(h).offStruct + old(h).sizeStruct + old(h).sizeStrings > bufsize then NOSPACE
        else 0
      ensures err != 0 ==> base == old(base) && h == old(h) && mem.bytes == old(mem.bytes)
      ensures err == 0 ==>
        && base == buf
           && h == old(h).(totalsize := bufsize, offStrings := if old(h).offStrings == 0 then 0 else bufsize)
        && Relocated(old(mem.bytes), mem.bytes, old(base), old(h).totalsize, buf, bufsize, h.offStruct + h.sizeStruct,
           h.sizeStrings)
    {
      hide Good, Relocated;
      GoodLayout(mem.bytes, base, h, es, ts, ops);
      if bufsize < 0 { return NOSPACE; }
      var headsize, tailsize := h.offStruct + h.sizeStruct, h.sizeStrings;
      if headsize + tailsize > h.totalsize { return INTERNAL; }
      if headsize + tailsize > bufsize { return NOSPACE; }
      ghost var m, h' := mem.bytes, h.(totalsize := bufsize, offStrings := if h.offStrings == 0 then 0 else bufsize);
      MoveParts(buf, bufsize, h.totalsize, headsize, tailsize);
      GoodMove(m, mem.bytes, base, buf, h, h', es, ts, ops);
      h := h.(totalsize := bufsize);
      if h.offStrings != 0 { h := h.(offStrings := bufsize); }
      base := buf;
      return 0;
    }

    /** fdt_add_reservemap_entry. */
    method AddReservemapEntry(address: u64, size: u64) returns (err: int)
      requires Valid()
      modifies this, mem, mem.data
      ensures Valid() && base == old(base) && ts == old(ts) && ops == old(ops)
      ensures err == if h.offStrings != 0 then BADSTATE else if old(h).offStruct + 16 > old(h).totalsize then NOSPACE
        else 0
      ensures es == if err == 0 then old(es) + [Entry(address, size)] else old(es)
      ensures h == if err == 0 then old(h).(offStruct := old(h).offStruct + 16) else old(h)
    {
      hide Good, EntryBytes, Stored;
      GoodLayout(mem.bytes, base, h, es, ts, ops);
      if h.offStrings != 0 { return BADSTATE; }
      var offset := h.offStruct;
      if offset + 16 > h.totalsize { return NOSPACE; }
      mem.Store(base + offset, EntryBytes(Entry(address, size)));
      GoodEntry(old(mem.bytes), mem.bytes, base, h, es, ts, ops, Entry(address, size));
      es := es + [Entry(address, size)];
      h := h.(offStruct := offset + 16);
      return 0;
    }

    /** fdt_finish_reservemap: the list ends with an empty entry and the struct state begins. */
    method FinishReservemap() returns (err: int)
      requires Valid()
      modifies this, mem, mem.data
      ensures Valid() && base == old(base) && ts == old(ts) && ops == old(ops)
      ensures err == if old(h).offStrings != 0 then BADSTATE
        else if old(h).offStruct + 16 > old(h).totalsize then NOSPACE else 0
      ensures err == 0 ==> InStruct() && es == old(es) + [Entry(0, 0)]
      ensures err != 0 ==> es == old(es) && h == old(h)
    {
      hide Good;
      GoodLayout(mem.bytes, base, h, es, ts, ops);
      err := AddReservemapEntry(0, 0);
      if err != 0 { return; }
      GoodLayout(mem.bytes, base, h, es, ts, ops);
      GoodState(mem.bytes, base, h, es, ts, ops);
      h := h.(offStrings := h.totalsize);
    }

    /** fdt_grab_space_. */
    method GrabSpace(len: nat) returns (ok: bool, offset: nat)
      requires Layout(h, base, |mem.bytes|)
      modifies `h
      ensures offset == old(h).sizeStruct
        && ok == (old(h).sizeStruct + len <= old(h).totalsize - old(h).offStruct - old(h).sizeStrings)
      ensures h == if ok then old(h).(sizeStruct := old(h).sizeStruct + len) else old(h)
    {
      offset := h.sizeStruct;
      var spaceleft := h.totalsize - h.offStruct - h.sizeStrings;
      ok := offset + len <= spaceleft;
      if ok { h := h.(sizeStruct := offset + len); }
    }

    /** The tag and the name, written into the space that has been grabbed. */
    method PutBegin(w: nat, k: nat, name: seq<u8>, n: nat, ghost h1: Header) returns (ghost t: Token)
      requires mem.Valid() && Good(mem.bytes, base, h1, es, ts, ops) && 0 !in name && n == 4 + TagAlign(|name| + 1)
      requires w == base + h1.offStruct && k == h1.sizeStruct && Used(h1) + n <= h1.totalsize
      modifies mem, mem.data
      ensures mem.Valid() && Good(mem.bytes, base, h1, es, ts, ops)
      ensures t.Begin? && t.name == name && TokSize(t) == n && TokAt(mem.bytes[w..w + (k + n)], k, t)
    {
      hide Good, Patched, Stored, Put32, TagAlign, TokAt, TokWords, Aligned;
      GoodLayout(mem.bytes, base, h1, es, ts, ops);
      GoodAligned(mem.bytes, base, h1, es, ts, ops);
      ghost var m := mem.bytes;
      mem.Store(w + k, Put32(FDT_BEGIN_NODE));
      ghost var m1 := mem.bytes;
      mem.Store(w + k + 4, name + [0]);
      ghost var pad := BeginWritten(m, m1, mem.bytes, w, k, name, n);
      GoodGap(m, mem.bytes, base, h1, es, ts, ops, w + k, n);
      t := Begin(name, pad);
    }

    /** fdt_begin_node. */
    method NodeBegin(name: seq<u8>) returns (err: int)
      requires Valid() && 0 !in name && |name| < INT_MAX
      modifies this, mem, mem.data
      ensures Valid() && base == old(base) && es == old(es)
      ensures var n := 4 + TagAlign(|name| + 1);
        && err == (if old(h).offStrings != old(h).totalsize then BADSTATE
                   else if Used(old(h)) + n > old(h).totalsize then NOSPACE else 0)
        && h == if err == 0 then old(h).(sizeStruct := old(h).sizeStruct + n) else old(h)
      ensures ops == if err == 0 then old(ops) + [BeginNode(name)] else old(ops)
    {
      hide Good, Patched, Stored, Put32, TagAlign, TokAt, TokWords, Aligned;
      if !InStruct() { BadState(mem.bytes, base, h, es, ts, ops); return BADSTATE; }
      GoodLayout(mem.bytes, base, h, es, ts, ops);
      var n := 4 + TagAlign(|name| + 1);
      var ok, off := GrabSpace(n);
      if !ok { return NOSPACE; }
      ghost var t := PutBegin(base + h.offStruct, off, name, n, old(h));
      GoodToken(mem.bytes, base, old(h), es, ts, ops, t, BeginNode(name));
      ts, ops := ts + [t], ops + [BeginNode(name)];
      return 0;
    }

    /** fdt_end_node. It does not check that a node is open. */
    method NodeEnd() returns (err: int)
      requires Valid()
      modifies this, mem, mem.data
      ensures Valid() && base == old(base) && es == old(es)
      ensures err == if old(h).offStrings != old(h).totalsize then BADSTATE
        else if Used(old(h)) + 4 > old(h).totalsize then NOSPACE else 0
      ensures h == if err == 0 then old(h).(sizeStruct := old(h).sizeStruct + 4) else old(h)
      ensures ops == if err == 0 then old(ops) + [EndNode] else old(ops)
    {
      hide Good, Patched, Stored, Put32, TokAt, TokWords, Aligned;
      if !InStruct() { BadState(mem.bytes, base, h, es, ts, ops); return BADSTATE; }
      GoodLayout(mem.bytes, base, h, es, ts, ops);
      var ok, off := GrabSpace(4);
      if !ok { return NOSPACE; }
      var p := base + h.offStruct + off;
      mem.Store(p, Put32(FDT_END_NODE));
      GoodAligned(old(mem.bytes), base, old(h), es, ts, ops);
      EndWritten(old(mem.bytes), mem.bytes, base + h.offStruct, off);
      GoodGap(old(mem.bytes), mem.bytes, base, old(h), es, ts, ops, p, 4);
      TokSizes(End);
      GoodToken(mem.bytes, base, old(h), es, ts, ops, End, EndNode);
      ts, ops := ts + [End], ops + [EndNode];
      return 0;
    }

    /** fdt_add_string_: the name goes in front of the strings; the offset is negative, from the end of the buffer. */
    method AddString(name: seq<u8>) returns (nameoff: int)
      requires Valid() && InStruct() && 0 !in name && |name| + 1 < INT_MAX
      modifies this, mem, mem.data
      ensures Valid() && InStruct() && base == old(base) && es == old(es) && ts == old(ts) && ops == old(ops)
      ensures nameoff == OUTSIDE <==> old(h).sizeStrings + |name| + 1 > old(h).totalsize
      ensures nameoff == 0 <==> nameoff != OUTSIDE && Used(old(h)) + |name| + 1 > old(h).totalsize
      ensures nameoff == 0 || nameoff == OUTSIDE ==> h == old(h) && mem.bytes == old(mem.bytes)
      ensures nameoff != 0 && nameoff != OUTSIDE ==>
        && h == old(h).(sizeStrings := old(h).sizeStrings + |name| + 1) && nameoff + h.sizeStrings == 0
        && Str(Tab(mem.bytes, base, h), 0) == Some(name)
        && Patched(old(mem.bytes), mem.bytes, base + h.totalsize - h.sizeStrings, |name| + 1)
    {
      hide Good, Patched, Stored, Str, Tab;
      GoodLayout(mem.bytes, base, h, es, ts, ops);
      var offset := h.sizeStrings + |name| + 1;
      StringRoomIff(h, |name| + 1);
      if !StringRoom(h, |name| + 1) { return 0; }
      if offset > h.totalsize { return OUTSIDE; }
      var p := base + h.totalsize - offset;
      mem.Store(p, name + [0]);
      StoredName(old(mem.bytes), mem.bytes, p, name);
      GoodGap(old(mem.bytes), mem.bytes, base, h, es, ts, ops, p, |name| + 1);
      GoodString(mem.bytes, base, h, es, ts, ops, name);
      h := h.(sizeStrings := offset);
      GoodLayout(mem.bytes, base, h, es, ts, ops);
      return -offset;
    }

    /** The name of a property: found in the strings unless the blob was created without de-duplication, or added. */
    method PlaceName(name: seq<u8>) returns (nameoff: int, added: bool)
      requires Valid() && InStruct() && 0 !in name && |name| + 1 < INT_MAX
      modifies this, mem, mem.data
      ensures Valid() && InStruct() && base == old(base) && es == old(es) && ts == old(ts) && ops == old(ops)
      ensures added <==> !Reused(old(h), old(Tab(mem.bytes, base, h)), name)
      ensures nameoff == OUTSIDE <==> added && old(h).sizeStrings + |name| + 1 > old(h).totalsize
      ensures nameoff == 0 <==> nameoff != OUTSIDE && added && Used(old(h)) + |name| + 1 > old(h).totalsize
      ensures nameoff == 0 || nameoff == OUTSIDE || !added ==> h == old(h) && mem.bytes == old(mem.bytes)
      ensures nameoff != 0 && nameoff != OUTSIDE ==>
        0 <= h.sizeStrings + nameoff && nameoff < 0
          && Str(Tab(mem.bytes, base, h), h.sizeStrings + nameoff) == Some(name)
      ensures nameoff != 0 && nameoff != OUTSIDE && added ==>
        && h == old(h).(sizeStrings := old(h).sizeStrings + |name| + 1)
        && Patched(old(mem.bytes), mem.bytes, base + h.totalsize - h.sizeStrings, |name| + 1)
    {
      hide Good, Patched, Str, ScanNul, Tab, Layout, InTable, StringAt;
      GoodLayout(mem.bytes, base, h, es, ts, ops);
      var dedup := h.lastComp != NO_NAME_DEDUP;
      if dedup {
        var st := LoadTab();
        var p := FindString(st, name);
        if p >= 0 {
          FoundName(st, p, name);
          return p - h.sizeStrings, false;
        }
      }
      nameoff := AddString(name);
      added := true;
    }

    method LoadTab() returns (st: seq<u8>)
      requires Valid()
      ensures Layout(h, base, |mem.bytes|) && st == Tab(mem.bytes, base, h) && |st| == h.sizeStrings
    {
      hide RowAt, SayAll, EntriesBytes, RowWords;
      st := mem.Load(base + h.totalsize - h.sizeStrings, h.sizeStrings);
    }

    /** fdt_property: fdt_property_placeholder and the copy of the value. A name added in vain is dropped again. */
    method Property(name: seq<u8>, val: seq<u8>) returns (err: int)
      requires Valid() && 0 !in name && |val| <= 0x7fff_fff0 && |name| + 1 < INT_MAX
      modifies this, mem, mem.data
      ensures Valid() && base == old(base) && es == old(es)
      ensures var n := 12 + TagAlign(|val|);
        var k := if Reused(old(h), old(Tab(mem.bytes, base, h)), name) then 0 else |name| + 1;
        && err == (if old(h).offStrings != old(h).totalsize then BADSTATE
                   else if old(h).sizeStrings + k > old(h).totalsize then WRITES_OUTSIDE
                   else if Used(old(h)) + k + n > old(h).totalsize then NOSPACE else 0)
        && h == if err == 0 then old(h).(sizeStruct := old(h).sizeStruct + n, sizeStrings := old(h).sizeStrings + k)
           else old(h)
      ensures ops == if err == 0 then old(ops) + [Op.Property(name, val)] else old(ops)
    {
      hide Good, Patched, Stored, Put32, TagAlign, TokAt, TokWords, Aligned, Str, ScanNul, Tab, Reused;
      GoodLayout(mem.bytes, base, h, es, ts, ops);
      if !InStruct() { return BADSTATE; }
      var nameoff, added := PlaceName(name);
      if nameoff == 0 { return NOSPACE; }
      if nameoff == OUTSIDE { return WRITES_OUTSIDE; }
      GoodLayout(mem.bytes, base, h, es, ts, ops);
      var ok := PutNamed(name, nameoff, val);
      if !ok {
        if added {
          GoodGap(old(mem.bytes), mem.bytes, base, old(h), es, ts, ops, base + h.totalsize - h.sizeStrings, |name| + 1);
          h := h.(sizeStrings := h.sizeStrings - (|name| + 1));
        }
        return NOSPACE;
      }
      return 0;
    }

    /** The rest of fdt_property_placeholder once the name has its place, and the value. */
    method PutNamed(name: seq<u8>, nameoff: int, val: seq<u8>) returns (ok: bool)
      requires Valid() && InStruct() && |val| <= 0x7fff_fff0 && 0 <= h.sizeStrings + nameoff && nameoff < 0
      requires Str(Tab(mem.bytes, base, h), h.sizeStrings + nameoff) == Some(name)
      modifies this, mem, mem.data
      ensures Valid() && base == old(base) && es == old(es)
      ensures ok == (Used(old(h)) + 12 + TagAlign(|val|) <= old(h).totalsize)
      ensures !ok ==> h == old(h) && mem.bytes == old(mem.bytes) && ops == old(ops) && ts == old(ts)
      ensures ok ==> h == old(h).(sizeStruct := old(h).sizeStruct + 12 + TagAlign(|val|))
      ensures ok ==> ops == old(ops) + [Op.Property(name, val)]
    {
      hide Good, Patched, Stored, Put32, TagAlign, TokAt, TokWords, Aligned, Str, ScanNul, Tab;
      GoodLayout(mem.bytes, base, h, es, ts, ops);
      ghost var h1 := h;
      var n := 12 + TagAlign(|val|);
      var off;
      ok, off := GrabSpace(n);
      if !ok { return; }
      ghost var t := PutProp(base + h.offStruct, off, TWO32 + nameoff, val, n, h1);
      GoodToken(mem.bytes, base, h1, es, ts, ops, t, Op.Property(name, val));
      ts, ops := ts + [t], ops + [Op.Property(name, val)];
    }

    /** The bytes of a property put into grabbed space. */
    method PutProp(w: nat, k: nat, nameoff: u32, val: seq<u8>, n: nat, ghost h1: Header) returns (ghost t: Token)
      requires mem.Valid() && Good(mem.bytes, base, h1, es, ts, ops) && |val| <= 0x7fff_fff0
        && n == 12 + TagAlign(|val|)
      requires w == base + h1.offStruct && k == h1.sizeStruct && Used(h1) + n <= h1.totalsize
      modifies mem, mem.data
      ensures mem.Valid() && Good(mem.bytes, base, h1, es, ts, ops)
        && Tab(mem.bytes, base, h1) == old(Tab(mem.bytes, base, h1))
      ensures t.PropTok? && t.nameoff == nameoff && t.val == val && TokSize(t) == n
        && TokAt(mem.bytes[w..w + (k + n)], k, t)
    {
      hide Good, Patched, Stored, Put32, TagAlign, TokAt, TokWords, Aligned, Str, ScanNul, Tab;
      GoodLayout(mem.bytes, base, h1, es, ts, ops);
      GoodAligned(mem.bytes, base, h1, es, ts, ops);
      ghost var m, p := mem.bytes, w + k;
      mem.Store(w + k, Put32(FDT_PROP));
      ghost var m1 := mem.bytes;
      mem.Store(w + k + 8, Put32(nameoff));
      ghost var m2 := mem.bytes;
      mem.Store(w + k + 4, Put32(|val|));
      ghost var m3 := mem.bytes;
      mem.Store(w + k + 12, val);
      t := PropWritten(m, m1, m2, m3, mem.bytes, w, k, nameoff, val, n);
      GoodGap(m, mem.bytes, base, h1, es, ts, ops, p, n);
    }

    /** The walk of fdt_finish over the structure block of `n` bytes at `w`: every name offset is corrected. */
    method CorrectNames(w: nat, n: nat) returns (nextoffset: int)
      requires mem.Valid() && w + n <= |mem.bytes| && Partly(mem.bytes[w..w + n], ts, 0, h.sizeStrings)
      modifies mem, mem.data
      ensures mem.Valid() && Patched(old(mem.bytes), mem.bytes, w, n)
      ensures Partly(mem.bytes[w..w + n], ts, |ts|, h.sizeStrings) && nextoffset >= 0
    {
      hide Patched, Stored, Partly, RowWords, RowAt, TokAt, TokWords, NextTag, Be32, Put32, Add32, Aligned;
      ghost var k := 0;
      var offset := 0;
      var s := mem.Load(w, n);
      WalkStart(mem.bytes, w, n, ts);
      if |ts| > 0 { WalkTag(s, ts, k, h.sizeStrings); } else { PartlyEnd(s, ts, k, h.sizeStrings); }
      var tag;
      tag, nextoffset := NextTagScan(s, offset);
      while tag != FDT_END
        invariant mem.Valid() && Patched(old(mem.bytes), mem.bytes, w, n) && |mem.bytes| == |old(mem.bytes)|
        invariant 0 <= k <= |ts| && s == mem.bytes[w..w + n] && Partly(s, ts, k, h.sizeStrings)
          && offset == RowSize(ts[..k])
        invariant Step(tag, nextoffset) == NextTag(s, offset) && (tag == FDT_END <==> k == |ts|) && nextoffset >= 0
        invariant k < |ts| ==> tag == TagOf(ts[k])
        decreases |ts| - k
      {
        WalkTag(s, ts, k, h.sizeStrings);
        if tag == FDT_PROP {
          var nameoff := Add32(Be32(s, offset + 8), h.sizeStrings);
          ghost var m := mem.bytes;
          mem.Store(w + offset + 8, Put32(nameoff));
          WindowPatch(m, mem.bytes, w, n, offset + 8, Put32(nameoff));
          PatchedTrans(old(mem.bytes), m, mem.bytes, w, n);
        }
        ghost var s0 := s;
        s := mem.Load(w, n);
        PartlyStep(s0, s, ts, k, h.sizeStrings);
        k := k + 1;
        offset := nextoffset;
        if k < |ts| { WalkTag(s, ts, k, h.sizeStrings); } else { PartlyEnd(s, ts, k, h.sizeStrings); }
        tag, nextoffset := NextTagScan(s, offset);
      }
    }

    /** The terminator written and the strings moved down behind it. */
    method PutEnd(off: nat, ghost h0: Header)
      requires mem.Valid() && Good(mem.bytes, base, h0, es, ts, ops) && h0.offStrings == h0.totalsize
        && Used(h0) + 4 <= h0.totalsize
      requires h == h0.(sizeStruct := h0.sizeStruct + 4) && off == h0.sizeStruct
      modifies mem, mem.data
      ensures mem.Valid() && |mem.bytes| == |old(mem.bytes)| && HasEnd(old(mem.bytes), mem.bytes, base, h0, ts)
    {
      hide Good, Stored, Copied, Put32, HasEnd;
      GoodLayout(mem.bytes, base, h0, es, ts, ops);
      mem.Store(base + h.offStruct + off, Put32(FDT_END));
      ghost var m1 := mem.bytes;
      var oldstroffset, newstroffset := h.totalsize - h.sizeStrings, h.offStruct + h.sizeStruct;
      mem.Memmove(base + newstroffset, base + oldstroffset, h.sizeStrings);
      FinishBytes(old(mem.bytes), m1, mem.bytes, base, h0, es, ts, ops);
    }

    /** fdt_finish: terminator, strings moved down behind the structure, name offsets corrected, header completed. */
    method Finish() returns (err: int)
      requires Valid()
      modifies this, mem, mem.data
      ensures base == old(base) && es == old(es) && ops == old(ops)
      ensures err == if old(h).offStrings != old(h).totalsize then BADSTATE
        else if Used(old(h)) + 4 > old(h).totalsize then NOSPACE else 0
      ensures err != 0 ==> Valid() && h == old(h)
      ensures err == 0 ==>
        && h.totalsize == Used(old(h)) + 4 && base + h.totalsize <= |mem.bytes| && h.magic == FDT_MAGIC
           && h.lastComp == 16 && h.version == 17
        && Finished(mem.bytes[base..base + h.totalsize], h, es, ts, ops)
    {
      hide Good, Patched, Finished, HasEnd, RowWords, RelocAll, Partly;
      GoodLayout(mem.bytes, base, h, es, ts, ops);
      if !InStruct() { return BADSTATE; }
      ghost var m, h0 := mem.bytes, h;
      var ok, off := GrabSpace(4);
      if !ok { return NOSPACE; }
      PutEnd(off, h0);
      ghost var m2 := mem.bytes;
      EndPartly(m, m2, base, h0, ts);
      var newstroffset := h.offStruct + h.sizeStruct;
      h := h.(offStrings := newstroffset);
      var nextoffset := CorrectNames(base + h.offStruct, h.sizeStruct);
      if nextoffset < 0 { return nextoffset; }
      PatchedSize(m2, mem.bytes, base + h.offStruct, h.sizeStruct);
      h := h.(totalsize := newstroffset + h.sizeStrings);
      h := h.(lastComp := 16);
      h := h.(magic := FDT_MAGIC);
      FinishEnds(m, m2, mem.bytes, base, h0, h, es, ts, ops);
      ts := RelocAll(ts, h.sizeStrings);
      return 0;
    }
  }

  /** A complete blob: reservations, tokens that say the calls through the strings, FDT_END. */
  ghost predicate Finished(b: seq<u8>, h: Header, es: seq<Entry>, ts: seq<Token>, ops: seq<Op>) {
    && Ordered(h, |b|) && Rsv(h, b) == EntriesBytes(es) && RowAt(Struct(h, b), 0, ts) && RowSize(ts) + 4 == h.sizeStruct
    && Be32(Struct(h, b), RowSize(ts)) == FDT_END && SayAll(ts, ops, Strings(h, b), 0)
  }

  /** The structure is terminated and the strings are behind it. */
  ghost predicate HasEnd(m: seq<u8>, m2: seq<u8>, base: nat, h: Header, ts: seq<Token>) {
    var p := base + h.offStruct + h.sizeStruct;
    && Layout(h, base, |m|) && |m2| == |m| && Used(h) + 4 <= h.totalsize
    && Entries(m2, base, h) == Entries(m, base, h) && m2[p + 4..p + 4 + h.sizeStrings] == Tab(m, base, h)
    && Partly(m2[base + h.offStruct..base + h.offStruct + (h.sizeStruct + 4)], ts, 0, h.sizeStrings)
  }

  lemma {:induction false} EndPartly(m: seq<u8>, m2: seq<u8>, base: nat, h: Header, ts: seq<Token>)
    requires HasEnd(m, m2, base, h, ts)
    ensures base + h.offStruct + h.sizeStruct + 4 <= |m2|
    ensures Partly(m2[base + h.offStruct..base + h.offStruct + (h.sizeStruct + 4)], ts, 0, h.sizeStrings)
  {
    hide Partly;
  }

  lemma {:induction false} FinishBytes(m: seq<u8>, m1: seq<u8>, m2: seq<u8>, base: nat, h: Header, es: seq<Entry>,
                                       ts: seq<Token>, ops: seq<Op>)
    requires Good(m, base, h, es, ts, ops) && h.offStrings == h.totalsize && Used(h) + 4 <= h.totalsize
    requires var p := base + h.offStruct + h.sizeStruct;
      && Stored(m, m1, p, Put32(FDT_END))
      && Copied(m1, m2, p + 4, base + h.totalsize - h.sizeStrings, h.sizeStrings)
    ensures |m2| == |m| && HasEnd(m, m2, base, h, ts)
  {
    hide EntriesBytes, RowAt, RowWords, SayAll, Put32, Be32;
    var w, k := base + h.offStruct, h.sizeStruct;
    var p := w + k;
    Untouched(m, m1, p, 4, base + HDR, w);
    Untouched(m1, m2, p + 4, h.sizeStrings, base + HDR, w);
    Untouched(m, m1, p, 4, w, p);
    Untouched(m1, m2, p + 4, h.sizeStrings, w, p);
    Untouched(m, m1, p, 4, base + h.totalsize - h.sizeStrings, base + h.totalsize);
    Untouched(m1, m2, p + 4, h.sizeStrings, p, p + 4);
    PartlyStart(m2, w, k, Written(m, base, h), ts, h.sizeStrings);
  }

  lemma {:induction false} PartlyStart(m: seq<u8>, w: nat, k: nat, s0: seq<u8>, ts: seq<Token>, n: u32)
    requires w + k + 4 <= |m| && m[w..w + k] == s0 && RowAt(s0, 0, ts) && RowSize(ts) == k
      && m[w + k..w + k + 4] == Put32(FDT_END)
    ensures Partly(m[w..w + (k + 4)], ts, 0, n)
  {
    hide RowAt, Put32, Be32, RelocTok;
    var s := m[w..w + (k + 4)];
    Slice(m, w, k + 4, 0, k);
    assert s0[0..k] == s0;
    AlignedAdd(0, 0);
    RowMove(s0, 0, s, 0, k, ts);
    PatchWord(m, w + k, FDT_END);
    WindowWord(m, w, k + 4, k);
    assert RelocAll(ts[..0], n) == [] && ts[..0] == [] && [] + ts[0..] == ts;
  }

  lemma {:induction false} FinishEnds(m: seq<u8>, m2: seq<u8>, m3: seq<u8>, base: nat, h: Header, h': Header,
                                      es: seq<Entry>, ts: seq<Token>, ops: seq<Op>)
    requires Good(m, base, h, es, ts, ops) && h.offStrings == h.totalsize && Used(h) + 4 <= h.totalsize && |m2| == |m|
    requires h'
      == h.(magic := FDT_MAGIC, totalsize := Used(h) + 4, offStrings := h.offStruct + h.sizeStruct + 4, lastComp := 16,
        sizeStruct := h.sizeStruct + 4)
    requires HasEnd(m, m2, base, h, ts)
    requires && Patched(m2, m3, base + h.offStruct, h.sizeStruct + 4)
             && Partly(m3[base + h.offStruct..base + h.offStruct + (h.sizeStruct + 4)], ts, |ts|, h.sizeStrings)
    ensures Finished(m3[base..base + h'.totalsize], h', es, RelocAll(ts, h.sizeStrings), ops)
  {
    hide EntriesBytes, RowAt, RowWords, SayAll, Be32, RelocAll;
    var w, n, t := base + h.offStruct, h.sizeStruct + 4, h'.totalsize;
    var b := m3[base..base + t];
    Untouched(m2, m3, w, n, base + HDR, w);
    Untouched(m2, m3, w, n, w + n, w + n + h.sizeStrings);
    Slice(m3, base, t, HDR, h.offStruct);
    Slice(m3, base, t, h.offStruct, h.offStruct + n);
    Slice(m3, base, t, h.offStruct + n, t);
    PartlyEnd(m3[w..w + n], ts, |ts|, h.sizeStrings);
    RelocSay(ts, ops, Tab(m, base, h));
  }

  /**
   Whatever balanced list of calls was written, the finished blob encodes a forest that reads as exactly the tree
   and the reservations written. With one nameless root it is accepted by the walk of fdt_check_full.
   */
  lemma {:induction false} FinishedTree(b: seq<u8>, h: Header, es: seq<Entry>, ts: seq<Token>, p: Script)
    requires Finished(b, h, es, ts, Ops(p))
    ensures var f, s, st := Build(p, ts), Struct(h, b), Strings(h, b);
      && Zipper.Holds(s, f) && Named(f, st) && Props(f, st) == PropsOf(p) && Kids(f, st) == KidsOf(p)
      && (p.Sub? && p.name == [] && p.rest.Stop? ==> Aligned(0) && CheckTags(s, st, 0, 0, false) == Ret(0))
  {
    hide RowAt, RowWords, At, Words, Be32, Ops, SayAll, Named, EntriesBytes, NextTag, Aligned, Props, Kids, PropsOf,
      KidsOf;
    var f, s, st := Build(p, ts), Struct(h, b), Strings(h, b);
    BuildIs(p, ts, s, 0, st);
    if p.Sub? && p.name == [] && p.rest.Stop? {
      AtFits(s, 0, f);
      EndTag(s, Size(f));
      RootBuild(p, ts, st);
      CheckEncoded(s, st, f);
    }
  }

  lemma {:induction false} EndTag(s: seq<u8>, o: nat)
    requires Aligned(o) && o + 4 <= |s| && Be32(s, o) == FDT_END
    ensures NextTag(s, o) == Step(FDT_END, o + 4)
  {
    hide Be32, Aligned;
    AlignAdd(o, 4);
  }

  lemma {:induction false} RootBuild(p: Script, ts: seq<Token>, st: seq<u8>)
    requires p.Sub? && p.name == [] && p.rest.Stop? && SayAll(ts, Ops(p), st, 0)
    ensures RootOk(Build(p, ts))
  {
    hide SayAll;
    SaySub(p, ts, st);
  }

  lemma {:induction false} WalkStart(m: seq<u8>, w: nat, n: nat, ts: seq<Token>)
    requires w + n <= |m|
    ensures Patched(m, m, w, n) && RowSize(ts[..0]) == 0
  {
  }

  /** What the walk sees at token `k`. */
  lemma {:induction false} WalkTag(s: seq<u8>, ts: seq<Token>, k: nat, n: u32)
    requires k < |ts| && Partly(s, ts, k, n)
    ensures var o := RowSize(ts[..k]);
      && NextTag(s, o) == Step(TagOf(ts[k]), o + TokSize(ts[k])) && RowSize(ts[..k + 1]) == o + TokSize(ts[k])
      && (ts[k].PropTok? ==> o + 12 <= |s| && Be32(s, o + 8) == ts[k].nameoff) && TagOf(ts[k]) != FDT_END
      && (TagOf(ts[k]) == FDT_PROP <==> ts[k].PropTok?)
  {
    hide RowWords, RowAt, TokAt, TokWords, NextTag, Be32, Partly;
    PartlyNext(s, ts, k, n);
    NextTagAt(s, RowSize(ts[..k]), ts[k]);
    if ts[k].PropTok? { PropWords(s, RowSize(ts[..k]), ts[k]); }
  }

  /** Whether a property name that is already in the strings is used again. */
  ghost predicate Reused(h: Header, st: seq<u8>, name: seq<u8>) {
    h.lastComp != NO_NAME_DEDUP && InTable(st, name)
  }

  lemma {:induction false} StoredName(m: seq<u8>, m': seq<u8>, p: nat, name: seq<u8>)
    requires Stored(m, m', p, name + [0])
    ensures Patched(m, m', p, |name| + 1) && m'[p..p + |name| + 1] == name + [0]
  {
  }

  lemma {:induction false} FoundName(st: seq<u8>, p: nat, name: seq<u8>)
    requires StringAt(st, p, name) && 0 !in name
    ensures Str(st, p) == Some(name) && p < |st| && InTable(st, name)
  {
    StrIs(st, p, name);
  }

  /** The bytes in use, from the header to the end of the structure and in the strings. */
  function Used(h: Header): int {
    h.offStruct + h.sizeStruct + h.sizeStrings
  }

  lemma {:induction false} BadState(m: seq<u8>, base: nat, h: Header, es: seq<Entry>, ts: seq<Token>, ops: seq<Op>)
    requires Good(m, base, h, es, ts, ops)
    ensures h.magic == FDT_SW_MAGIC
  {
  }

  lemma {:induction false} GoodAligned(m: seq<u8>, base: nat, h: Header, es: seq<Entry>, ts: seq<Token>, ops: seq<Op>)
    requires Good(m, base, h, es, ts, ops)
    ensures Aligned(h.sizeStruct)
  {
    hide RowAt, Aligned;
    RowFits(Written(m, base, h), 0, ts);
  }

  lemma {:induction false} GoodState(m: seq<u8>, base: nat, h: Header, es: seq<Entry>, ts: seq<Token>, ops: seq<Op>)
    requires Good(m, base, h, es, ts, ops) && HDR + 16 <= h.offStruct
    ensures Good(m, base, h.(offStrings := h.totalsize), es, ts, ops)
  {
    hide RowAt, RowWords, EntriesBytes, SayAll;
  }

  lemma {:induction false} GoodEntry(m: seq<u8>, m': seq<u8>, base: nat, h: Header, es: seq<Entry>, ts: seq<Token>,
                                     ops: seq<Op>, e: Entry)
    requires Good(m, base, h, es, ts, ops) && h.offStrings == 0 && h.offStruct + 16 <= h.totalsize
    requires Stored(m, m', base + h.offStruct, EntryBytes(e))
    ensures Good(m', base, h.(offStruct := h.offStruct + 16), es + [e], ts, ops)
  {
    hide EntriesBytes, EntryBytes, Says, Aligned;
    var p := base + h.offStruct;
    Untouched(m, m', p, 16, base + HDR, p);
    MoreEntries(es, e);
    assert m'[base + HDR..p + 16] == m'[base + HDR..p] + m'[p..p + 16];
    RowNone(ts);
    AlignedAdd(0, 0);
    RowAtNone(Written(m', base, h.(offStruct := h.offStruct + 16)), ts);
  }

  lemma {:induction false} RowNone(ts: seq<Token>)
    ensures RowSize(ts) == 0 <==> ts == []
  {
  }

  lemma {:induction false} RowAtNone(s: seq<u8>, ts: seq<Token>)
    requires ts == []
    ensures RowAt(s, 0, ts)
  {
    AlignedAdd(0, 0);
  }

  lemma {:induction false} GoodLayout(m: seq<u8>, base: nat, h: Header, es: seq<Entry>, ts: seq<Token>, ops: seq<Op>)
    requires Good(m, base, h, es, ts, ops)
    ensures Layout(h, base, |m|)
  {
  }

  /** fdt_create_with_flags. */
  method Create(mem: Buffer, base: nat, bufsize: int, flags: u32) returns (err: int, w: Writer?)
    requires mem.Valid() && base + bufsize <= |mem.bytes| && bufsize < INT_MAX
    modifies mem, mem.data
    ensures err == if bufsize < HDR then NOSPACE else if flags > NO_NAME_DEDUP then BADFLAGS else 0
    ensures err != 0 ==> w == null && mem.bytes == old(mem.bytes)
    ensures err == 0 ==>
      && w != null && fresh(w) && w.Valid() && w.mem == mem && w.InRsv() && w.es == [] && w.ops == []
      && w.base == base && w.h.totalsize == bufsize
  {
    w := null;
    if bufsize < HDR { return NOSPACE, null; }
    if flags > NO_NAME_DEDUP { return BADFLAGS, null; }
    w := new Writer(mem, base, bufsize, flags);
    err := 0;
  }
}
