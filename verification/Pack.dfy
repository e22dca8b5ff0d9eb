/** Moving a whole blob: fdt_pack in place and fdt_open_into another buffer. */
module Pack {
  import opened Bytes
  import opened Memory
  import Structure
  import opened Blob
  import opened Rw
  import opened Full

  const ROOM: int := 40

  /** The header after the blocks have been laid end to end, `r` being the size of the reservation map. */
  function Packed(h: Header, r: nat): Header
    requires ROOM + r + h.sizeStruct + h.sizeStrings < TWO32
  {
    h.(offRsv := ROOM, offStruct := ROOM + r, offStrings := ROOM + r + h.sizeStruct)
  }

  /** The `k` bytes of `b` at `j` are the ones of `a` at `i`. */
  ghost predicate SameAt(a: seq<u8>, i: int, b: seq<u8>, j: int, k: nat) {
    0 <= i && i + k <= |a| && 0 <= j && j + k <= |b| && b[j..j + k] == a[i..i + k]
  }

  /** Three copies one after the other: what each of them moved is still there at the end. */
  ghost predicate Laid(m: seq<u8>, m': seq<u8>, old0: nat, h: Header, new0: nat, r: nat) {
    var s, t := h.sizeStruct, h.sizeStrings;
    && |m'| == |m| && SameAt(m, old0 + h.offRsv, m', new0 + ROOM, r)
    && SameAt(m, old0 + h.offStruct, m', new0 + ROOM + r, s)
    && SameAt(m, old0 + h.offStrings, m', new0 + ROOM + r + s, t)
  }

  /** The three source blocks in order and no lower than their new places, or away from them altogether. */
  predicate Movable(old0: nat, h: Header, new0: nat, r: nat) {
    || (new0 == old0 && ROOM <= h.offRsv && h.offRsv + r <= h.offStruct && h.offStruct + h.sizeStruct <= h.offStrings)
    || new0 + ROOM + r + h.sizeStruct + h.sizeStrings <= old0
    || (old0 + h.offRsv + r <= new0 && old0 + h.offStruct + h.sizeStruct <= new0
       && old0 + h.offStrings + h.sizeStrings <= new0)
  }

  lemma {:induction false} CopiedIs(m: seq<u8>, m': seq<u8>, dst: nat, src: nat, n: nat)
    requires Copied(m, m', dst, src, n)
    ensures Patched(m, m', dst, n) && src + n <= |m| && m'[dst..dst + n] == m[src..src + n]
    ensures dst == src ==> m' == m
  {
    if dst == src {
      assert m == m[0..dst] + m[dst..dst + n] + m[dst + n..|m|];
      assert m' == m'[0..dst] + m'[dst..dst + n] + m'[dst + n..|m|];
    }
  }

  /** No copy writes into a block that is still to be read. */
  lemma {:induction false} Clears(old0: nat, h: Header, new0: nat, r: nat)
    requires Movable(old0, h, new0, r)
    ensures var a, b, c := new0 + ROOM, new0 + ROOM + r, new0 + ROOM + r + h.sizeStruct;
      && (b <= old0 + h.offStruct || old0 + h.offStruct + h.sizeStruct <= a)
      && (b <= old0 + h.offStrings || old0 + h.offStrings + h.sizeStrings <= a)
      && (c <= old0 + h.offStrings || old0 + h.offStrings + h.sizeStrings <= b)
  {
  }

  /** A copy later than the one that made [dst, dst + n), and from elsewhere than where it wrote. */
  lemma {:induction false} Outlasts(m: seq<u8>, m1: seq<u8>, m2: seq<u8>, dst: nat, src: nat, n: nat, p: nat, q: nat,
                                    k: nat)
    requires |m| == |m1| && src + n <= |m| && dst + n <= |m1| && m1[dst..dst + n] == m[src..src + n]
    requires Copied(m1, m2, p, q, k) && (dst + n <= p || p + k <= dst)
    ensures |m2| == |m| && m2[dst..dst + n] == m[src..src + n]
  {
    hide Copied, Patched;
    CopiedIs(m1, m2, p, q, k);
    PatchedSize(m1, m2, p, k);
    Untouched(m1, m2, p, k, dst, dst + n);
  }

  lemma {:induction false} ThenCopied(m: seq<u8>, m1: seq<u8>, m2: seq<u8>, p: nat, k: nat, dst: nat, src: nat, n: nat,
                                      q: nat)
    requires Copied(m, m1, p, q, k) && Copied(m1, m2, dst, src, n) && (src + n <= p || p + k <= src)
    ensures |m1| == |m| == |m2| && dst + n <= |m2| && src + n <= |m| && m2[dst..dst + n] == m[src..src + n]
  {
    hide Copied, Patched;
    CopiedIs(m, m1, p, q, k);
    CopiedIs(m1, m2, dst, src, n);
    PatchedSize(m, m1, p, k);
    PatchedSize(m1, m2, dst, n);
    Untouched(m, m1, p, k, src, src + n);
  }

  lemma {:induction false} ThreeCopies(m: seq<u8>, m1: seq<u8>, m2: seq<u8>, m3: seq<u8>, old0: nat, h: Header,
                                       new0: nat, r: nat)
    requires Movable(old0, h, new0, r)
    requires Copied(m, m1, new0 + ROOM, old0 + h.offRsv, r)
    requires Copied(m1, m2, new0 + ROOM + r, old0 + h.offStruct, h.sizeStruct)
    requires Copied(m2, m3, new0 + ROOM + r + h.sizeStruct, old0 + h.offStrings, h.sizeStrings)
    ensures Laid(m, m3, old0, h, new0, r)
  {
    hide Copied, Patched, Movable, SameAt;
    var x, y, z, s, t := old0 + h.offRsv, old0 + h.offStruct, old0 + h.offStrings, h.sizeStruct, h.sizeStrings;
    var a, b, c := new0 + ROOM, new0 + ROOM + r, new0 + ROOM + r + s;
    Clears(old0, h, new0, r);
    First(m, m1, m2, m3, a, x, r, b, y, s, c, z, t);
    Second(m, m1, m2, m3, a, x, r, b, y, s, c, z, t);
    Third(m, m1, m2, m3, a, x, r, b, y, s, c, z, t);
  }

  lemma {:induction false} First(m: seq<u8>, m1: seq<u8>, m2: seq<u8>, m3: seq<u8>, a: nat, x: nat, r: nat, b: nat,
                                 y: nat, s: nat, c: nat, z: nat, t: nat)
    requires b == a + r && c == b + s && Copied(m, m1, a, x, r) && Copied(m1, m2, b, y, s) && Copied(m2, m3, c, z, t)
    ensures |m3| == |m| && SameAt(m, x, m3, a, r)
  {
    hide Copied, Patched;
    CopiedIs(m, m1, a, x, r);
    PatchedSize(m, m1, a, r);
    Outlasts(m, m1, m2, a, x, r, b, y, s);
    Outlasts(m, m2, m3, a, x, r, c, z, t);
  }

  lemma {:induction false} Second(m: seq<u8>, m1: seq<u8>, m2: seq<u8>, m3: seq<u8>, a: nat, x: nat, r: nat, b: nat,
                                  y: nat, s: nat, c: nat, z: nat, t: nat)
    requires b == a + r && c == b + s && Copied(m, m1, a, x, r) && Copied(m1, m2, b, y, s) && Copied(m2, m3, c, z, t)
    requires b <= y || y + s <= a
    ensures |m3| == |m| && SameAt(m, y, m3, b, s)
  {
    hide Copied, Patched;
    ThenCopied(m, m1, m2, a, r, b, y, s, x);
    Outlasts(m, m2, m3, b, y, s, c, z, t);
  }

  lemma {:induction false} Third(m: seq<u8>, m1: seq<u8>, m2: seq<u8>, m3: seq<u8>, a: nat, x: nat, r: nat, b: nat,
                                 y: nat, s: nat, c: nat, z: nat, t: nat)
    requires b == a + r && c == b + s && Copied(m, m1, a, x, r) && Copied(m1, m2, b, y, s) && Copied(m2, m3, c, z, t)
    requires (b <= z || z + t <= a) && (c <= z || z + t <= b)
    ensures |m3| == |m| && SameAt(m, z, m3, c, t)
  {
    hide Copied, Patched;
    ThenCopied(m1, m2, m3, b, s, c, z, t, y);
    CopiedIs(m, m1, a, x, r);
    PatchedSize(m, m1, a, r);
    Untouched(m, m1, a, r, z, z + t);
  }

  /** fdt_packblocks_: the blocks of the blob at `old0` laid end to end behind a header at `new0`. */
  method PackBlocks(mem: Buffer, old0: nat, h: Header, new0: nat, r: nat)
    requires mem.Valid() && Movable(old0, h, new0, r) && new0 + ROOM + r + h.sizeStruct + h.sizeStrings <= |mem.bytes|
    requires old0 + h.offRsv + r <= |mem.bytes| && old0 + h.offStruct + h.sizeStruct <= |mem.bytes|
    requires old0 + h.offStrings + h.sizeStrings <= |mem.bytes|
    modifies mem, mem.data
    ensures mem.Valid() && Laid(old(mem.bytes), mem.bytes, old0, h, new0, r)
    ensures new0 == old0 && h.offRsv == ROOM && h.offStruct == ROOM + r && h.offStrings == ROOM + r + h.sizeStruct ==>
      mem.bytes == old(mem.bytes)
    ensures Patched(old(mem.bytes), mem.bytes, new0, ROOM + r + h.sizeStruct + h.sizeStrings)
  {
    hide Copied, Laid, Movable, Patched;
    ghost var m := mem.bytes;
    mem.Memmove(new0 + ROOM, old0 + h.offRsv, r);
    ghost var m1 := mem.bytes;
    mem.Memmove(new0 + ROOM + r, old0 + h.offStruct, h.sizeStruct);
    ghost var m2 := mem.bytes;
    mem.Memmove(new0 + ROOM + r + h.sizeStruct, old0 + h.offStrings, h.sizeStrings);
    ThreeCopies(m, m1, m2, mem.bytes, old0, h, new0, r);
    ThreeWide(m, m1, m2, mem.bytes, old0, h, new0, r);
  }

  lemma {:induction false} ThreeWide(m: seq<u8>, m1: seq<u8>, m2: seq<u8>, m3: seq<u8>, old0: nat, h: Header,
                                     new0: nat, r: nat)
    requires new0 + ROOM + r + h.sizeStruct + h.sizeStrings <= |m|
    requires Copied(m, m1, new0 + ROOM, old0 + h.offRsv, r)
    requires Copied(m1, m2, new0 + ROOM + r, old0 + h.offStruct, h.sizeStruct)
    requires Copied(m2, m3, new0 + ROOM + r + h.sizeStruct, old0 + h.offStrings, h.sizeStrings)
    ensures Patched(m, m3, new0, ROOM + r + h.sizeStruct + h.sizeStrings)
    ensures new0 == old0 && h.offRsv == ROOM && h.offStruct == ROOM + r && h.offStrings == ROOM + r + h.sizeStruct ==>
      m3 == m
  {
    hide Copied, Patched;
    var s, t := h.sizeStruct, h.sizeStrings;
    var a, b, c, n := new0 + ROOM, new0 + ROOM + r, new0 + ROOM + r + s, ROOM + r + s + t;
    CopiedIs(m, m1, a, old0 + h.offRsv, r);
    CopiedIs(m1, m2, b, old0 + h.offStruct, s);
    CopiedIs(m2, m3, c, old0 + h.offStrings, t);
    PatchedSize(m, m1, a, r);
    PatchedSize(m1, m2, b, s);
    PatchedSize(m2, m3, c, t);
    Widen(m, m1, a, r, new0, n);
    Widen(m1, m2, b, s, new0, n);
    Widen(m2, m3, c, t, new0, n);
    PatchedTrans(m, m1, m2, new0, n);
    PatchedTrans(m, m2, m3, new0, n);
  }

  /** The reservation map of a blob in a buffer ends with entry `n`. */
  ghost predicate Counted(m: seq<u8>, h: Header, n: nat) {
    h.totalsize <= |m| && EndsAt(m, h, n)
  }

  lemma {:induction false} LaidBlocks(m: seq<u8>, m': seq<u8>, h: Header, n: nat)
    requires Ordered(h, |m|) && Counted(m, h, n) && h.offRsv + 16 * (n + 1) <= h.offStruct
    requires Laid(m, m', 0, h, 0, 16 * (n + 1))
    ensures var r := 16 * (n + 1); var h1 := Packed(h, r); var h' := h1.(totalsize := Data(h1));
      && h'.totalsize <= h.totalsize && Ordered(h', |m'|) && Struct(h', m') == Struct(h, m)
         && Strings(h', m') == Strings(h, m)
      && Rsv(h', m') == m[h.offRsv..h.offRsv + r] && Counted(m', h', n)
  {
    hide RsvSize;
    var r := 16 * (n + 1);
    var h1 := Packed(h, r);
    var h' := h1.(totalsize := Data(h1));
    assert h'.offStruct == ROOM + r;
    forall j | 0 <= j <= n ensures RsvSize(m', h', j) == RsvSize(m, h, j) { MovedSize(m, m', h, h', j, r); }
  }

  lemma {:induction false} MovedSize(m: seq<u8>, m': seq<u8>, h: Header, h': Header, j: nat, r: nat)
    requires 16 * j + 16 <= r && h.offRsv + r <= |m| && h'.offRsv + r <= |m'|
    requires m'[h'.offRsv..h'.offRsv + r] == m[h.offRsv..h.offRsv + r]
    ensures RsvSize(m', h', j) == RsvSize(m, h, j)
  {
    hide Be32;
    Move32(m', h'.offRsv, m, h.offRsv, r, 16 * j + 8);
    Move32(m', h'.offRsv, m, h.offRsv, r, 16 * j + 12);
  }

  /** The header that fdt_pack leaves, for a reservation map that ends with entry `n`. */
  function PackHeader(h: Header, n: nat): Header
    requires Ordered(h, h.totalsize) && h.offRsv + 16 * (n + 1) <= h.offStruct
  {
    var h0 := if h.version > 17 then h.(version := 17) else h;
    var h1 := Packed(h0, 16 * (n + 1));
    h1.(totalsize := Data(h1))
  }

  /** fdt_pack is idempotent: the header it leaves is one that it accepts and leaves as it is. */
  lemma {:induction false} PackedTwice(h: Header, n: nat)
    requires Ordered(h, h.totalsize) && h.offRsv + 16 * (n + 1) <= h.offStruct && RwProbe(h) == 0
    ensures var h1 := PackHeader(h, n);
      && h1.totalsize <= h.totalsize && RwProbe(h1) == 0 && Ordered(h1, h1.totalsize)
      && h1.offRsv + 16 * (n + 1) <= h1.offStruct && PackHeader(h1, n) == h1
    ensures PackHeader(h, n) == h <==>
      && h.version <= 17 && h.offRsv == ROOM && h.offStruct == ROOM + 16 * (n + 1)
      && h.offStrings == h.offStruct + h.sizeStruct && h.totalsize == h.offStrings + h.sizeStrings
  {
  }

  /** fdt_pack again: not a byte changes. */
  method PackAgain(fdt: Fdt, ghost n: nat, ghost h0: Header) returns (err: int)
    requires fdt.Valid() && Counted(fdt.mem.bytes, fdt.h, n)
    requires Ordered(h0, h0.totalsize) && h0.offRsv + 16 * (n + 1) <= h0.offStruct && RwProbe(h0) == 0
    requires fdt.h == PackHeader(h0, n)
    modifies fdt, fdt.mem, fdt.mem.data
    ensures err == 0 && fdt.h == old(fdt.h) && fdt.mem.bytes == old(fdt.mem.bytes)
  {
    hide PackHeader, Ordered, RwProbe;
    PackedTwice(h0, n);
    err := PackBlob(fdt, n);
  }

  /** fdt_pack: same tree, same reservations, never larger; packing what is packed changes nothing. */
  method PackBlob(fdt: Fdt, ghost n: nat) returns (err: int)
    requires fdt.Valid() && RwProbe(fdt.h) == 0 && Counted(fdt.mem.bytes, fdt.h, n)
      && fdt.h.offRsv + 16 * (n + 1) <= fdt.h.offStruct
    modifies fdt, fdt.mem, fdt.mem.data
    ensures err == 0 && fdt.Valid() && Counted(fdt.mem.bytes, fdt.h, n)
    ensures Struct(fdt.h, fdt.mem.bytes) == old(Struct(fdt.h, fdt.mem.bytes))
      && Strings(fdt.h, fdt.mem.bytes) == old(Strings(fdt.h, fdt.mem.bytes))
    ensures Rsv(fdt.h, fdt.mem.bytes) == old(fdt.mem.bytes[fdt.h.offRsv..fdt.h.offRsv + 16 * (n + 1)])
    ensures fdt.h.totalsize <= old(fdt.h).totalsize
    ensures Ordered(old(fdt.h), old(fdt.h).totalsize) && fdt.h == PackHeader(old(fdt.h), n)
    ensures fdt.h == old(fdt.h) ==> fdt.mem.bytes == old(fdt.mem.bytes)
  {
    hide Laid, RsvFrom, EndsAt, Struct, Strings, Rsv, Patched;
    ghost var h0, m := fdt.h, fdt.mem.bytes;
    err := fdt.Probe();
    if err != 0 { return; }
    var h := fdt.h;
    assert EndsAt(m, h, n) by { SameCount(m, h0, h, n); }
    var b := fdt.mem.Load(0, h.totalsize);
    WindowCount(m, h, n);
    RsvCount(b, h, 0, n);
    var num := NumMemRsv(b, h);
    var r := (num + 1) * 16;
    PackBlocks(fdt.mem, 0, h, 0, r);
    LaidBlocks(m, fdt.mem.bytes, h, n);
    SameBlocks(m, h0, h);
    fdt.h := Packed(h, r);
    fdt.h := fdt.h.(totalsize := Data(fdt.h));
    return 0;
  }

  lemma {:induction false} SameCount(m: seq<u8>, h: Header, h': Header, n: nat)
    requires EndsAt(m, h, n) && h'.offRsv == h.offRsv && h'.totalsize == h.totalsize
    ensures EndsAt(m, h', n)
  {
    hide Be64;
    assert forall j: nat :: RsvSize(m, h', j) == RsvSize(m, h, j);
  }

  lemma {:induction false} SameBlocks(m: seq<u8>, h: Header, h': Header)
    requires Ordered(h, |m|) && h' == h.(version := h'.version)
    ensures Ordered(h', |m|) && Struct(h', m) == Struct(h, m) && Strings(h', m) == Strings(h, m)
  {
  }

  /** Counting in the bytes of the blob alone. */
  lemma {:induction false} WindowCount(m: seq<u8>, h: Header, n: nat)
    requires h.totalsize <= |m| && EndsAt(m, h, n)
    ensures EndsAt(m[0..h.totalsize], h, n)
  {
    hide RsvSize;
    var b, r := m[0..h.totalsize], 16 * (n + 1);
    Move(m, 0, b, 0, h.totalsize, h.offRsv, r);
    forall j | 0 <= j <= n ensures RsvSize(b, h, j) == RsvSize(m, h, j) { MovedSize(m, b, h, h, j, r); }
  }

  // ---------- fdt_open_into ----------

  /** The bytes that the three blocks take when laid end to end behind the header. */
  function Need(h: Header, r: nat): nat {
    ROOM + r + h.sizeStruct + h.sizeStrings
  }

  /** Three blocks of a sane blob and the header. */
  const NEED_MAX: int := ROOM + 3 * (INT_MAX - 40)

  /** The size needed, stored in an int. */
  function ToInt(x: nat): (r: int)
    requires x <= NEED_MAX
    ensures -0x8000_0000 <= r <= INT_MAX && (r == x <==> x <= INT_MAX)
  {
    if x <= INT_MAX then x else x - TWO32
  }

  /**
   What fdt_open_into comes to for a blob at `fdt`, a buffer at `buf` and a reservation map of `r` bytes. The size
   needed is kept in an int; where it does not fit and the tests let it through, the blocks are written past the
   end of the buffer.
   */
  function OpenErr(fdt: nat, h: Header, buf: nat, bufsize: int, r: nat): int
    requires Need(h, r) <= NEED_MAX
  {
    var newsize := ToInt(Need(h, r));
    if !Misordered(h, if r < TWO32 then r else 0, h.sizeStruct) then
      (if bufsize < h.totalsize then Structure.NOSPACE else 0)
    else if bufsize < newsize then Structure.NOSPACE
    else if buf + newsize > fdt && buf < fdt + h.totalsize && fdt + h.totalsize + newsize > buf + bufsize then
      Structure.NOSPACE
    else if Need(h, r) > INT_MAX then WRITES_OUTSIDE
    else 0
  }

  /** The map of `r` bytes, the structure block and the strings follow one another behind the header. */
  predicate InOrder(h: Header, r: nat) {
    40 <= h.offRsv && h.offRsv + r <= h.offStruct && h.offStruct + h.sizeStruct <= h.offStrings
      && h.offStrings + h.sizeStrings <= h.totalsize
  }

  /**
   fdt_open_into in plain integers: a blob in order needs room for itself; one that is not, and whose blocks take a
   size that fits an int, needs room for that size, and in addition behind its own end where the two overlap.
   */
  lemma {:induction false} OpenErrIs(fdt: nat, h: Header, buf: nat, bufsize: int, r: nat)
    requires Sane(h) && h.offRsv + r <= h.totalsize && Need(h, r) <= NEED_MAX
    ensures var err, need := OpenErr(fdt, h, buf, bufsize, r), 40 + r + h.sizeStruct + h.sizeStrings;
      && (InOrder(h, r) ==> err == if h.totalsize <= bufsize then 0 else Structure.NOSPACE)
      && (!InOrder(h, r) && need <= INT_MAX ==>
            var apart := buf + need <= fdt || fdt + h.totalsize <= buf;
            err == if need <= bufsize && (apart || fdt + h.totalsize + need <= buf + bufsize) then 0
                   else Structure.NOSPACE)
  {
  }

  lemma {:induction false} MisorderedIff(h: Header, r: nat)
    requires Sane(h) && h.offRsv + r <= h.totalsize
    ensures Misordered(h, r, h.sizeStruct) <==> !InOrder(h, r)
  {
  }

  /** The blocks of a sane header can overlap, but each of them lies between the header and the end. */
  lemma {:induction false} NeedBound(h: Header, r: nat)
    requires Sane(h) && h.offRsv + r <= h.totalsize
    ensures Need(h, r) <= NEED_MAX
  {
  }

  /** The size test is right if and only if the size fits an int, or the test refuses it all the same. */
  lemma {:induction false} NewSizeIff(h: Header, r: nat, bufsize: int)
    requires Need(h, r) <= NEED_MAX && bufsize <= INT_MAX
    ensures (bufsize < ToInt(Need(h, r)) <==> bufsize < Need(h, r)) <==>
            (Need(h, r) <= INT_MAX || bufsize < ToInt(Need(h, r)))
  {
  }

  /**
   Blocks to be put in order are written outside some buffer if and only if the size they need does not fit an int.
   */
  lemma {:induction false} OpenOutsideIff(h: Header, r: nat)
    requires Need(h, r) <= NEED_MAX && r < TWO32 && Misordered(h, r, h.sizeStruct)
    ensures (exists fdt: nat, buf: nat, bufsize: int ::
               0 <= bufsize < INT_MAX && OpenErr(fdt, h, buf, bufsize, r) == WRITES_OUTSIDE)
            <==> Need(h, r) > INT_MAX
  {
    hide Misordered, Need;
    if Need(h, r) > INT_MAX {
      assert OpenErr(0, h, h.totalsize, INT_MAX - 1, r) == WRITES_OUTSIDE by { ToIntSmall(Need(h, r)); }
    }
  }

  lemma {:induction false} ToIntSmall(x: nat)
    requires INT_MAX < x <= NEED_MAX
    ensures ToInt(x) < INT_MAX - 1
  {
  }

  /** Two overlapping blocks of 0x50000000 bytes are written outside every buffer, wherever it lies. */
  lemma {:induction false} OpenWraps(fdt: nat, buf: nat, bufsize: nat)
    requires bufsize < INT_MAX
    ensures var h := Header(FDT_MAGIC, 0x6000_0000, 56, 56, 40, 17, 16, 0x5000_0000, 0x5000_0000);
      Sane(h) && Misordered(h, 16, h.sizeStruct) && Need(h, 16) <= NEED_MAX
      && OpenErr(fdt, h, buf, bufsize, 16) == WRITES_OUTSIDE
  {
  }

  /** Blob `b'` with header `h'` reads as blob `b` with header `h`, whose reservation map ends with entry `n`. */
  ghost predicate ReadsSame(b: seq<u8>, h: Header, b': seq<u8>, h': Header, n: nat) {
    && Sane(h) && h.totalsize == |b| && Ordered(h', |b'|) && h'.totalsize == |b'|
    && Struct(h', b') == Struct(h, b) && Strings(h', b') == Strings(h, b) && EndsAt(b', h', n)
    && h.offRsv + 16 * (n + 1) <= |b| && h'.offRsv + 16 * (n + 1) <= |b'|
    && b'[h'.offRsv..h'.offRsv + 16 * (n + 1)] == b[h.offRsv..h.offRsv + 16 * (n + 1)]
  }

  /** The blob at `buf` reads as the one that was at `fdt`. */
  ghost predicate Opened(m: seq<u8>, m': seq<u8>, fdt: nat, h: Header, buf: nat, h': Header, n: nat) {
    && fdt + h.totalsize <= |m| && buf + h'.totalsize <= |m'|
    && ReadsSame(m[fdt..fdt + h.totalsize], h, m'[buf..buf + h'.totalsize], h', n)
  }

  lemma {:induction false} SameBytes(b: seq<u8>, h: Header, b': seq<u8>, h': Header, n: nat)
    requires Sane(h) && h.totalsize == |b| && EndsAt(b, h, n) && Ordered(h', |b'|) && h'.totalsize == |b'|
    requires h'.sizeStruct == h.sizeStruct && h'.sizeStrings == h.sizeStrings
    requires SameAt(b, h.offRsv, b', h'.offRsv, 16 * (n + 1)) && SameAt(b, h.offStruct, b', h'.offStruct, h.sizeStruct)
    requires SameAt(b, h.offStrings, b', h'.offStrings, h.sizeStrings)
    ensures ReadsSame(b, h, b', h', n)
  {
    hide EndsAt;
    MovedEnds(b, b', h, h', n);
  }

  lemma {:induction false} MovedEnds(b: seq<u8>, b': seq<u8>, h: Header, h': Header, n: nat)
    requires EndsAt(b, h, n) && h.totalsize <= |b| && h'.offRsv + 16 * (n + 1) <= h'.totalsize <= |b'|
    requires b'[h'.offRsv..h'.offRsv + 16 * (n + 1)] == b[h.offRsv..h.offRsv + 16 * (n + 1)]
    ensures EndsAt(b', h', n)
  {
    hide RsvSize;
    forall j | 0 <= j <= n ensures RsvSize(b', h', j) == RsvSize(b, h, j) { MovedSize(b, b', h, h', j, 16 * (n + 1)); }
  }

  /** An ordered blob moved as a whole. */
  lemma {:induction false} OpenedWhole(m: seq<u8>, m': seq<u8>, fdt: nat, h: Header, buf: nat, size: u32, n: nat)
    requires Sane(h) && h.version >= 17 && fdt + h.totalsize <= |m| && EndsAt(m[fdt..fdt + h.totalsize], h, n)
    requires !Misordered(h, 16 * (n + 1), h.sizeStruct) && h.totalsize <= size < INT_MAX && buf + size <= |m|
    requires Copied(m, m', buf, fdt, h.totalsize)
    ensures Opened(m, m', fdt, h, buf, h.(version := 17, totalsize := size), n)
  {
    hide EndsAt, Copied, Patched, ReadsSame, SameAt;
    var t, h' := h.totalsize, h.(version := 17, totalsize := size);
    assert h.offRsv + 16 * (n + 1) <= t by { EndsInside(m[fdt..fdt + t], h, n); }
    WholeAt(m, m', fdt, buf, t, size);
    var b, b' := m[fdt..fdt + t], m'[buf..buf + size];
    PartAt(b, b', t, h.offRsv, 16 * (n + 1));
    PartAt(b, b', t, h.offStruct, h.sizeStruct);
    PartAt(b, b', t, h.offStrings, h.sizeStrings);
    SameBytes(b, h, b', h', n);
  }

  lemma {:induction false} WholeAt(m: seq<u8>, m': seq<u8>, fdt: nat, buf: nat, t: nat, size: nat)
    requires fdt + t <= |m| && t <= size && buf + size <= |m| && Copied(m, m', buf, fdt, t)
    ensures |m'| == |m| && SameAt(m[fdt..fdt + t], 0, m'[buf..buf + size], 0, t)
  {
    hide Copied, Patched;
    CopiedIs(m, m', buf, fdt, t);
    PatchedSize(m, m', buf, t);
    Slice(m', buf, size, 0, t);
    assert m[fdt..fdt + t][0..t] == m[fdt..fdt + t];
  }

  lemma {:induction false} PartAt(b: seq<u8>, b': seq<u8>, t: nat, o: nat, k: nat)
    requires SameAt(b, 0, b', 0, t) && o + k <= t
    ensures SameAt(b, o, b', o, k)
  {
    Move(b, 0, b', 0, t, o, k);
  }

  lemma {:induction false} EndsInside(b: seq<u8>, h: Header, n: nat)
    requires EndsAt(b, h, n)
    ensures h.offRsv + 16 * (n + 1) <= h.totalsize
  {
  }

  /** A blob packed block by block into `tmp` and moved from there. */
  lemma {:induction false} OpenedParts(m: seq<u8>, m1: seq<u8>, m2: seq<u8>, fdt: nat, h: Header, tmp: nat, buf: nat,
                                       h': Header, n: nat)
    requires Sane(h) && fdt + h.totalsize <= |m| && EndsAt(m[fdt..fdt + h.totalsize], h, n) && buf + h'.totalsize <= |m|
    requires var r := 16 * (n + 1); var need := ROOM + r + h.sizeStruct + h.sizeStrings;
      && need <= h'.totalsize < INT_MAX && Laid(m, m1, fdt, h, tmp, r) && tmp + need <= |m|
         && Copied(m1, m2, buf, tmp, need)
      && h' == Header(FDT_MAGIC, h'.totalsize, ROOM + r, ROOM + r + h.sizeStruct, ROOM, 17, 16, h.sizeStrings,
         h.sizeStruct)
    ensures Opened(m, m2, fdt, h, buf, h', n)
  {
    hide EndsAt, Copied, Patched, ReadsSame, SameAt;
    var r, t, s, g := 16 * (n + 1), h.totalsize, h.sizeStruct, h.sizeStrings;
    var need, size := ROOM + r + s + g, h'.totalsize;
    EndsInside(m[fdt..fdt + t], h, n);
    Piece(m, m1, m2, fdt, t, h.offRsv, r, tmp, buf, ROOM, need, size);
    Piece(m, m1, m2, fdt, t, h.offStruct, s, tmp, buf, ROOM + r, need, size);
    Piece(m, m1, m2, fdt, t, h.offStrings, g, tmp, buf, ROOM + r + s, need, size);
    SameBytes(m[fdt..fdt + t], h, m2[buf..buf + size], h', n);
  }

  /** One block on its way through `tmp`. */
  lemma {:induction false} Piece(m: seq<u8>, m1: seq<u8>, m2: seq<u8>, fdt: nat, t: nat, o: nat, k: nat, tmp: nat,
                                 buf: nat, x: nat, need: nat, size: nat)
    requires |m1| == |m| && fdt + t <= |m| && o + k <= t && x + k <= need <= size && buf + size <= |m|
      && tmp + need <= |m|
    requires SameAt(m, fdt + o, m1, tmp + x, k) && Copied(m1, m2, buf, tmp, need)
    ensures |m2| == |m| && SameAt(m[fdt..fdt + t], o, m2[buf..buf + size], x, k)
  {
    hide Copied, Patched;
    CopiedIs(m1, m2, buf, tmp, need);
    PatchedSize(m1, m2, buf, need);
    Move(m1, tmp, m2, buf, need, x, k);
    Slice(m2, buf, size, x, x + k);
    Slice(m, fdt, t, o, o + k);
  }

  /** fdt_open_into when the blocks have to be put in order: packed into free space, then moved to the buffer. */
  method OpenMoved(mem: Buffer, fdt: nat, h: Header, buf: nat, bufsize: int, ghost n: nat, r: nat)
    returns (err: int, h': Header)
    requires mem.Valid() && Sane(h) && h.version >= 17 && h.totalsize < INT_MAX && fdt + h.totalsize <= |mem.bytes|
    requires buf + bufsize <= |mem.bytes| && bufsize < INT_MAX && EndsAt(mem.bytes[fdt..fdt + h.totalsize], h, n)
    requires r == 16 * (n + 1) && h.offRsv + r <= h.totalsize && Misordered(h, r, h.sizeStruct)
    modifies mem, mem.data
    ensures mem.Valid() && Need(h, r) <= NEED_MAX && err == OpenErr(fdt, h, buf, bufsize, r)
    ensures err != 0 ==> mem.bytes == old(mem.bytes)
    ensures err == 0 ==> h'.totalsize == bufsize && Opened(old(mem.bytes), mem.bytes, fdt, h, buf, h', n)
  {
    hide EndsAt, Copied, Laid, Patched, Opened, Misordered;
    NeedBound(h, r);
    var newsize := ToInt(ROOM + r + h.sizeStruct + h.sizeStrings);
    if bufsize < newsize { return Structure.NOSPACE, h; }
    var tmp := buf;
    if buf + newsize > fdt && buf < fdt + h.totalsize {
      tmp := fdt + h.totalsize;
      if tmp + newsize > buf + bufsize { return Structure.NOSPACE, h; }
    }
    if Need(h, r) > INT_MAX { return WRITES_OUTSIDE, h; }
    h' := Header(FDT_MAGIC, bufsize, ROOM + r, ROOM + r + h.sizeStruct, ROOM, 17, 16, h.sizeStrings, h.sizeStruct);
    ghost var m := mem.bytes;
    PackBlocks(mem, fdt, h, tmp, r);
    ghost var m1 := mem.bytes;
    LaidSize(m, m1, fdt, h, tmp, r);
    mem.Memmove(buf, tmp, newsize);
    OpenedParts(m, m1, mem.bytes, fdt, h, tmp, buf, h', n);
    return 0, h';
  }

  /**
   fdt_open_into for a version 17 blob, wherever the two buffers lie: same tree, same reservations, size `bufsize`.
   */
  method OpenInto(mem: Buffer, fdt: nat, h: Header, buf: nat, bufsize: int, ghost n: nat) returns (err: int, h': Header)
    requires mem.Valid() && Sane(h) && h.version >= 17 && h.totalsize < INT_MAX && fdt + h.totalsize <= |mem.bytes|
    requires buf + bufsize <= |mem.bytes| && bufsize < INT_MAX && EndsAt(mem.bytes[fdt..fdt + h.totalsize], h, n)
    modifies mem, mem.data
    ensures mem.Valid() && Need(h, 16 * (n + 1)) <= NEED_MAX
    ensures err == OpenErr(fdt, h, buf, bufsize, 16 * (n + 1))
    ensures InOrder(h, 16 * (n + 1)) ==>
      (err == 0 || err == Structure.NOSPACE) && (err == 0 <==> h.totalsize <= bufsize)
    ensures var need := 40 + 16 * (n + 1) + h.sizeStruct + h.sizeStrings;
      !InOrder(h, 16 * (n + 1)) && need <= INT_MAX ==>
        && (err == 0 || err == Structure.NOSPACE)
        && (err == 0 <==> need <= bufsize && (buf + need <= fdt || fdt + h.totalsize <= buf
                                              || fdt + h.totalsize + need <= buf + bufsize))
    ensures err != 0 ==> mem.bytes == old(mem.bytes)
    ensures err == 0 ==> h'.totalsize == bufsize && Opened(old(mem.bytes), mem.bytes, fdt, h, buf, h', n)
  {
    hide EndsAt, Copied, Laid, Patched, Opened, OpenErr, InOrder;
    var b := mem.Load(fdt, h.totalsize);
    EndsInside(b, h, n);
    RsvCount(b, h, 0, n);
    NeedBound(h, 16 * (n + 1));
    OpenErrIs(fdt, h, buf, bufsize, 16 * (n + 1));
    var num := NumMemRsv(b, h);
    var r := (num + 1) * 16;
    h' := h;
    MisorderedIff(h, r);
    if !Misordered(h, r, h.sizeStruct) {
      if bufsize < h.totalsize { return Structure.NOSPACE, h; }
      ghost var m := mem.bytes;
      mem.Memmove(buf, fdt, h.totalsize);
      OpenedWhole(m, mem.bytes, fdt, h, buf, bufsize, n);
      return 0, h.(version := 17, totalsize := bufsize);
    }
    err, h' := OpenMoved(mem, fdt, h, buf, bufsize, n, r);
  }

  lemma {:induction false} LaidSize(m: seq<u8>, m': seq<u8>, old0: nat, h: Header, new0: nat, r: nat)
    requires Laid(m, m', old0, h, new0, r)
    ensures |m'| == |m|
  {
  }
}
