/** fdt_check_full as a whole: header, reservation map and structure block, and blobs that are sure to pass it. */
module Full {
  import opened Bytes
  import opened Structure
  import Zipper
  import opened Check
  import Edit
  import Memory
  import opened Blob
  import opened Script
  import opened Sw

  function HeaderSize(version: u32): int {
    if version <= 1 then 28 else if version <= 2 then 32 else if version <= 16 then 36 else 40
  }

  predicate OffOk(hdr: int, total: u32, off: int) {
    hdr <= off <= total
  }

  /** check_block_, with its 32-bit sum. */
  predicate BlockOk(hdr: int, total: u32, base: u32, size: u32) {
    OffOk(hdr, total, base) && Add32(base, size) >= base && OffOk(hdr, total, Add32(base, size))
  }

  /** fdt_check_header at an aligned address. */
  function CheckHeader(h: Header): int {
    var hdr := HeaderSize(h.version);
    if h.magic != FDT_MAGIC then BADMAGIC
    else if h.version < 2 || h.lastComp > 17 || h.version < h.lastComp then BADVERSION
    else if h.totalsize < hdr || h.totalsize > INT_MAX || !OffOk(hdr, h.totalsize, h.offRsv) then TRUNCATED
    else if h.version < 17 && !OffOk(hdr, h.totalsize, h.offStruct) then TRUNCATED
    else if h.version >= 17 && !BlockOk(hdr, h.totalsize, h.offStruct, h.sizeStruct) then TRUNCATED
    else if !BlockOk(hdr, h.totalsize, h.offStrings, h.sizeStrings) then TRUNCATED
    else 0
  }

  /** Both blocks lie between the header and the end, as plain integers. */
  predicate Sane(h: Header) {
    && h.magic == FDT_MAGIC && h.lastComp <= h.version && h.lastComp <= 17 && 40 <= h.totalsize <= INT_MAX
       && 40 <= h.offRsv <= h.totalsize
    && 40 <= h.offStruct && h.offStruct + h.sizeStruct <= h.totalsize && 40 <= h.offStrings
       && h.offStrings + h.sizeStrings <= h.totalsize
  }

  /** For version 17 the header check accepts exactly the sane headers. */
  lemma {:induction false} HeaderIff(h: Header)
    requires h.version >= 17
    ensures CheckHeader(h) == 0 <==> Sane(h)
  {
  }

  // ---------- The reservation map ----------

  function Be64(b: seq<u8>, o: int): u64
    requires 0 <= o && o + 8 <= |b|
  {
    Be32(b, o) * TWO32 + Be32(b, o + 4)
  }

  /** The size word of reservation `i`. */
  function RsvSize(b: seq<u8>, h: Header, i: nat): u64 {
    if h.offRsv + 16 * i + 16 <= |b| then Be64(b, h.offRsv + 16 * i + 8) else 0
  }

  function RsvFrom(b: seq<u8>, h: Header, i: nat): int
    requires h.totalsize <= |b|
    decreases h.totalsize - 16 * i
  {
    if h.offRsv + 16 * i > h.totalsize - 16 then TRUNCATED
    else if RsvSize(b, h, i) == 0 then i
    else RsvFrom(b, h, i + 1)
  }

  /** fdt_num_mem_rsv. */
  method NumMemRsv(b: seq<u8>, h: Header) returns (n: int)
    requires h.totalsize <= |b|
    ensures n == RsvFrom(b, h, 0)
  {
    hide RsvSize;
    n := 0;
    while h.offRsv + 16 * n <= h.totalsize - 16
      invariant 0 <= n && RsvFrom(b, h, n) == RsvFrom(b, h, 0)
      decreases h.totalsize - 16 * n
    {
      if RsvSize(b, h, n) == 0 { return; }
      n := n + 1;
    }
    n := TRUNCATED;
  }

  /** Entry `n` ends the map: it is the first of size zero. */
  ghost predicate EndsAt(b: seq<u8>, h: Header, n: nat) {
    && h.offRsv + 16 * n + 16 <= h.totalsize && RsvSize(b, h, n) == 0
    && forall j :: 0 <= j < n ==> RsvSize(b, h, j) != 0
  }

  lemma {:induction false} RsvCount(b: seq<u8>, h: Header, i: nat, n: nat)
    requires h.totalsize <= |b| && i <= n && EndsAt(b, h, n)
    ensures RsvFrom(b, h, i) == n
    decreases n - i
  {
    hide RsvSize;
    if i < n {
      assert RsvSize(b, h, i) != 0;
      RsvCount(b, h, i + 1, n);
    }
  }

  lemma {:induction false} RsvEnds(b: seq<u8>, h: Header, i: nat)
    requires h.totalsize <= |b| && RsvFrom(b, h, i) >= 0
    requires forall j :: 0 <= j < i ==> RsvSize(b, h, j) != 0
    ensures EndsAt(b, h, RsvFrom(b, h, i))
    decreases h.totalsize - 16 * i
  {
    hide RsvSize;
    if RsvSize(b, h, i) != 0 { RsvEnds(b, h, i + 1); }
  }

  // ---------- fdt_check_full ----------

  /** The structure block is one forest with a sane top level, whose property names resolve. */
  ghost predicate Wellformed(s: seq<u8>, st: seq<u8>) {
    exists f :: Zipper.Holds(s, f) && RootOk(f) && Named(f, st)
  }

  /** As long as no length word wraps, the walk accepts exactly the well-formed blocks. */
  lemma {:induction false} CheckedForest(s: seq<u8>, st: seq<u8>)
    requires |s| <= INT_MAX && Aligned(0) && LensOk(s, 0)
    ensures CheckTags(s, st, 0, 0, false) == Ret(0) <==> Wellformed(s, st)
  {
    hide CheckTags, Aligned, At, Be32, LensOk, Parse, Words;
    CheckIff(s, st, 0);
    if CheckTags(s, st, 0, 0, false) == Ret(0) {
      ParseSound(s, 0);
      var f := Parse(s, 0).value.f;
      EndWord(s, Size(f));
      assert Zipper.Holds(s, f);
    }
    forall f | Zipper.Holds(s, f) && RootOk(f) && Named(f, st)
      ensures CheckTags(s, st, 0, 0, false) == Ret(0)
    {
      CheckEncoded(s, st, f);
    }
  }

  lemma {:induction false} EndWord(s: seq<u8>, off: nat)
    requires NextTag(s, off).tag == FDT_END && NextTag(s, off).next >= 0
    ensures off + 4 <= |s| && Be32(s, off) == FDT_END
  {
  }

  /** Nothing but NOPs before FDT_END. */
  ghost predicate Bare(s: seq<u8>) {
    exists k: nat :: Zipper.Holds(s, Edit.Nops(k, Empty))
  }

  /**
   The walk over a blob that the probe refuses, by its first element that is not a NOP: a node is read through
   NULL, a property is TRUNCATED, and only a list with neither passes.
   */
  lemma {:induction false} UnprobedIs(s: seq<u8>, off: nat, k: nat, f: Forest)
    requires At(s, off, Edit.Nops(k, f)) && !f.Nop?
    ensures Aligned(off) && Ok(Edit.Nops(k, f))
    ensures f.Node? ==> UnprobedTags(s, off) == ReadsNull
    ensures f.Prop? ==> UnprobedTags(s, off) == Ret(TRUNCATED)
    ensures f.Empty? && off + Size(Edit.Nops(k, f)) + 4 <= |s| && Be32(s, off + Size(Edit.Nops(k, f))) == FDT_END ==>
      UnprobedTags(s, off) == Ret(0)
    decreases k
  {
    hide TokAt, TokWords, Be32, At, Aligned, NextTag;
    var g := Edit.Nops(k, f);
    AtIff(s, off, g);
    if k > 0 {
      NextTagAt(s, off, NopTok);
      UnprobedIs(s, off + TokSize(Head(g)), k - 1, f);
    } else if f.Empty? {
      if off + 4 <= |s| && Be32(s, off) == FDT_END { EndStep(s, off); }
    } else {
      NextTagAt(s, off, Head(f));
      TokFits(s, off, Head(f));
      TokSizes(Head(f));
    }
  }

  lemma {:induction false} EndStep(s: seq<u8>, off: nat)
    requires off + 4 <= |s| && Be32(s, off) == FDT_END
    ensures NextTag(s, off).tag == FDT_END && NextTag(s, off).next >= 0
  {
  }

  lemma {:induction false} UnprobedFrom(s: seq<u8>, off: nat) returns (k: nat)
    requires Aligned(off) && UnprobedTags(s, off) == Ret(0)
    ensures At(s, off, Edit.Nops(k, Empty)) && off + Size(Edit.Nops(k, Empty)) + 4 <= |s|
    ensures Be32(s, off + Size(Edit.Nops(k, Empty))) == FDT_END
    decreases |s| - off
  {
    hide Be32, TokAt, At, Aligned, Words;
    k := 0;
    AtIff(s, off, Empty);
    if NextTag(s, off).tag == FDT_END {
      EndWord(s, off);
    } else {
      NextTagProgress(s, off);
      var j := UnprobedFrom(s, NextTag(s, off).next);
      k := j + 1;
      NopHere(s, off);
      Edit.OkNops(k, Empty);
      AtIff(s, off, Edit.Nops(k, Empty));
    }
  }

  lemma {:induction false} NopHere(s: seq<u8>, off: nat)
    requires Aligned(off) && NextTag(s, off).tag == FDT_NOP
    ensures TokAt(s, off, NopTok) && NextTag(s, off).next == off + TokSize(NopTok)
  {
    hide Be32, Aligned;
    WordTokAt(s, off, NopTok);
  }

  /** Such a walk accepts exactly the blocks without nodes and properties. */
  lemma {:induction false} UnprobedIff(s: seq<u8>)
    requires |s| <= INT_MAX && Aligned(0)
    ensures UnprobedTags(s, 0) == Ret(0) <==> Bare(s)
  {
    hide UnprobedTags, Aligned, At, Be32, Words;
    if UnprobedTags(s, 0) == Ret(0) {
      var k := UnprobedFrom(s, 0);
      assert Zipper.Holds(s, Edit.Nops(k, Empty));
    }
    forall k: nat | Zipper.Holds(s, Edit.Nops(k, Empty)) ensures UnprobedTags(s, 0) == Ret(0) {
      UnprobedIs(s, 0, k, Empty);
    }
  }

  /** The largest size that fdt_check_header accepts is one that fdt_ro_probe_ refuses, and the only one. */
  lemma {:induction false} HugeHeader(h: Header)
    requires Sane(h) && h.version >= 17
    ensures RoProbe(h) == if h.totalsize < INT_MAX then 0 else TRUNCATED
    ensures Sane(h.(totalsize := INT_MAX)) && CheckHeader(h.(totalsize := INT_MAX)) == 0
  {
  }

  /** fdt_check_full on a buffer whose first bytes are the header `h`. */
  method CheckFull(b: seq<u8>, h: Header) returns (v: Verdict)
    requires h.version >= 17
    ensures v == Ret(0) ==> Sane(h) && h.totalsize <= |b| && exists n: nat :: EndsAt(b, h, n)
    ensures (Sane(h) && h.totalsize <= |b| && exists n: nat :: EndsAt(b, h, n)) ==>
      && Aligned(0)
      && v == if h.totalsize < INT_MAX then CheckTags(Struct(h, b), Strings(h, b), 0, 0, false)
              else UnprobedTags(Struct(h, b), 0)
    ensures Sane(h) && h.totalsize <= |b| && h.totalsize < INT_MAX && Aligned(0) && LensOk(Struct(h, b), 0) ==>
      (v == Ret(0) <==> (exists n: nat :: EndsAt(b, h, n)) && Wellformed(Struct(h, b), Strings(h, b)))
    ensures Sane(h) && h.totalsize <= |b| && h.totalsize == INT_MAX ==>
      (v == Ret(0) <==> (exists n: nat :: EndsAt(b, h, n)) && Bare(Struct(h, b)))
  {
    hide CheckTags, UnprobedTags, Aligned, Sane, EndsAt, LensOk, Wellformed, Bare, RoProbe;
    SaneSize(h);
    AlignedAdd(0, 0);
    if Sane(h) && h.totalsize <= |b| {
      HugeHeader(h);
      UnprobedIff(Struct(h, b));
      if LensOk(Struct(h, b), 0) { CheckedForest(Struct(h, b), Strings(h, b)); }
    }
    if |b| < 28 || |b| < HeaderSize(h.version) { SaneSize(h); return Ret(TRUNCATED); }
    HeaderIff(h);
    var err := CheckHeader(h);
    if err != 0 { return Ret(err); }
    if |b| < h.totalsize { return Ret(TRUNCATED); }
    var n := NumMemRsv(b, h);
    if n < 0 {
      forall k: nat | EndsAt(b, h, k) ensures false { RsvCount(b, h, 0, k); }
      return Ret(n);
    }
    RsvEnds(b, h, 0);
    SaneSize(h);
    v := CheckLoop(Struct(h, b), Strings(h, b), RoProbe(h) == 0);
  }

  lemma {:induction false} SaneSize(h: Header)
    ensures Sane(h) ==>
      && 40 <= h.totalsize <= INT_MAX && h.offStruct + h.sizeStruct <= h.totalsize
      && h.offStrings + h.sizeStrings <= h.totalsize
  {
  }

  // ---------- What the sequential writer finishes ----------

  lemma {:induction false} Be64Put64(b: seq<u8>, o: nat, x: u64)
    requires o + 8 <= |b| && b[o..o + 8] == Put64(x)
    ensures Be64(b, o) == x
  {
    hide Be32, Put32;
    var v := Put64(x);
    Slice(b, o, 8, 0, 4);
    Slice(b, o, 8, 4, 8);
    assert v[0..4] == Put32(x / TWO32) && v[4..8] == Put32(x % TWO32);
    Memory.PatchWord(b, o, x / TWO32);
    Memory.PatchWord(b, o + 4, x % TWO32);
  }

  lemma {:induction false} EntryAt(es: seq<Entry>, i: nat)
    requires i < |es|
    ensures EntriesBytes(es)[16 * i..16 * i + 16] == EntryBytes(es[i])
    decreases |es|
  {
    hide EntryBytes;
    var k := |es| - 1;
    var a, b := EntriesBytes(es[..k]), EntriesBytes(es);
    assert b == a + EntryBytes(es[k]) && |a| == 16 * k;
    if i < k {
      EntryAt(es[..k], i);
      assert b[0..16 * k] == a[0..16 * k];
      Move(b, 0, a, 0, 16 * k, 16 * i, 16);
    } else {
      assert b[16 * k..16 * k + 16] == EntryBytes(es[k]);
    }
  }

  /** The reservations read back as they were added. */
  lemma {:induction false} EntryReads(b: seq<u8>, o: nat, es: seq<Entry>, i: nat)
    requires i < |es| && o + 16 * |es| <= |b| && b[o..o + 16 * |es|] == EntriesBytes(es)
    ensures Be64(b, o + 16 * i) == es[i].address && Be64(b, o + 16 * i + 8) == es[i].size
  {
    hide Be64, Put64, EntriesBytes;
    EntryAt(es, i);
    var x, v := o + 16 * i, EntryBytes(es[i]);
    Slice(b, o, 16 * |es|, 16 * i, 16 * i + 16);
    assert b[x..x + 16] == v;
    Slice(b, x, 16, 0, 8);
    Slice(b, x, 16, 8, 16);
    assert v[0..8] == Put64(es[i].address) && v[8..16] == Put64(es[i].size);
    Be64Put64(b, x, es[i].address);
    Be64Put64(b, x + 8, es[i].size);
  }

  /** Reservations of nonzero size, then the empty one that ends the map. */
  predicate Terminated(es: seq<Entry>) {
    |es| > 0 && es[|es| - 1].size == 0 && forall i :: 0 <= i < |es| - 1 ==> es[i].size != 0
  }

  /** A finished blob with one nameless root passes fdt_check_full, and its reservations are counted exactly. */
  lemma {:induction false} FinishedChecks(b: seq<u8>, h: Header, es: seq<Entry>, ts: seq<Token>, p: Script)
    requires Finished(b, h, es, ts, Ops(p)) && h.magic == FDT_MAGIC && h.version == 17 && h.lastComp == 16
    requires p.Sub? && p.name == [] && p.rest.Stop? && Terminated(es)
    ensures Sane(h) && h.totalsize <= |b| && EndsAt(b, h, |es| - 1) && RsvFrom(b, h, 0) == |es| - 1
    ensures Aligned(0) && CheckTags(Struct(h, b), Strings(h, b), 0, 0, false) == Ret(0)
    ensures forall i :: 0 <= i < |es| ==>
      Be64(b, h.offRsv + 16 * i) == es[i].address && Be64(b, h.offRsv + 16 * i + 8) == es[i].size
  {
    hide CheckTags, Aligned, Be64, RowAt, SayAll, RowWords, Be32, EntriesBytes, Ops, RsvFrom, Finished;
    FinishedSane(b, h, es, ts, Ops(p));
    ReservationsRead(b, h, es);
    FinishedTree(b, h, es, ts, p);
  }

  lemma {:induction false} FinishedSane(b: seq<u8>, h: Header, es: seq<Entry>, ts: seq<Token>, ops: seq<Op>)
    requires Finished(b, h, es, ts, ops) && h.magic == FDT_MAGIC && h.version == 17 && h.lastComp == 16
    ensures Sane(h) && h.totalsize <= |b| && b[h.offRsv..h.offStruct] == EntriesBytes(es) && Ordered(h, |b|)
  {
    hide RowAt, SayAll, RowWords, Be32, EntriesBytes;
  }

  lemma {:induction false} ReservationsRead(b: seq<u8>, h: Header, es: seq<Entry>)
    requires Sane(h) && h.totalsize <= |b| && Ordered(h, |b|) && b[h.offRsv..h.offStruct] == EntriesBytes(es)
      && Terminated(es)
    ensures EndsAt(b, h, |es| - 1) && RsvFrom(b, h, 0) == |es| - 1
    ensures forall i :: 0 <= i < |es| ==>
      Be64(b, h.offRsv + 16 * i) == es[i].address && Be64(b, h.offRsv + 16 * i + 8) == es[i].size
  {
    hide Be64, EntriesBytes, RsvFrom;
    var o := h.offRsv;
    assert h.offStruct == o + 16 * |es|;
    forall i | 0 <= i < |es| ensures Be64(b, o + 16 * i) == es[i].address && Be64(b, o + 16 * i + 8) == es[i].size {
      EntryReads(b, o, es, i);
    }
    forall i | 0 <= i < |es| ensures RsvSize(b, h, i) == es[i].size { EntryReads(b, o, es, i); }
    RsvCount(b, h, 0, |es| - 1);
  }
}
