/** A device tree blob in one buffer, and the in-place splices that edit it. */
module Blob {
  import opened Bytes
  import opened Structure
  import Zipper
  import Memory

  const FDT_MAGIC: int := 0xd00d_feed
  const FDT_SW_MAGIC: int := 0x2ff2_0112

  datatype Header = Header(magic: u32, totalsize: u32, offStruct: u32, offStrings: u32, offRsv: u32,
                           version: u32, lastComp: u32, sizeStrings: u32, sizeStruct: u32)

  /** fdt_blocks_misordered_, whose sums are 32-bit. */
  predicate Misordered(h: Header, rsvSize: u32, structSize: u32) {
    || h.offRsv < 40 || h.offStruct < Add32(h.offRsv, rsvSize) || h.offStrings < Add32(h.offStruct, structSize)
    || h.totalsize < Add32(h.offStrings, h.sizeStrings)
  }

  /** What fdt_ro_probe_ answers, other than the size. */
  function RoProbe(h: Header): int {
    if h.magic == FDT_MAGIC && (h.version < 2 || h.lastComp > 17) then BADVERSION
    else if h.magic == FDT_SW_MAGIC && h.sizeStruct == 0 then BADSTATE
    else if h.magic != FDT_MAGIC && h.magic != FDT_SW_MAGIC then BADMAGIC
    else if h.totalsize >= INT_MAX then TRUNCATED
    else 0
  }

  /** fdt_rw_probe_. */
  function RwProbe(h: Header): int {
    if RoProbe(h) != 0 then RoProbe(h)
    else if h.version < 17 then BADVERSION
    else if Misordered(h, 16, h.sizeStruct) then BADLAYOUT
    else 0
  }

  /** The three blocks in order inside a buffer of `n` bytes, with room for one reservation entry. */
  predicate Ordered(h: Header, n: nat): (b: bool)
    ensures b ==> h.offStruct + h.sizeStruct <= n && h.offStrings + h.sizeStrings <= n
  {
    && 40 <= h.offRsv && h.offRsv + 16 <= h.offStruct && h.offStruct + h.sizeStruct <= h.offStrings
    && h.offStrings + h.sizeStrings <= h.totalsize < INT_MAX && h.totalsize <= n
  }

  /** The sums that the probe forms fit into 32 bits. */
  predicate SumsFit(h: Header) {
    h.offRsv + 16 < TWO32 && h.offStruct + h.sizeStruct < TWO32 && h.offStrings + h.sizeStrings < TWO32
  }

  /** What the probe of a complete tree accepts is an ordered layout if and only if its sums do not wrap. */
  lemma {:induction false} ProbeIsOrdered(h: Header, n: nat)
    requires h.magic == FDT_MAGIC && 17 <= h.version && h.lastComp <= 17 && h.totalsize <= n
    ensures RwProbe(h) == 0 && SumsFit(h) <==> Ordered(h, n)
  {
  }

  /** A strings block that reaches around 2^32 is accepted. */
  lemma {:induction false} ProbeWraps(h: Header, n: nat)
    requires h.magic == FDT_MAGIC && 17 <= h.version && h.lastComp <= 17 && h.totalsize < INT_MAX && SumsFit(h)
    requires 40 <= h.offRsv && h.offRsv + 16 <= h.offStruct && h.offStruct + h.sizeStruct <= h.offStrings
    ensures var h' := h.(sizeStrings := TWO32 - 1); RwProbe(h') == 0 <==> h.offStrings - 1 <= h.totalsize
    ensures !Ordered(h.(sizeStrings := TWO32 - 1), n)
  {
  }

  function Struct(h: Header, m: seq<u8>): (s: seq<u8>)
    requires h.offStruct + h.sizeStruct <= |m|
    ensures |s| == h.sizeStruct
  {
    m[h.offStruct..h.offStruct + h.sizeStruct]
  }

  function Strings(h: Header, m: seq<u8>): (s: seq<u8>)
    requires h.offStrings + h.sizeStrings <= |m|
    ensures |s| == h.sizeStrings
  {
    m[h.offStrings..h.offStrings + h.sizeStrings]
  }

  /** From the reservation block up to the structure block. */
  function Rsv(h: Header, m: seq<u8>): (s: seq<u8>)
    requires Ordered(h, |m|)
  {
    m[h.offRsv..h.offStruct]
  }

  /** Up to the end of the spliced piece the old bytes are still there. */
  ghost predicate Kept(s: seq<u8>, s': seq<u8>, o: nat, newlen: nat) {
    o + newlen <= |s'| && forall i :: 0 <= i < o + newlen && i < |s| ==> s'[i] == s[i]
  }

  /** Everything from `p + oldlen` up to `d` has moved to `p + newlen`; nothing before that has changed. */
  ghost predicate Moved(m: seq<u8>, m': seq<u8>, p: nat, oldlen: nat, newlen: nat, d: nat) {
    && p + oldlen <= d <= |m| && |m| == |m'| && d - oldlen + newlen <= |m|
    && m'[0..p + newlen] == m[0..p + newlen] && m'[p + newlen..d - oldlen + newlen] == m[p + oldlen..d]
    && m'[d - oldlen + newlen..|m|] == m[d - oldlen + newlen..|m|]
  }

  function Grow(h: Header, oldlen: nat, newlen: nat): (h': Header)
    requires oldlen <= h.sizeStruct && h.offStrings + h.sizeStrings - oldlen + newlen <= h.totalsize
    requires h.sizeStruct <= h.offStrings
  {
    h.(sizeStruct := h.sizeStruct - oldlen + newlen, offStrings := h.offStrings - oldlen + newlen)
  }

  lemma {:induction false} MovedParts(m: seq<u8>, m': seq<u8>, p: nat, oldlen: nat, newlen: nat, d: nat)
    requires Moved(m, m', p, oldlen, newlen, d)
    ensures p + oldlen <= d <= |m| && |m| == |m'| && d - oldlen + newlen <= |m|
    ensures m[0..p + newlen] == m'[0..p + newlen]
    ensures m[p + oldlen..p + oldlen + (d - p - oldlen)] == m'[p + newlen..p + newlen + (d - p - oldlen)]
  {
  }

  /** What lies before the spliced place stays, what lies behind it moves. */
  lemma {:induction false} MovedBlocks(m: seq<u8>, m': seq<u8>, p: nat, oldlen: nat, newlen: nat, d: nat, i: nat,
                                       j: nat, k: nat, l: nat)
    requires Moved(m, m', p, oldlen, newlen, d) && i <= j <= p && p + oldlen <= k <= l <= d
    ensures |m'| == |m| && d - oldlen + newlen <= |m|
    ensures m'[i..j] == m[i..j] && m'[k - oldlen + newlen..l - oldlen + newlen] == m[k..l]
  {
    MovedParts(m, m', p, oldlen, newlen, d);
    hide Moved;
    Move(m, 0, m', 0, p + newlen, i, j - i);
    Move(m, p + oldlen, m', p + newlen, d - p - oldlen, k - p - oldlen, l - k);
  }

  /** What a splice inside the structure block does to the three blocks. */
  lemma {:induction false} SplicedBlocks(h: Header, m: seq<u8>, m': seq<u8>, o: nat, oldlen: nat, newlen: nat)
    requires Ordered(h, |m|) && o + oldlen <= h.sizeStruct
    requires h.offStrings + h.sizeStrings - oldlen + newlen <= h.totalsize
    requires Moved(m, m', h.offStruct + o, oldlen, newlen, h.offStrings + h.sizeStrings)
    ensures var h' := Grow(h, oldlen, newlen);
      && Ordered(h', |m'|) && Rsv(h', m') == Rsv(h, m) && Strings(h', m') == Strings(h, m)
      && Zipper.Spliced(Struct(h, m), o, oldlen, Struct(h', m'), newlen)
      && Kept(Struct(h, m), Struct(h', m'), o, newlen)
  {
    hide Zipper.Spliced, Kept, Moved;
    var d, so, to := h.offStrings + h.sizeStrings, h.offStruct, h.offStrings;
    MovedBlocks(m, m', so + o, oldlen, newlen, d, h.offRsv, so, to, d);
    SplicedPiece(m, m', so, h.sizeStruct, d, o, oldlen, newlen);
    KeptPiece(m, m', so, h.sizeStruct, d, o, oldlen, newlen);
  }

  lemma {:induction false} SplicedPiece(m: seq<u8>, m': seq<u8>, so: nat, ss: nat, d: nat, o: nat, oldlen: nat,
                                        newlen: nat)
    requires Moved(m, m', so + o, oldlen, newlen, d) && so + ss <= d && o + oldlen <= ss
    ensures Zipper.Spliced(m[so..so + ss], o, oldlen, m'[so..so + ss - oldlen + newlen], newlen)
  {
    var p, e' := so + o, so + ss - oldlen + newlen;
    MovedParts(m, m', p, oldlen, newlen, d);
    MovedBlocks(m, m', p, oldlen, newlen, d, so, p, p + oldlen, so + ss);
    hide Moved;
    Slice(m, so, ss, 0, o);
    Slice(m', so, e' - so, 0, o);
    Slice(m, so, ss, o + oldlen, ss);
    Slice(m', so, e' - so, o + newlen, e' - so);
  }

  lemma {:induction false} KeptPiece(m: seq<u8>, m': seq<u8>, so: nat, ss: nat, d: nat, o: nat, oldlen: nat,
                                     newlen: nat)
    requires Moved(m, m', so + o, oldlen, newlen, d) && so + ss <= d && o + oldlen <= ss
    ensures Kept(m[so..so + ss], m'[so..so + ss - oldlen + newlen], o, newlen)
  {
    var s, s' := m[so..so + ss], m'[so..so + ss - oldlen + newlen];
    forall i | 0 <= i < o + newlen && i < |s| ensures s'[i] == s[i] {
      Move1(m, 0, m', 0, so + o + newlen, so + i);
    }
  }

  lemma {:induction false} PatchMoved(m: seq<u8>, m': seq<u8>, p: nat, oldlen: nat, newlen: nat, d: nat)
    requires p + oldlen <= d <= |m| && d - oldlen + newlen <= |m|
    requires Memory.Copied(m, m', p + newlen, p + oldlen, d - p - oldlen)
    ensures Moved(m, m', p, oldlen, newlen, d)
  {
  }
}
