/** The read-write operations of libfdt on a blob: strings, properties and nodes edited in place. */
module Rw {
  import opened Bytes
  import opened Memory
  import opened Structure
  import opened Zipper
  import Walk
  import opened Lookup
  import Check
  import opened Tree
  import opened Edit
  import opened InPlace
  import opened Blob

  /** The result for a copy that would leave the value it is meant for. */
  const WRITES_OUTSIDE: int := -1002

  // ---------- The strings block ----------

  /** `name` with its NUL stands at `p` of the table. */
  predicate StringAt(st: seq<u8>, p: nat, name: seq<u8>) {
    p + |name| < |st| && st[p..p + |name|] == name && st[p + |name|] == 0
  }

  ghost predicate InTable(st: seq<u8>, name: seq<u8>) {
    exists p: nat :: StringAt(st, p, name)
  }

  /** The table with a name in it: as it is if the name is there, otherwise with the name at its end. */
  ghost function WithName(st: seq<u8>, name: seq<u8>): seq<u8> {
    if InTable(st, name) then st else st + (name + [0])
  }

  /** fdt_find_string_: the first place, possibly the tail of a longer string, or a negative number. */
  method FindString(st: seq<u8>, name: seq<u8>) returns (p: int)
    ensures p < 0 ==> !InTable(st, name)
    ensures p >= 0 ==> StringAt(st, p, name) && forall q: nat :: q < p ==> !StringAt(st, q, name)
  {
    p := 0;
    while p + |name| < |st|
      invariant 0 <= p && forall q: nat :: q < p ==> !StringAt(st, q, name)
    {
      if StringAt(st, p, name) { return; }
      p := p + 1;
    }
    p := -1;
  }

  /** A string stored just after the table, and the table grown over it. */
  lemma {:induction false} AppendedString(h: Header, m: seq<u8>, m': seq<u8>, name: seq<u8>)
    requires Ordered(h, |m|) && 0 !in name && h.offStrings + h.sizeStrings + |name| + 1 <= h.totalsize
    requires Stored(m, m', h.offStrings + h.sizeStrings, name + [0])
    ensures var h' := h.(sizeStrings := h.sizeStrings + |name| + 1);
      && Ordered(h', |m'|) && Rsv(h', m') == Rsv(h, m) && Struct(h', m') == Struct(h, m)
      && Extends(Strings(h, m), Strings(h', m')) && Str(Strings(h', m'), h.sizeStrings) == Some(name)
      && Strings(h', m') == Strings(h, m) + (name + [0])
      && Strings(h, m') == Strings(h, m)
  {
    hide Str;
    var to, ts, d := h.offStrings, h.sizeStrings, h.offStrings + h.sizeStrings;
    Move(m, 0, m', 0, d, h.offRsv, h.offStruct - h.offRsv);
    Move(m, 0, m', 0, d, h.offStruct, h.sizeStruct);
    Move(m, 0, m', 0, d, to, ts);
    var st' := m'[to..to + (ts + |name| + 1)];
    Slice(m', to, ts + |name| + 1, 0, ts);
    Slice(m', to, ts + |name| + 1, ts, ts + |name| + 1);
    TailString(st', ts, name);
    assert st' == st'[0..ts] + st'[ts..ts + |name| + 1];
  }

  lemma {:induction false} TailString(st: seq<u8>, p: nat, name: seq<u8>)
    requires 0 !in name && p + |name| + 1 <= |st| && st[p..p + (|name| + 1)] == name + [0]
    ensures Str(st, p) == Some(name)
  {
    var v := name + [0];
    Slice(st, p, |name| + 1, 0, |name|);
    assert v[0..|name|] == name;
    assert st[p..p + (|name| + 1)][|name|] == v[|name|] == 0;
    StrIs(st, p, name);
  }

  /** fdt_del_last_string_: dropping a name that was appended gives back the old table. */
  lemma {:induction false} DroppedString(h: Header, m: seq<u8>, m': seq<u8>, size: u32)
    requires Ordered(h, |m|) && h.sizeStrings <= size && Ordered(h.(sizeStrings := size), |m'|)
    requires Extends(Strings(h, m), Strings(h.(sizeStrings := size), m'))
    ensures Ordered(h, |m'|) && Strings(h, m') == Strings(h, m)
    ensures Struct(h, m') == Struct(h.(sizeStrings := size), m') && Rsv(h, m') == Rsv(h.(sizeStrings := size), m')
  {
    Slice(m', h.offStrings, size, 0, h.sizeStrings);
  }

  // ---------- Writes inside the structure block ----------

  lemma {:induction false} StoredBlocks(h: Header, m: seq<u8>, m': seq<u8>, x: nat, v: seq<u8>)
    requires Ordered(h, |m|) && x + |v| <= h.sizeStruct && Stored(m, m', h.offStruct + x, v)
    ensures |m'| == |m| && Rsv(h, m') == Rsv(h, m) && Strings(h, m') == Strings(h, m)
    ensures Patched(Struct(h, m), Struct(h, m'), x, |v|) && Struct(h, m')[x..x + |v|] == v
  {
    hide Patched;
    var so, p := h.offStruct, h.offStruct + x;
    WindowPatch(m, m', so, h.sizeStruct, x, v);
    Untouched(m, m', so, h.sizeStruct, h.offRsv, so);
    Untouched(m, m', so, h.sizeStruct, h.offStrings, h.offStrings + h.sizeStrings);
  }

  // ---------- The bytes of one property ----------

  /** A property header with room for its value. */
  predicate PropHead(s: seq<u8>, o: nat, nameoff: u32, len: nat) {
    && o + 12 + TagAlign(len) <= |s|
    && Be32(s, o) == FDT_PROP && Be32(s, o + 4) == len && Be32(s, o + 8) == nameoff
  }

  function TokFrom(s: seq<u8>, o: nat, nameoff: u32, len: nat): Token
    requires o + 12 + TagAlign(len) <= |s|
  {
    PropTok(nameoff, s[o + 12..o + 12 + len], s[o + 12 + len..o + 12 + TagAlign(len)])
  }

  lemma {:induction false} HeadTok(s: seq<u8>, o: nat, nameoff: u32, len: nat)
    requires PropHead(s, o, nameoff, len) && Aligned(o) && len < TWO32 - 12
    ensures TokAt(s, o, TokFrom(s, o, nameoff, len)) && TokSize(TokFrom(s, o, nameoff, len)) == 12 + TagAlign(len)
  {
    hide Be32, Aligned;
  }

  /** A splice of the end of a piece is a splice of the piece, as long as its start is kept. */
  lemma {:induction false} SpliceWider(s: seq<u8>, o: nat, k: nat, n: nat, s': seq<u8>, n': nat)
    requires Spliced(s, o + k, n, s', n')
    ensures Spliced(s, o, k + n, s', k + n')
  {
    Move(s, 0, s', 0, o + k, 0, o);
  }

  lemma {:induction false} KeptWord(s: seq<u8>, s': seq<u8>, o: nat, n: nat, y: nat)
    requires Kept(s, s', o, n) && y + 4 <= o + n && y + 4 <= |s|
    ensures Be32(s', y) == Be32(s, y)
  {
    assert s'[y] == s[y] && s'[y + 1] == s[y + 1] && s'[y + 2] == s[y + 2] && s'[y + 3] == s[y + 3];
  }

  /** fdt_resize_property_: the value area spliced, then the length word written. */
  lemma {:induction false} ResizeBytes(s: seq<u8>, s1: seq<u8>, s2: seq<u8>, o: nat, t: Token, len: nat)
    requires TokAt(s, o, t) && t.PropTok? && len < TWO32
    requires Spliced(s, o + 12, TagAlign(|t.val|), s1, TagAlign(len)) && Kept(s, s1, o + 12, TagAlign(len))
    requires Patched(s1, s2, o + 4, 4) && s2[o + 4..o + 8] == Put32(len)
    ensures Spliced(s, o, TokSize(t), s2, 12 + TagAlign(len)) && PropHead(s2, o, t.nameoff, len)
    ensures len >= |t.val| ==> s2[o + 12..o + 12 + |t.val|] == t.val
  {
    hide Be32, Put32, Aligned;
    PropWords(s, o, t);
    assert TokSize(t) == 12 + TagAlign(|t.val|);
    SpliceWider(s, o, 12, TagAlign(|t.val|), s1, TagAlign(len));
    SplicePatch(s, o, TokSize(t), s1, 12 + TagAlign(len), s2, o + 4, 4);
    SplicedSizes(s, o, TokSize(t), s1, 12 + TagAlign(len));
    KeptWord(s, s1, o + 12, TagAlign(len), o);
    KeptWord(s, s1, o + 12, TagAlign(len), o + 8);
    PatchKeeps(s1, s2, o + 4, 4, o);
    PatchKeeps(s1, s2, o + 4, 4, o + 8);
    PatchWord(s2, o + 4, len);
    if len >= |t.val| { KeptValue(s, s1, s2, o, t.val, len); }
  }

  lemma {:induction false} SplicedSizes(s: seq<u8>, o: nat, n: nat, s': seq<u8>, n': nat)
    requires Spliced(s, o, n, s', n')
    ensures o + n <= |s| && o + n' <= |s'|
  {
  }

  lemma {:induction false} KeptValue(s: seq<u8>, s1: seq<u8>, s2: seq<u8>, o: nat, val: seq<u8>, len: nat)
    requires o + 12 + |val| <= |s| && s[o + 12..o + 12 + |val|] == val && |val| <= len
    requires Kept(s, s1, o + 12, TagAlign(len)) && Patched(s1, s2, o + 4, 4)
    ensures s2[o + 12..o + 12 + |val|] == val
  {
    var x := s2[o + 12..o + 12 + |val|];
    forall i | 0 <= i < |val| ensures x[i] == val[i] {
      Move1(s1, o + 8, s2, o + 8, |s1| - o - 8, 4 + i);
      assert s1[o + 12 + i] == s[o + 12 + i] == s[o + 12..o + 12 + |val|][i];
    }
  }

  /** fdt_add_property_: a gap opened, then the three header words written into it. */
  lemma {:induction false} HeaderBytes(s: seq<u8>, s1: seq<u8>, s2: seq<u8>, s3: seq<u8>, s4: seq<u8>, o: nat,
                                       nameoff: u32, len: u32)
    requires Spliced(s, o, 0, s1, 12 + TagAlign(len))
    requires Patched(s1, s2, o, 4) && s2[o..o + 4] == Put32(FDT_PROP)
    requires Patched(s2, s3, o + 8, 4) && s3[o + 8..o + 12] == Put32(nameoff)
    requires Patched(s3, s4, o + 4, 4) && s4[o + 4..o + 8] == Put32(len)
    ensures Spliced(s, o, 0, s4, 12 + TagAlign(len)) && PropHead(s4, o, nameoff, len)
  {
    hide Be32, Put32, Aligned, TagAlign;
    var n := 12 + TagAlign(len);
    SplicedSizes(s, o, 0, s1, n);
    PatchWord(s2, o, FDT_PROP);
    PatchWord(s3, o + 8, nameoff);
    PatchWord(s4, o + 4, len);
    PatchKeeps(s2, s3, o + 8, 4, o);
    PatchKeeps(s3, s4, o + 4, 4, o);
    PatchKeeps(s3, s4, o + 4, 4, o + 8);
    SplicePatch(s, o, 0, s1, n, s2, o, 4);
    SplicePatch(s, o, 0, s2, n, s3, o + 8, 4);
    SplicePatch(s, o, 0, s3, n, s4, o + 4, 4);
  }

  /** The value written: the property is there as a whole. */
  lemma {:induction false} ValueBytes(s: seq<u8>, s2: seq<u8>, s3: seq<u8>, o: nat, m: nat, nameoff: u32, len: nat,
                                      x: nat, val: seq<u8>)
    requires Spliced(s, o, m, s2, 12 + TagAlign(len)) && PropHead(s2, o, nameoff, len) && Aligned(o) && len < TWO32 - 12
    requires x + |val| == len && Patched(s2, s3, o + 12 + x, |val|) && s3[o + 12 + x..o + 12 + len] == val
    ensures Spliced(s, o, m, s3, 12 + TagAlign(len)) && PropHead(s3, o, nameoff, len)
    ensures var t := TokFrom(s3, o, nameoff, len); TokAt(s3, o, t) && TokSize(t) == 12 + TagAlign(len)
    ensures s3[o + 12..o + 12 + x] == s2[o + 12..o + 12 + x]
  {
    hide Be32, Aligned;
    SplicePatch(s, o, m, s2, 12 + TagAlign(len), s3, o + 12 + x, |val|);
    PatchKeeps(s2, s3, o + 12 + x, |val|, o);
    PatchKeeps(s2, s3, o + 12 + x, |val|, o + 4);
    PatchKeeps(s2, s3, o + 12 + x, |val|, o + 8);
    Move(s2, 0, s3, 0, o + 12 + x, o + 12, x);
    HeadTok(s3, o, nameoff, len);
  }

  class Fdt {
    const mem: Buffer
    var h: Header

    ghost predicate Valid()
      reads this, mem, mem.data
    {
      mem.Valid() && Ordered(h, |mem.bytes|)
    }

    /** A blob found in a buffer. */
    constructor (mem: Buffer, h: Header)
      requires mem.Valid() && Ordered(h, |mem.bytes|)
      ensures Valid() && this.mem == mem && this.h == h
    {
      this.mem := mem;
      this.h := h;
    }

    /** FDT_RW_PROBE: a later version is marked as 17 once the probe has passed. */
    method Probe() returns (err: int)
      modifies this
      ensures err == RwProbe(old(h))
      ensures h == if err == 0 && old(h).version > 17 then old(h).(version := 17) else old(h)
    {
      if h.magic == FDT_MAGIC {
        if h.version < 2 || h.lastComp > 17 { return BADVERSION; }
      } else if h.magic == FDT_SW_MAGIC {
        if h.sizeStruct == 0 { return BADSTATE; }
      } else {
        return BADMAGIC;
      }
      if h.totalsize >= INT_MAX { return TRUNCATED; }
      if h.version < 17 { return BADVERSION; }
      if Misordered(h, 16, h.sizeStruct) { return BADLAYOUT; }
      if h.version > 17 { h := h.(version := 17); }
      return 0;
    }

    /** fdt_splice_. `p` is a position in the buffer. */
    method Splice(p: nat, oldlen: int, newlen: nat) returns (err: int)
      requires Valid() && newlen <= INT_MAX
      modifies mem, mem.data
      ensures Valid()
      ensures err == if oldlen < 0 || p + oldlen > h.offStrings + h.sizeStrings then BADOFFSET
                     else if h.offStrings + h.sizeStrings - oldlen + newlen > h.totalsize then NOSPACE else 0
      ensures err != 0 ==> mem.bytes == old(mem.bytes)
      ensures err == 0 ==> Moved(old(mem.bytes), mem.bytes, p, oldlen, newlen, h.offStrings + h.sizeStrings)
    {
      hide Moved, Copied;
      var dsize := h.offStrings + h.sizeStrings;
      if oldlen < 0 || p + oldlen > dsize { return BADOFFSET; }
      if dsize - oldlen + newlen > h.totalsize { return NOSPACE; }
      mem.Memmove(p + newlen, p + oldlen, dsize - (p + oldlen));
      PatchMoved(old(mem.bytes), mem.bytes, p, oldlen, newlen, dsize);
      return 0;
    }

    /** fdt_splice_struct_ at offset `o` of the structure block. */
    method SpliceStruct(o: nat, oldlen: nat, newlen: nat) returns (err: int)
      requires Valid() && newlen <= INT_MAX && o + oldlen <= h.sizeStruct
      modifies this, mem, mem.data
      ensures Valid()
      ensures err == if old(h).offStrings + old(h).sizeStrings - oldlen + newlen > old(h).totalsize then NOSPACE else 0
      ensures err != 0 ==> mem.bytes == old(mem.bytes) && h == old(h)
      ensures err == 0 ==> h == Grow(old(h), oldlen, newlen) && Rsv(h, mem.bytes) == old(Rsv(h, mem.bytes))
      ensures err == 0 ==> Strings(h, mem.bytes) == old(Strings(h, mem.bytes))
      ensures err == 0 ==> Spliced(old(Struct(h, mem.bytes)), o, oldlen, Struct(h, mem.bytes), newlen)
      ensures err == 0 ==> Kept(old(Struct(h, mem.bytes)), Struct(h, mem.bytes), o, newlen)
    {
      hide Spliced, Kept, Moved, Strings, Struct, Rsv;
      err := Splice(h.offStruct + o, oldlen, newlen);
      if err != 0 { return; }
      SplicedBlocks(h, old(mem.bytes), mem.bytes, o, oldlen, newlen);
      h := Grow(h, oldlen, newlen);
    }

    /** The structure and strings blocks as they are now. */
    method Blocks() returns (s: seq<u8>, st: seq<u8>)
      requires Valid()
      ensures s == Struct(h, mem.bytes) && st == Strings(h, mem.bytes)
    {
      s := mem.Load(h.offStruct, h.sizeStruct);
      st := mem.Load(h.offStrings, h.sizeStrings);
    }

    /** A write inside the structure block. */
    method PutStruct(x: nat, v: seq<u8>)
      requires Valid() && x + |v| <= h.sizeStruct
      modifies mem, mem.data
      ensures Valid() && Rsv(h, mem.bytes) == old(Rsv(h, mem.bytes))
        && Strings(h, mem.bytes) == old(Strings(h, mem.bytes))
      ensures Patched(old(Struct(h, mem.bytes)), Struct(h, mem.bytes), x, |v|) && Struct(h, mem.bytes)[x..x + |v|] == v
    {
      hide Patched, Stored, Struct, Strings, Rsv;
      mem.Store(h.offStruct + x, v);
      StoredBlocks(h, old(mem.bytes), mem.bytes, x, v);
    }

    ghost predicate Encodes(c: Ctx, n: Forest)
      requires Valid()
      reads this, mem, mem.data
    {
      && OkC(c) && Ok(n) && n.Node? && Holds(Struct(h, mem.bytes), Plug(c, n))
      && Check.Named(Plug(c, n), Strings(h, mem.bytes))
    }

    /** fdt_splice_string_ and the copy of the new name. */
    method AppendString(name: seq<u8>) returns (err: int)
      requires Valid() && 0 !in name && |name| < INT_MAX
      modifies this, mem, mem.data
      ensures Valid() && Struct(h, mem.bytes) == old(Struct(h, mem.bytes))
        && Rsv(h, mem.bytes) == old(Rsv(h, mem.bytes))
      ensures err == if old(h).offStrings + old(h).sizeStrings + |name| + 1 > old(h).totalsize then NOSPACE else 0
      ensures err != 0 ==> h == old(h) && mem.bytes == old(mem.bytes)
      ensures err == 0 ==> Str(Strings(h, mem.bytes), old(h).sizeStrings) == Some(name)
      ensures err == 0 ==> Strings(h, mem.bytes) == old(Strings(h, mem.bytes)) + (name + [0])
      ensures err == 0 ==> Extends(old(Strings(h, mem.bytes)), Strings(h, mem.bytes))
      ensures err == 0 ==> h == old(h).(sizeStrings := old(h).sizeStrings + |name| + 1)
    {
      hide Stored, Str, Moved, Struct, Strings, Rsv, Extends;
      var p := h.offStrings + h.sizeStrings;
      err := Splice(p, 0, |name| + 1);
      if err != 0 { return; }
      MovedNothing(old(mem.bytes), mem.bytes, p, |name| + 1);
      mem.Store(p, name + [0]);
      AppendedString(h, old(mem.bytes), mem.bytes, name);
      h := h.(sizeStrings := h.sizeStrings + |name| + 1);
    }

    /** fdt_find_add_string_. */
    method FindAddString(name: seq<u8>) returns (off: int, added: bool)
      requires Valid() && 0 !in name && |name| < INT_MAX
      modifies this, mem, mem.data
      ensures Valid() && Struct(h, mem.bytes) == old(Struct(h, mem.bytes))
        && Rsv(h, mem.bytes) == old(Rsv(h, mem.bytes))
      ensures off < 0 <==> !InTable(old(Strings(h, mem.bytes)), name)
                           && old(h).offStrings + old(h).sizeStrings + |name| + 1 > old(h).totalsize
      ensures off < 0 ==> off == NOSPACE && !added
      ensures off >= 0 ==> Str(Strings(h, mem.bytes), off) == Some(name) && off < TWO32
      ensures off >= 0 ==> Strings(h, mem.bytes) == WithName(old(Strings(h, mem.bytes)), name)
      ensures off >= 0 ==> Extends(old(Strings(h, mem.bytes)), Strings(h, mem.bytes))
      ensures off >= 0 ==> added == !InTable(old(Strings(h, mem.bytes)), name)
      ensures added ==> h == old(h).(sizeStrings := old(h).sizeStrings + |name| + 1)
      ensures !added ==> h == old(h) && mem.bytes == old(mem.bytes)
    {
      var st := mem.Load(h.offStrings, h.sizeStrings);
      var p := FindString(st, name);
      if p >= 0 {
        StrIs(st, p, name);
        assert Extends(st, st);
        return p, false;
      }
      hide Str, Extends, Struct, Rsv;
      off := h.sizeStrings;
      var err := AppendString(name);
      if err != 0 { return err, false; }
      added := true;
    }

    /** fdt_resize_property_. */
    method ResizeProperty(node: nat, name: seq<u8>, len: nat, ghost c: Ctx, ghost n: Forest)
      returns (err: int, prop: int)
      requires Valid() && Encodes(c, n) && node == Offset(c) && len <= 0x7fff_fff0
      modifies this, mem, mem.data
      ensures Valid()
      ensures err != 0 ==> h == old(h) && mem.bytes == old(mem.bytes)
      ensures err == NOTFOUND <==> name !in Props(n.kids, old(Strings(h, mem.bytes)))
      ensures err != NOTFOUND ==>
        var st := old(Strings(h, mem.bytes)); var g := PropFocus(n.kids, st, name);
        && name in Props(n.kids, st) && g.Prop? && OkC(PropCtx(n.kids, st, name))
        && err == if old(h).offStrings + old(h).sizeStrings - TagAlign(|g.val|) + TagAlign(len) > old(h).totalsize
           then NOSPACE else 0
      ensures err == 0 ==>
        var st := old(Strings(h, mem.bytes)); var g := PropFocus(n.kids, st, name);
        && prop == PropOff(c, n, st, name) && Ok(g) && TagAlign(|g.val|) <= old(h).sizeStruct
        && h == Grow(old(h), TagAlign(|g.val|), TagAlign(len)) && Strings(h, mem.bytes) == st
           && Rsv(h, mem.bytes) == old(Rsv(h, mem.bytes))
        && Spliced(old(Struct(h, mem.bytes)), prop, TokSize(Head(g)), Struct(h, mem.bytes), 12 + TagAlign(len))
        && PropHead(Struct(h, mem.bytes), prop, g.nameoff, len)
        && (len >= |g.val| ==> Struct(h, mem.bytes)[prop + 12..prop + 12 + |g.val|] == g.val)
    {
      hide Spliced, PropHead, Struct, Strings, Rsv, Props, GetProp, Plug, PropCtx, PropFocus, Holds, Patched, Kept,
        Be32, Put32, Str, ScanNul, Aligned, At, TokAt, NextTag, Ok, Words, Ordered, TagAlign, PropOff, TokWords, TokOk,
          Offset, OkC;
      var s, st := Blocks();
      FocusAt(s, c, n, st, name);
      prop := GetPropLoop(s, st, node, name);
      if prop < 0 { return prop, prop; }
      ghost var t := Head(PropFocus(n.kids, st, name));
      PropWords(s, prop, t);
      TokSizes(t);
      var oldlen := Be32(s, prop + 4);
      err := SpliceStruct(prop + 12, TagAlign(oldlen), TagAlign(len));
      if err != 0 { return; }
      ghost var s1 := Struct(h, mem.bytes);
      SplicedSizes(s, prop + 12, TagAlign(oldlen), s1, TagAlign(len));
      PutStruct(prop + 4, Put32(len));
      ResizeBytes(s, s1, Struct(h, mem.bytes), prop, t, len);
    }

    /** The three header words of a new property. */
    method PutHeader(o: nat, nameoff: u32, len: u32, ghost s: seq<u8>)
      requires Valid() && Spliced(s, o, 0, Struct(h, mem.bytes), 12 + TagAlign(len))
      modifies mem, mem.data
      ensures Valid() && Rsv(h, mem.bytes) == old(Rsv(h, mem.bytes))
        && Strings(h, mem.bytes) == old(Strings(h, mem.bytes))
      ensures Spliced(s, o, 0, Struct(h, mem.bytes), 12 + TagAlign(len))
        && PropHead(Struct(h, mem.bytes), o, nameoff, len)
    {
      hide Spliced, PropHead, Struct, Strings, Rsv, Patched, Put32, TagAlign, Ordered;
      ghost var s1 := Struct(h, mem.bytes);
      SplicedSizes(s, o, 0, s1, 12 + TagAlign(len));
      PutStruct(o, Put32(FDT_PROP));
      ghost var s2 := Struct(h, mem.bytes);
      PutStruct(o + 8, Put32(nameoff));
      ghost var s3 := Struct(h, mem.bytes);
      PutStruct(o + 4, Put32(len));
      HeaderBytes(s, s1, s2, s3, Struct(h, mem.bytes), o, nameoff, len);
    }

    /** fdt_add_property_: the new property comes first; a name added in vain is dropped again. */
    method AddProperty(node: nat, name: seq<u8>, len: nat, ghost c: Ctx, ghost n: Forest)
      returns (err: int, prop: int, nameoff: int)
      requires Valid() && Encodes(c, n) && node == Offset(c) && len <= 0x7fff_fff0 && 0 !in name && |name| < INT_MAX
      modifies this, mem, mem.data
      ensures Valid() && Rsv(h, mem.bytes) == old(Rsv(h, mem.bytes))
      ensures err
        == if Data(old(h)) + NameCost(old(Strings(h, mem.bytes)), name) + 12 + TagAlign(len) > old(h).totalsize
          then NOSPACE else 0
      ensures err == 0 ==>
        Data(h) == Data(old(h)) + NameCost(old(Strings(h, mem.bytes)), name) + 12 + TagAlign(len)
      ensures err == 0 ==> Strings(h, mem.bytes) == WithName(old(Strings(h, mem.bytes)), name)
      ensures err != 0 ==> h == old(h) && Strings(h, mem.bytes) == old(Strings(h, mem.bytes))
                           && Struct(h, mem.bytes) == old(Struct(h, mem.bytes))
      ensures err == 0 ==>
        && prop == node + TokSize(Head(n)) && 0 <= nameoff < TWO32
        && Extends(old(Strings(h, mem.bytes)), Strings(h, mem.bytes))
           && Str(Strings(h, mem.bytes), nameoff) == Some(name)
        && Spliced(old(Struct(h, mem.bytes)), prop, 0, Struct(h, mem.bytes), 12 + TagAlign(len))
        && PropHead(Struct(h, mem.bytes), prop, nameoff, len) && h.totalsize == old(h).totalsize
    {
      hide Spliced, PropHead, Struct, Strings, Rsv, Props, Plug, Holds, Patched, Kept, Be32, Put32, InTable, Extends,
        Str, ScanNul, Aligned, At, TokAt, NextTag, Words, TagAlign, Walk.NodeStart, Ordered, Offset, TokWords, TokOk,
          WithName;
      var s, st := Blocks();
      NodeAt(s, c, n);
      prop := Walk.NodeStart(s, node);
      if prop < 0 { return prop, prop, 0; }
      var added;
      nameoff, added := FindAddString(name);
      if nameoff < 0 { return nameoff, prop, nameoff; }
      ghost var h1, m1 := h, mem.bytes;
      err := SpliceStruct(prop, 0, 12 + TagAlign(len));
      if err != 0 {
        if added {
          DroppedString(old(h), old(mem.bytes), mem.bytes, h.sizeStrings);
          h := h.(sizeStrings := h.sizeStrings - (|name| + 1));
        }
        return;
      }
      PutHeader(prop, nameoff, len, s);
    }

    /** The value copied into its place: fdt_setprop after fdt_setprop_placeholder. */
    method PutValue(prop: nat, ghost nameoff: u32, ghost len: nat, x: nat, val: seq<u8>, ghost s: seq<u8>, ghost m: nat)
      returns (ghost t: Token)
      requires Valid() && x + |val| == len < TWO32 - 12 && Aligned(prop)
      requires Spliced(s, prop, m, Struct(h, mem.bytes), 12 + TagAlign(len))
        && PropHead(Struct(h, mem.bytes), prop, nameoff, len)
      modifies mem, mem.data
      ensures Valid() && Rsv(h, mem.bytes) == old(Rsv(h, mem.bytes))
        && Strings(h, mem.bytes) == old(Strings(h, mem.bytes))
      ensures t.PropTok? && t.nameoff == nameoff && |t.val| == len && t.val[x..] == val
      ensures prop + 12 + x <= |old(Struct(h, mem.bytes))|
        && t.val[..x] == old(Struct(h, mem.bytes))[prop + 12..prop + 12 + x]
      ensures Spliced(s, prop, m, Struct(h, mem.bytes), TokSize(t)) && TokAt(Struct(h, mem.bytes), prop, t)
    {
      hide Spliced, Struct, Strings, Rsv, Patched, TagAlign, Ordered, Be32, Aligned, TokAt, TokWords;
      ghost var s2 := Struct(h, mem.bytes);
      PutStruct(prop + 12 + x, val);
      ghost var s3 := Struct(h, mem.bytes);
      ValueBytes(s, s2, s3, prop, m, nameoff, len, x, val);
      t := TokFrom(s3, prop, nameoff, len);
      Slice(s3, prop + 12, len, 0, x);
      Slice(s3, prop + 12, len, x, len);
    }

    /** A property the node does not have yet, with its value. */
    method AddNew(node: nat, name: seq<u8>, val: seq<u8>, ghost c: Ctx, ghost n: Forest)
      returns (err: int, ghost n2: Forest)
      requires Valid() && Encodes(c, n) && node == Offset(c)
      requires 0 !in name && |name| < INT_MAX && |val| <= 0x7fff_fff0
      modifies this, mem, mem.data
      ensures Valid() && Encodes(c, n2) && h.totalsize == old(h).totalsize
        && Rsv(h, mem.bytes) == old(Rsv(h, mem.bytes))
      ensures Extends(old(Strings(h, mem.bytes)), Strings(h, mem.bytes))
      ensures err
        == if Data(old(h)) + NameCost(old(Strings(h, mem.bytes)), name) + 12 + TagAlign(|val|) > old(h).totalsize
          then NOSPACE else 0
      ensures err == 0 ==>
        Data(h) == Data(old(h)) + NameCost(old(Strings(h, mem.bytes)), name) + 12 + TagAlign(|val|)
      ensures err == 0 ==> Strings(h, mem.bytes) == WithName(old(Strings(h, mem.bytes)), name)
      ensures err == 0 ==> n2.rest == n.rest && n2.npad == n.npad
                           && TreeOf(n2, Strings(h, mem.bytes))
                              == SetIn(TreeOf(n, old(Strings(h, mem.bytes))), name, val)
      ensures err != 0 ==> n2 == n && h == old(h) && Strings(h, mem.bytes) == old(Strings(h, mem.bytes))
                           && Struct(h, mem.bytes) == old(Struct(h, mem.bytes))
    {
      hide Spliced, PropHead, Struct, Strings, Rsv, Props, GetProp, Plug, PropCtx, PropFocus, Holds, Be32, NameCost,
        Str, ScanNul, Aligned, At, TokAt, NextTag, Words, TagAlign, Kids, Extends, Ordered, Check.Named, TokWords,
          WithName;
      ghost var s, st := Struct(h, mem.bytes), Strings(h, mem.bytes);
      ExtendsSame(st);
      NodeAt(s, c, n);
      var prop, nameoff;
      err, prop, nameoff := AddProperty(node, name, |val|, c, n);
      n2 := n;
      if err != 0 { return; }
      ghost var t := PutValue(prop, nameoff, |val|, 0, val, s, 0);
      StructSmall(h, mem.bytes);
      SetNew(s, Struct(h, mem.bytes), c, n, st, Strings(h, mem.bytes), name, t);
      n2 := Preset(n, t);
    }

    /** fdt_setprop: the property map of this node is updated and nothing else in the tree changes. */
    method Setprop(node: nat, name: seq<u8>, val: seq<u8>, ghost c: Ctx, ghost n: Forest)
      returns (err: int, ghost n2: Forest)
      requires Valid() && Encodes(c, n) && node == Offset(c)
      requires 0 !in name && |name| < INT_MAX && |val| <= 0x7fff_fff0
      modifies this, mem, mem.data
      ensures Valid() && Encodes(c, n2) && h.totalsize == old(h).totalsize
        && Rsv(h, mem.bytes) == old(Rsv(h, mem.bytes))
      ensures Extends(old(Strings(h, mem.bytes)), Strings(h, mem.bytes))
      ensures err
        == if Data(old(h)) + Growth(Props(n.kids, old(Strings(h, mem.bytes))), name, |val|,
          old(Strings(h, mem.bytes))) > old(h).totalsize
        then NOSPACE else 0
      ensures err == 0 ==>
        Data(h) == Data(old(h)) + Growth(Props(n.kids, old(Strings(h, mem.bytes))), name, |val|,
          old(Strings(h, mem.bytes)))
      ensures err == 0 ==>
        var st := old(Strings(h, mem.bytes));
        Strings(h, mem.bytes) == if name in Props(n.kids, st) then st else WithName(st, name)
      ensures err == 0 ==> n2.rest == n.rest && n2.npad == n.npad
                           && TreeOf(n2, Strings(h, mem.bytes))
                              == SetIn(TreeOf(n, old(Strings(h, mem.bytes))), name, val)
      ensures err != 0 ==> n2 == n && h == old(h) && Strings(h, mem.bytes) == old(Strings(h, mem.bytes))
                           && Struct(h, mem.bytes) == old(Struct(h, mem.bytes))
    {
      hide Spliced, PropHead, Struct, Strings, Rsv, Props, GetProp, Plug, PropCtx, PropFocus, Holds, Be32, NameCost,
        Str, ScanNul, Aligned, At, TokAt, NextTag, Words, TagAlign, Kids, Extends, Ordered, Check.Named, TokWords,
          TreeOf, SetIn, Offset, PropOff, TokOk, WithName;
      ghost var s, st := Struct(h, mem.bytes), Strings(h, mem.bytes);
      ExtendsSame(st);
      FocusAt(s, c, n, st, name);
      NodeAt(s, c, n);
      var prop;
      err, prop := ResizeProperty(node, name, |val|, c, n);
      if err == 0 {
        ghost var g := PropFocus(n.kids, st, name);
        ghost var t := PutValue(prop, g.nameoff, |val|, 0, val, s, TokSize(Head(g)));
        StructSmall(h, mem.bytes);
        SetExisting(s, Struct(h, mem.bytes), c, n, st, name, t);
        n2 := Reset(n, st, name, t);
      } else if err == NOTFOUND {
        err, n2 := AddNew(node, name, val, c, n);
      } else {
        n2 := n;
      }
    }

    /** The branch of fdt_appendprop for a property that exists. */
    method AppendExisting(node: nat, name: seq<u8>, val: seq<u8>, prop: nat, ghost c: Ctx, ghost n: Forest)
      returns (err: int, ghost n2: Forest)
      requires Valid() && Encodes(c, n) && node == Offset(c) && name in Props(n.kids, Strings(h, mem.bytes))
      requires |Existing(n, Strings(h, mem.bytes), name)| + |val| <= 0x7fff_fff0
      requires OkC(PropCtx(n.kids, Strings(h, mem.bytes), name)) && prop == PropOff(c, n, Strings(h, mem.bytes), name)
      modifies this, mem, mem.data
      ensures Valid() && Encodes(c, n2) && h.totalsize == old(h).totalsize
        && Rsv(h, mem.bytes) == old(Rsv(h, mem.bytes))
      ensures Strings(h, mem.bytes) == old(Strings(h, mem.bytes))
        && Extends(old(Strings(h, mem.bytes)), Strings(h, mem.bytes))
      ensures var st := old(Strings(h, mem.bytes)); var v := Existing(n, st, name) + val;
        && err == (if Data(old(h)) + Growth(Props(n.kids, st), name, |v|, st) > old(h).totalsize then NOSPACE else 0)
        && (err == 0 ==> n2.rest == n.rest && TreeOf(n2, st) == SetIn(TreeOf(n, st), name, v))
      ensures err != 0 ==> n2 == n && h == old(h) && Struct(h, mem.bytes) == old(Struct(h, mem.bytes))
    {
      hide Spliced, PropHead, Struct, Strings, Rsv, Props, GetProp, Plug, PropCtx, PropFocus, Holds, Be32, NameCost,
        Str, ScanNul, Aligned, At, TokAt, NextTag, Words, TagAlign, Kids, Extends, Ordered, Check.Named, TokWords,
          SetIn, TreeOf, Ok, OkC, PropOff, Offset, TokOk, Add32, GetPropFrom;
      var s, st := Blocks();
      ExtendsSame(st);
      FocusAt(s, c, n, st, name);
      ghost var g := PropFocus(n.kids, st, name);
      PropWords(s, prop, Head(g));
      var oldlen := Be32(s, prop + 4);
      var p;
      err, p := ResizeProperty(node, name, oldlen + |val|, c, n);
      n2 := n;
      if err != 0 { return; }
      ghost var t := PutValue(p, g.nameoff, oldlen + |val|, oldlen, val, s, TokSize(Head(g)));
      Halves(t.val, oldlen, g.val, val);
      StructSmall(h, mem.bytes);
      SetExisting(s, Struct(h, mem.bytes), c, n, st, name, t);
      n2 := Reset(n, st, name, t);
    }

    /** fdt_appendprop. The source repeats fdt_resize_property_ in line here. */
    method Appendprop(node: nat, name: seq<u8>, val: seq<u8>, ghost c: Ctx, ghost n: Forest)
      returns (err: int, ghost n2: Forest)
      requires Valid() && Encodes(c, n) && node == Offset(c)
      requires 0 !in name && |name| < INT_MAX && |Existing(n, Strings(h, mem.bytes), name)| + |val| <= 0x7fff_fff0
      modifies this, mem, mem.data
      ensures Valid() && Encodes(c, n2) && h.totalsize == old(h).totalsize
        && Rsv(h, mem.bytes) == old(Rsv(h, mem.bytes))
      ensures Extends(old(Strings(h, mem.bytes)), Strings(h, mem.bytes))
      ensures var st := old(Strings(h, mem.bytes)); var v := Existing(n, st, name) + val;
        && err == (if Data(old(h)) + Growth(Props(n.kids, st), name, |v|, st) > old(h).totalsize then NOSPACE else 0)
        && (err == 0 ==> n2.rest == n.rest && TreeOf(n2, Strings(h, mem.bytes)) == SetIn(TreeOf(n, st), name, v))
      ensures err != 0 ==> n2 == n && h == old(h) && Strings(h, mem.bytes) == old(Strings(h, mem.bytes))
                           && Struct(h, mem.bytes) == old(Struct(h, mem.bytes))
    {
      hide Spliced, PropHead, Struct, Strings, Rsv, Props, GetProp, Plug, PropCtx, PropFocus, Holds, Be32, NameCost,
        Str, ScanNul, Aligned, At, TokAt, NextTag, Words, TagAlign, Kids, Extends, Ordered, Check.Named, TokWords;
      var s, st := Blocks();
      FocusAt(s, c, n, st, name);
      var prop := GetPropLoop(s, st, node, name);
      if prop >= 0 {
        err, n2 := AppendExisting(node, name, val, prop, c, n);
      } else {
        err, n2 := AddNew(node, name, val, c, n);
        assert [] + val == val;
      }
    }

    /** fdt_delprop. */
    method Delprop(node: nat, name: seq<u8>, ghost c: Ctx, ghost n: Forest) returns (err: int, ghost n2: Forest)
      requires Valid() && Encodes(c, n) && node == Offset(c)
      modifies this, mem, mem.data
      ensures Valid() && Encodes(c, n2) && h.totalsize == old(h).totalsize
        && Rsv(h, mem.bytes) == old(Rsv(h, mem.bytes))
      ensures Strings(h, mem.bytes) == old(Strings(h, mem.bytes))
      ensures err == if name in Props(n.kids, Strings(h, mem.bytes)) then 0 else NOTFOUND
      ensures err == 0 ==>
        n2.rest == n.rest
          && TreeOf(n2, Strings(h, mem.bytes))
             == DelIn(TreeOf(n, Strings(h, mem.bytes)), name, Below(n.kids, Strings(h, mem.bytes), name))
      ensures err != 0 ==> n2 == n && h == old(h) && mem.bytes == old(mem.bytes)
    {
      hide Spliced, Struct, Strings, Rsv, Props, GetProp, Plug, PropCtx, PropFocus, Holds, Be32, Str, ScanNul, Aligned,
        At, TokAt, NextTag, Words, TagAlign, Kids, Check.Named, TokWords, Below, Uncovered;
      var s, st := Blocks();
      FocusAt(s, c, n, st, name);
      var prop := GetPropLoop(s, st, node, name);
      if prop < 0 { return prop, n; }
      ghost var g := PropFocus(n.kids, st, name);
      PropWords(s, prop, Head(g));
      TokSizes(Head(g));
      err := SpliceStruct(prop, 12 + TagAlign(Be32(s, prop + 4)), 0);
      CutProp(s, Struct(h, mem.bytes), c, n, st, name);
      DroppedReads(n, st, name, 0, c);
      n2 := Dropped(n, st, name, 0);
    }

    /** The bytes of a new empty node. */
    method PutNodeBytes(o: nat, name: seq<u8>, pad: seq<u8>, ghost s: seq<u8>)
      requires Valid() && 0 !in name && |pad| == PadLen(|name| + 1) && Aligned(o)
      requires Spliced(s, o, 0, Struct(h, mem.bytes), TokSize(Begin(name, pad)) + 4)
      modifies mem, mem.data
      ensures Valid() && Rsv(h, mem.bytes) == old(Rsv(h, mem.bytes))
        && Strings(h, mem.bytes) == old(Strings(h, mem.bytes))
      ensures var t := Begin(name, pad);
        && Spliced(s, o, 0, Struct(h, mem.bytes), TokSize(t) + 4)
        && TokAt(Struct(h, mem.bytes), o, t) && TokAt(Struct(h, mem.bytes), o + TokSize(t), End)
    {
      hide Spliced, Struct, Strings, Rsv, Patched, Put32, PadLen, Ordered, TokAt, TokWords;
      TokSizes(Begin(name, pad));
      var t := TokSize(Begin(name, pad));
      ghost var s1 := Struct(h, mem.bytes);
      SplicedSizes(s, o, 0, s1, t + 4);
      PutStruct(o, Put32(FDT_BEGIN_NODE));
      ghost var s2 := Struct(h, mem.bytes);
      PutStruct(o + 4, name + [0] + pad);
      ghost var s3 := Struct(h, mem.bytes);
      PutStruct(o + t, Put32(FDT_END_NODE));
      NodeBytes(s, s1, s2, s3, Struct(h, mem.bytes), o, name, pad);
    }

    /** The second half of fdt_add_subnode_namelen: the new node goes after the parent's properties. */
    method InsertSubnode(parent: nat, name: seq<u8>, ghost c: Ctx, ghost n: Forest) returns (r: int, ghost n2: Forest)
      requires Valid() && Encodes(c, n) && parent == Offset(c) && 0 !in name && |name| <= 0x7fff_ffe0
      modifies this, mem, mem.data
      ensures Valid() && Encodes(c, n2) && h.totalsize == old(h).totalsize
        && Rsv(h, mem.bytes) == old(Rsv(h, mem.bytes))
      ensures Strings(h, mem.bytes) == old(Strings(h, mem.bytes))
      ensures r < 0 <==> Data(old(h)) + 4 + TagAlign(|name| + 1) + 4 > old(h).totalsize
      ensures r >= 0 ==> Data(h) == Data(old(h)) + 4 + TagAlign(|name| + 1) + 4
      ensures r < 0 ==> r == NOSPACE && n2 == n && h == old(h) && mem.bytes == old(mem.bytes)
      ensures r >= 0 ==>
        && (exists pad :: n2 == Adopted(n, name, pad)) && OkC(RunCtx(n.kids))
        && r == parent + TokSize(Head(n)) + Offset(RunCtx(n.kids))
        && TreeOf(n2, Strings(h, mem.bytes)) == AddIn(TreeOf(n, Strings(h, mem.bytes)), name)
    {
      hide Spliced, Struct, Strings, Rsv, Props, Plug, Holds, Be32, Str, ScanNul, Aligned, At, TokAt, NextTag, Words,
        TagAlign, PadLen, Kids, Check.Named, TokWords, RunCtx, RunTail, SkipRun, TreeOf, AddIn, Offset, Ordered;
      var s, st := Blocks();
      NodeAt(s, c, n);
      ghost var i := parent + TokSize(Head(n));
      NextTagAt(s, parent, Head(n));
      var tag, next := NextTagScan(s, parent);
      if tag != FDT_BEGIN_NODE { return INTERNAL, n; }
      SkipRunIs(s, i, n.kids);
      r := SkipRunLoop(s, next);
      var pad := seq(PadLen(|name| + 1), _ => 0 as u8);
      var t := Begin(name, pad);
      TokSizes(t);
      RunFits(s, i, n.kids);
      var err := SpliceStruct(r, 0, TokSize(t) + 4);
      if err != 0 { return err, n; }
      PutNodeBytes(r, name, pad, s);
      StructSmall(h, mem.bytes);
      Adopt(s, Struct(h, mem.bytes), c, n, st, t);
      n2 := Adopted(n, name, pad);
    }

    /** fdt_add_subnode: one new empty child in front of the others, unless a child already matches. */
    method AddSubnode(parent: nat, name: seq<u8>, ghost c: Ctx, ghost n: Forest) returns (r: int, ghost n2: Forest)
      requires Valid() && Encodes(c, n) && parent == Offset(c) && 0 !in name && |name| <= 0x7fff_ffe0
      modifies this, mem, mem.data
      ensures Valid() && Encodes(c, n2) && h.totalsize == old(h).totalsize
        && Rsv(h, mem.bytes) == old(Rsv(h, mem.bytes))
      ensures Strings(h, mem.bytes) == old(Strings(h, mem.bytes))
      ensures r == EXISTS <==> ChildIndex(Kids(n.kids, Strings(h, mem.bytes)), name) >= 0
      ensures r != EXISTS ==> (r < 0 <==> Data(old(h)) + 4 + TagAlign(|name| + 1) + 4 > old(h).totalsize)
      ensures r >= 0 ==> Data(h) == Data(old(h)) + 4 + TagAlign(|name| + 1) + 4
      ensures r < 0 ==> (r == EXISTS || r == NOSPACE) && n2 == n && h == old(h) && mem.bytes == old(mem.bytes)
      ensures r >= 0 ==>
        && (exists pad :: n2 == Adopted(n, name, pad)) && OkC(RunCtx(n.kids))
        && r == parent + TokSize(Head(n)) + Offset(RunCtx(n.kids))
        && TreeOf(n2, Strings(h, mem.bytes)) == AddIn(TreeOf(n, Strings(h, mem.bytes)), name)
    {
      hide Struct, Strings, Rsv, Props, Plug, Holds, Be32, Str, ScanNul, Aligned, At, TokAt, NextTag, Words, TagAlign,
        Kids, Check.Named, TokWords, SubnodeOffset, FindChild, ChildIndex, ChildFocus, ChildCtx, RunCtx, Adopted,
          TreeOf, AddIn, Offset;
      var s, st := Blocks();
      NodeAt(s, c, n);
      ChildPlace(n.kids, parent + TokSize(Head(n)), name);
      ChildTree(n.kids, name, st);
      SubnodeFinds(s, parent, n, name);
      var offset := SubnodeLoop(s, parent, name);
      if offset >= 0 { return EXISTS, n; }
      if offset != NOTFOUND { return offset, n; }
      r, n2 := InsertSubnode(parent, name, c, n);
    }

    /** fdt_del_node: exactly the bytes of the subtree go. */
    method DelNode(node: nat, ghost c: Ctx, ghost n: Forest) returns (err: int)
      requires Valid() && Encodes(c, n) && node == Offset(c)
      modifies this, mem, mem.data
      ensures Valid() && err == 0 && Rsv(h, mem.bytes) == old(Rsv(h, mem.bytes)) && h.totalsize == old(h).totalsize
      ensures h.sizeStruct == old(h).sizeStruct - NodeSize(n) && Data(h) == Data(old(h)) - NodeSize(n)
      ensures Strings(h, mem.bytes) == old(Strings(h, mem.bytes))
      ensures Holds(Struct(h, mem.bytes), Plug(c, n.rest)) && Check.Named(Plug(c, n.rest), Strings(h, mem.bytes))
    {
      hide Spliced, Struct, Strings, Rsv, Plug, Holds, Be32, Str, Aligned, At, TokAt, NextTag, Words, Check.Named,
        TokWords, NodeEnd;
      var s, st := Blocks();
      NodeAt(s, c, n);
      NodeEndIs(s, node, n);
      var end := NodeEndLoop(s, node);
      if end < 0 { return end; }
      err := SpliceStruct(node, end - node, 0);
      CutNode(s, Struct(h, mem.bytes), c, n, st);
    }

    /** fdt_nop_region_: whole words of FDT_NOP. */
    method NopRegion(o: nat, len: nat)
      requires Valid() && o + TagAlign(len) <= h.sizeStruct
      modifies mem, mem.data
      ensures Valid() && Rsv(h, mem.bytes) == old(Rsv(h, mem.bytes))
        && Strings(h, mem.bytes) == old(Strings(h, mem.bytes))
      ensures var k := (len + 3) / 4;
        && o + 4 * k <= |Struct(h, mem.bytes)|
        && Patched(old(Struct(h, mem.bytes)), Struct(h, mem.bytes), o, 4 * k) && AllNops(Struct(h, mem.bytes), o, k)
    {
      hide Struct, Strings, Rsv, Put32, Be32, Ordered, Aligned, Patched;
      var i := 0;
      ghost var s0 := Struct(h, mem.bytes);
      PatchedNone(s0, o);
      while 4 * i < len
        invariant Valid() && 0 <= 4 * i < len + 4 && h == old(h)
        invariant Rsv(h, mem.bytes) == old(Rsv(h, mem.bytes)) && Strings(h, mem.bytes) == old(Strings(h, mem.bytes))
        invariant Patched(s0, Struct(h, mem.bytes), o, 4 * i) && AllNops(Struct(h, mem.bytes), o, i)
        decreases len - 4 * i
      {
        ghost var s1 := Struct(h, mem.bytes);
        PutStruct(o + 4 * i, Put32(FDT_NOP));
        ghost var s2 := Struct(h, mem.bytes);
        PatchWord(s2, o + 4 * i, FDT_NOP);
        PatchedMore(s0, s1, s2, o, 4 * i, 4);
        MoreNops(s1, s2, o, i);
        i := i + 1;
      }
    }

    /** fdt_nop_node: the tree reads as after fdt_del_node, and no other offset has moved. */
    method NopNode(node: nat, ghost c: Ctx, ghost n: Forest) returns (err: int)
      requires Valid() && Encodes(c, n) && node == Offset(c)
      modifies this, mem, mem.data
      ensures Valid() && err == 0 && h == old(h) && Rsv(h, mem.bytes) == old(Rsv(h, mem.bytes))
      ensures Strings(h, mem.bytes) == old(Strings(h, mem.bytes))
      ensures Patched(old(Struct(h, mem.bytes)), Struct(h, mem.bytes), node, NodeSize(n))
      ensures var st, f := Strings(h, mem.bytes), Nops(NodeWords(n), n.rest);
        && Holds(Struct(h, mem.bytes), Plug(c, f)) && Check.Named(Plug(c, f), st)
        && Kids(Plug(c, f), st) == Kids(Plug(c, n.rest), st) && Props(Plug(c, f), st) == Props(Plug(c, n.rest), st)
    {
      hide Struct, Strings, Rsv, Plug, Holds, Be32, Str, Aligned, At, TokAt, NextTag, Words, Check.Named, TokWords,
        NodeEnd, Patched, AllNops, Kids, Props, Nops;
      var s, st := Blocks();
      NodeAt(s, c, n);
      NodeEndIs(s, node, n);
      var end := NodeEndLoop(s, node);
      if end < 0 { return end; }
      NodeWordsIs(n);
      NopRegion(node, end - node);
      BlankNode(s, Struct(h, mem.bytes), c, n, st);
      err := 0;
    }

    /** fdt_nop_property: the tree reads as after fdt_delprop, and no other offset has moved. */
    method NopProperty(node: nat, name: seq<u8>, ghost c: Ctx, ghost n: Forest) returns (err: int, ghost n2: Forest)
      requires Valid() && Encodes(c, n) && node == Offset(c)
      modifies this, mem, mem.data
      ensures Valid() && Encodes(c, n2) && h == old(h) && Rsv(h, mem.bytes) == old(Rsv(h, mem.bytes))
      ensures Strings(h, mem.bytes) == old(Strings(h, mem.bytes))
      ensures err == if name in Props(n.kids, Strings(h, mem.bytes)) then 0 else NOTFOUND
      ensures err == 0 ==>
        n2.rest == n.rest
          && TreeOf(n2, Strings(h, mem.bytes))
             == DelIn(TreeOf(n, Strings(h, mem.bytes)), name, Below(n.kids, Strings(h, mem.bytes), name))
      ensures err != 0 ==> n2 == n && mem.bytes == old(mem.bytes)
    {
      hide Struct, Strings, Rsv, Props, GetProp, Plug, PropCtx, PropFocus, Holds, Be32, Str, ScanNul, Aligned, At,
        TokAt, NextTag, Words, Kids, Check.Named, TokWords, Patched, AllNops, Nops, Below, Uncovered;
      var s, st := Blocks();
      FocusAt(s, c, n, st, name);
      var prop := GetPropLoop(s, st, node, name);
      if prop < 0 { return prop, n; }
      ghost var t := Head(PropFocus(n.kids, st, name));
      PropWords(s, prop, t);
      PropTokWords(t);
      var len := Be32(s, prop + 4);
      NopRegion(prop, len + 12);
      NopProp(s, Struct(h, mem.bytes), c, n, st, name);
      DroppedReads(n, st, name, TokWords(t), c);
      err, n2 := 0, Dropped(n, st, name, TokWords(t));
    }

    /**
     fdt_setprop_inplace_namelen_partial: some bytes of a value overwritten, nothing moved. WRITES_OUTSIDE is the
     copy that starts behind the value because the sum in the length test has wrapped.
     */
    method SetpropInplacePartial(node: nat, name: seq<u8>, idx: u32, val: seq<u8>, ghost c: Ctx, ghost n: Forest)
      returns (err: int, ghost n2: Forest)
      requires Valid() && Encodes(c, n) && node == Offset(c) && |val| <= INT_MAX
      modifies this, mem, mem.data
      ensures Valid() && Encodes(c, n2) && h == old(h) && Rsv(h, mem.bytes) == old(Rsv(h, mem.bytes))
      ensures Strings(h, mem.bytes) == old(Strings(h, mem.bytes)) && n2.rest == n.rest
      ensures var m := Props(n.kids, Strings(h, mem.bytes));
        if name !in m then err == NOTFOUND
        else if idx + |val| <= |m[name]| then err == 0
        else err == if TWO32 <= idx + |val| <= TWO32 + |m[name]| then WRITES_OUTSIDE else NOSPACE
      ensures var st := Strings(h, mem.bytes);
        err == 0 ==>
          && TreeOf(n2, st) == SetIn(TreeOf(n, st), name, Overwrite(Props(n.kids, st)[name], idx, val))
          && Revised(n, n2, st, iset{name})
          && var o := GetProp(old(Struct(h, mem.bytes)), st, node, name);
             && node <= o && o + 12 + idx + |val| <= node + Span(n)
                && GetProp(Struct(h, mem.bytes), st, node, name) == o
             && Patched(old(Struct(h, mem.bytes)), Struct(h, mem.bytes), o + 12 + idx, |val|)
      ensures err != 0 ==> n2 == n && mem.bytes == old(mem.bytes)
    {
      hide Struct, Strings, Rsv, Props, GetProp, Plug, PropCtx, PropFocus, Holds, Be32, Str, ScanNul, Aligned, At,
        TokAt, NextTag, Words, Kids, Check.Named, TokWords, Patched, Overwrite, Offset, RunCtx, RunTail, Revised,
          Reset, TreeOf, PropOff, Span, Ordered;
      var s, st := Blocks();
      FocusAt(s, c, n, st, name);
      var prop := GetPropLoop(s, st, node, name);
      if prop < 0 { return prop, n; }
      ghost var g := PropFocus(n.kids, st, name);
      PropWords(s, prop, Head(g));
      PropInSpan(c, n, st, name);
      var proplen := Be32(s, prop + 4);
      if !PartFits(proplen, idx, |val|) { return NOSPACE, n; }
      if idx + |val| > proplen { return WRITES_OUTSIDE, n; }
      PutStruct(prop + 12 + idx, val);
      PartWritten(s, Struct(h, mem.bytes), c, n, st, name, idx, val, g);
      err, n2 := 0, Reset(n, st, name, PropTok(g.nameoff, Overwrite(g.val, idx, val), g.pad));
    }
  }

  // ---------- The length test of the partial write ----------

  /** What the copy does to the node. */
  lemma {:induction false} PartWritten(s: seq<u8>, s': seq<u8>, c: Ctx, n: Forest, st: seq<u8>, name: seq<u8>, idx: nat,
                                       val: seq<u8>, g: Forest)
    requires OkC(c) && Ok(n) && n.Node? && Holds(s, Plug(c, n)) && Check.Named(Plug(c, n), st)
    requires name in Props(n.kids, st) && OkC(PropCtx(n.kids, st, name)) && Plug(PropCtx(n.kids, st, name), g) == n.kids
    requires g == PropFocus(n.kids, st, name) && g.Prop? && idx + |val| <= |g.val| && Str(st, g.nameoff) == Some(name)
    requires var o := PropOff(c, n, st, name) + 12 + idx; Patched(s, s', o, |val|) && s'[o..o + |val|] == val
    ensures var w := Overwrite(g.val, idx, val); var n2 := Reset(n, st, name, PropTok(g.nameoff, w, g.pad));
      && n2.Node? && Ok(n2) && Holds(s', Plug(c, n2)) && Check.Named(Plug(c, n2), st) && n2.rest == n.rest
      && TreeOf(n2, st) == SetIn(TreeOf(n, st), name, w) && Revised(n, n2, st, iset{name})
      && GetProp(s', st, Offset(c), name) == GetProp(s, st, Offset(c), name)
  {
    hide Props, GetProp, Plug, PropCtx, PropFocus, Holds, Str, Check.Named, Patched, Overwrite, Offset, Revised, Kids;
    var t := PropTok(g.nameoff, Overwrite(g.val, idx, val), g.pad);
    PatchProp(s, s', c, n, st, name, idx, val, g);
    SamePlace(s, s', c, n, st, name, t);
    RevisedReset(n, st, name, t);
  }

  /** The length test of fdt_setprop_inplace_namelen_partial, whose sum is 32-bit. */
  predicate PartFits(proplen: u32, idx: u32, len: u32) {
    proplen >= Add32(len, idx)
  }

  /** The test says whether the bytes fit exactly when its sum does not wrap to something that fits. */
  lemma {:induction false} PartFitsIff(proplen: u32, idx: u32, len: u32)
    ensures (PartFits(proplen, idx, len) <==> idx + len <= proplen) <==>
      (idx + len < TWO32 || Add32(len, idx) > proplen)
  {
  }

  /** One word at 2^32 - 4 passes the test for a value of any length. */
  lemma {:induction false} PartWraps(proplen: u32)
    ensures PartFits(proplen, 0xffff_fffc, 4) && 0xffff_fffc + 4 > proplen
  {
  }

  lemma {:induction false} RunFits(s: seq<u8>, off: nat, f: Forest)
    requires At(s, off, f)
    ensures OkC(RunCtx(f)) && Offset(RunCtx(f)) <= Size(f) && Aligned(off + Offset(RunCtx(f)))
      && off + Offset(RunCtx(f)) <= |s|
  {
    hide At, RunCtx, RunTail, Offset, Words, Aligned;
    OkRun(f);
    InsertFocus(f, [], [], []);
    AtPlug(s, off, RunCtx(f), RunTail(f));
    SizePlug(RunCtx(f), RunTail(f));
    AtFits(s, off, f);
  }

  lemma {:induction false} PatchedNone(s: seq<u8>, o: nat)
    requires o <= |s|
    ensures Patched(s, s, o, 0)
  {
  }

  lemma {:induction false} PatchedMore(s0: seq<u8>, s1: seq<u8>, s2: seq<u8>, o: nat, n: nat, k: nat)
    requires Patched(s0, s1, o, n) && Patched(s1, s2, o + n, k)
    ensures Patched(s0, s2, o, n + k) && s1[0..o + n] == s2[0..o + n]
  {
    Move(s1, 0, s2, 0, o + n, 0, o);
    Move(s0, o + n, s1, o + n, |s0| - o - n, k, |s0| - o - n - k);
  }

  lemma {:induction false} NodeWordsIs(n: Forest)
    requires n.Node? && Ok(n)
    ensures NodeSize(n) == 4 * NodeWords(n) == TagAlign(NodeSize(n)) && (NodeSize(n) + 3) / 4 == NodeWords(n)
  {
  }

  lemma {:induction false} PropTokWords(t: Token)
    requires t.PropTok?
    ensures TokSize(t) == TagAlign(|t.val| + 12) && (|t.val| + 12 + 3) / 4 == TokWords(t)
  {
  }

  /** The value of a node's property, empty when there is none. */
  ghost function Existing(n: Forest, st: seq<u8>, name: seq<u8>): seq<u8>
    requires n.Node?
  {
    if name in Props(n.kids, st) then Props(n.kids, st)[name] else []
  }

  lemma {:induction false} Halves(v: seq<u8>, x: nat, a: seq<u8>, b: seq<u8>)
    requires x <= |v| && v[..x] == a && v[x..] == b
    ensures v == a + b
  {
  }

  lemma {:induction false} StructSmall(h: Header, m: seq<u8>)
    requires Ordered(h, |m|)
    ensures |Struct(h, m)| <= INT_MAX
  {
  }

  lemma {:induction false} ExtendsSame(st: seq<u8>)
    ensures Extends(st, st)
  {
  }

  /** The end of the data in a blob, and what a property name costs there. */
  function Data(h: Header): int {
    h.offStrings + h.sizeStrings
  }

  ghost function NameCost(st: seq<u8>, name: seq<u8>): nat {
    if InTable(st, name) then 0 else |name| + 1
  }

  /** What setting a property to a value of `len` bytes adds to the data of a blob, `m` being the node's properties. */
  ghost function Growth(m: map<seq<u8>, seq<u8>>, name: seq<u8>, len: nat, st: seq<u8>): int {
    if name in m then TagAlign(len) - TagAlign(|m[name]|) else NameCost(st, name) + 12 + TagAlign(len)
  }

  lemma {:induction false} MovedNothing(m: seq<u8>, m': seq<u8>, d: nat, newlen: nat)
    requires Moved(m, m', d, 0, newlen, d)
    ensures m == m'
  {
    var k := d + newlen;
    assert m == m[0..k] + m[k..|m|] && m' == m'[0..k] + m'[k..|m'|];
  }
}
