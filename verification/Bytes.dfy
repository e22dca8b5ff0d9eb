/** Bytes, big-endian words, C strings and the alignment rules of a flattened device tree. */
module Bytes {

  newtype u8 = x: int | 0 <= x < 256
  type u32 = x: int | 0 <= x < 0x1_0000_0000
  type u64 = x: int | 0 <= x < 0x1_0000_0000_0000_0000

  const TWO32: int := 0x1_0000_0000
  const INT_MAX: int := 0x7fff_ffff
  const AT_SIGN: u8 := 64
  const SLASH: u8 := 47

  /** 32-bit addition, which wraps. */
  function Add32(a: u32, b: u32): u32 {
    if a + b < TWO32 then a + b else a + b - TWO32
  }

  /** The big-endian word at offset `o`. */
  function Be32(b: seq<u8>, o: int): (w: u32)
    requires 0 <= o && o + 4 <= |b|
  {
    ((b[o] as int * 256 + b[o + 1] as int) * 256 + b[o + 2] as int) * 256 + b[o + 3] as int
  }

  function Put32(w: u32): (b: seq<u8>)
    ensures |b| == 4
  {
    var q := w / 256; var p := q / 256;
    [(p / 256) as u8, (p % 256) as u8, (q % 256) as u8, (w % 256) as u8]
  }

  /** Moving a piece of bytes moves every piece inside it. */
  lemma {:induction false} Move<T>(s: seq<T>, i: nat, t: seq<T>, j: nat, n: nat, k: nat, m: nat)
    requires i + n <= |s| && j + n <= |t| && k + m <= n
    requires s[i..i + n] == t[j..j + n]
    ensures s[i + k..i + k + m] == t[j + k..j + k + m]
  {
    var x, y := s[i + k..i + k + m], t[j + k..j + k + m];
    assert |x| == |y| == m;
    forall h | 0 <= h < |x| ensures x[h] == y[h] {
      assert s[i..i + n][k + h] == t[j..j + n][k + h];
    }
  }

  lemma {:induction false} Slice<T>(s: seq<T>, off: nat, n: nat, i: nat, j: nat)
    requires i <= j <= n && off + n <= |s|
    ensures s[off..off + n][i..j] == s[off + i..off + j]
  {
    Move(s, off, s[off..off + n], 0, n, i, j - i);
  }

  lemma {:induction false} Move1<T>(s: seq<T>, i: nat, t: seq<T>, j: nat, n: nat, k: nat)
    requires i + n <= |s| && j + n <= |t| && k < n
    requires s[i..i + n] == t[j..j + n]
    ensures s[i + k] == t[j + k]
  {
    assert s[i..i + n][k] == t[j..j + n][k];
  }

  lemma {:induction false} Move32(s: seq<u8>, i: nat, t: seq<u8>, j: nat, n: nat, k: nat)
    requires i + n <= |s| && j + n <= |t| && k + 4 <= n
    requires s[i..i + n] == t[j..j + n]
    ensures Be32(s, i + k) == Be32(t, j + k)
  {
    Move1(s, i, t, j, n, k);
    Move1(s, i, t, j, n, k + 1);
    Move1(s, i, t, j, n, k + 2);
    Move1(s, i, t, j, n, k + 3);
  }

  predicate IsWords(w: int, off: int) {
    off == 4 * w
  }

  /** Offsets of tags are whole words. */
  ghost predicate Aligned(off: int) {
    exists w :: IsWords(w, off)
  }

  function TagAlign(x: nat): (r: nat)
    ensures x <= r < x + 4 && Aligned(r)
  {
    var w := (x + 3) / 4;
    assert IsWords(w, 4 * w);
    4 * w
  }

  function PadLen(x: nat): (r: nat)
    ensures r < 4
  {
    TagAlign(x) - x
  }

  lemma {:induction false} TagAlignShift(w: nat, x: nat)
    ensures TagAlign(4 * w + x) == 4 * w + TagAlign(x)
  {
    hide Aligned;
    assert (4 * w + x + 3) / 4 == w + (x + 3) / 4;
  }

  lemma {:induction false} AlignAdd(off: int, x: nat)
    requires 0 <= off && Aligned(off)
    ensures TagAlign(off + x) == off + TagAlign(x)
    ensures Aligned(off + TagAlign(x))
  {
    hide TagAlign;
    var w :| IsWords(w, off);
    TagAlignShift(w, x);
  }

  lemma {:induction false} AlignedAdd(off: int, w: int)
    ensures Aligned(0)
    ensures Aligned(off) ==> Aligned(off + 4 * w)
  {
    assert IsWords(0, 0);
    if Aligned(off) {
      var v :| IsWords(v, off);
      assert IsWords(v + w, off + 4 * w);
    }
  }

  /** The first NUL at or after `o`, or |b| when there is none. */
  function ScanNul(b: seq<u8>, o: nat): (z: nat)
    requires o <= |b|
    ensures o <= z <= |b|
    ensures forall k :: o <= k < z ==> b[k] != 0
    ensures z < |b| ==> b[z] == 0
    decreases |b| - o
  {
    if o == |b| || b[o] == 0 then o else ScanNul(b, o + 1)
  }

  lemma {:induction false} ScanNulUnique(b: seq<u8>, o: nat, z: nat)
    requires o <= z < |b| && b[z] == 0
    requires forall k :: o <= k < z ==> b[k] != 0
    ensures ScanNul(b, o) == z
  {
  }

  // ---------- Strings ----------

  /** strchr: the first `c`, or the length. */
  function Find(s: seq<u8>, c: u8): (k: nat)
    ensures k <= |s| && (forall i :: 0 <= i < k ==> s[i] != c) && (k < |s| ==> s[k] == c)
  {
    if s == [] || s[0] == c then 0 else 1 + Find(s[1..], c)
  }

  function SkipSlashes(p: seq<u8>): (q: seq<u8>)
    ensures |q| <= |p| && (q != [] ==> q[0] != SLASH)
  {
    if p == [] || p[0] != SLASH then p else SkipSlashes(p[1..])
  }

  /** `g` slashes. */
  function Slashes(g: nat): seq<u8> {
    if g == 0 then [] else [SLASH] + Slashes(g - 1)
  }

  lemma {:induction false} SkipGap(g: nat, w: seq<u8>)
    requires w == [] || w[0] != SLASH
    ensures SkipSlashes(Slashes(g) + w) == w
    decreases g
  {
    if g == 0 {
      assert Slashes(g) + w == w;
    } else {
      SkipGap(g - 1, w);
      assert (Slashes(g) + w)[1..] == Slashes(g - 1) + w;
    }
  }

  lemma {:induction false} FindIs(a: seq<u8>, b: seq<u8>, c: u8)
    requires c !in a && (b == [] || b[0] == c)
    ensures Find(a + b, c) == |a|
    decreases |a|
  {
    if a == [] {
      assert a + b == b;
    } else {
      assert (a + b)[1..] == a[1..] + b;
      FindIs(a[1..], b, c);
    }
  }

  datatype Option<+T> = None | Some(value: T)

  /** The NUL-terminated string at offset `o` of a strings block (libfdt's fdt_get_string). */
  function Str(st: seq<u8>, o: int): (r: Option<seq<u8>>)
    ensures r.Some? ==> 0 <= o && o + |r.value| < |st| && st[o..o + |r.value|] == r.value && 0 !in r.value
                        && st[o + |r.value|] == 0
  {
    if o < 0 || o >= |st| then None
    else
      var z := ScanNul(st, o);
      if z == |st| then None else Some(st[o..z])
  }

  lemma {:induction false} StrIs(st: seq<u8>, o: nat, name: seq<u8>)
    requires 0 !in name && o + |name| < |st|
    requires st[o..o + |name|] == name && st[o + |name|] == 0
    ensures Str(st, o) == Some(name)
  {
    assert forall k :: o <= k < o + |name| ==> st[k] == name[k - o];
    ScanNulUnique(st, o, o + |name|);
  }

  /** Growing the table at either end keeps every string that was terminated inside it. */
  lemma {:induction false} StrGrow(front: seq<u8>, st: seq<u8>, back: seq<u8>, o: int)
    requires Str(st, o).Some?
    ensures Str(front + st + back, |front| + o) == Str(st, o)
  {
    var name := Str(st, o).value;
    var t := front + st + back;
    assert t[|front| + o..|front| + o + |name|] == st[o..o + |name|];
    assert t[|front| + o + |name|] == st[o + |name|];
    StrIs(t, |front| + o, name);
  }
}
