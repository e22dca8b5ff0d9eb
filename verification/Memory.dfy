/** A fixed buffer of bytes with the C copies that edit it in place. */
module Memory {
  import opened Bytes

  /** Only the `n` bytes at `p` differ. */
  ghost predicate Patched(m: seq<u8>, m': seq<u8>, p: nat, n: nat) {
    |m| == |m'| && p + n <= |m| && m'[0..p] == m[0..p] && m'[p + n..|m|] == m[p + n..|m|]
  }

  /** `v` is stored at `p`, and nothing else has changed. */
  ghost predicate Stored(m: seq<u8>, m': seq<u8>, p: nat, v: seq<u8>) {
    Patched(m, m', p, |v|) && m'[p..p + |v|] == v
  }

  /** The `n` bytes that were at `src` are at `dst`, and nothing else has changed. */
  ghost predicate Copied(m: seq<u8>, m': seq<u8>, dst: nat, src: nat, n: nat) {
    src + n <= |m| && Stored(m, m', dst, m[src..src + n])
  }

  /** The bytes from `dst` on come from `f`, the others are as before. */
  ghost predicate Replaced(m: seq<u8>, m': seq<u8>, dst: nat, f: seq<u8>) {
    && |m'| == |m| && dst + |f| <= |m| && (forall i :: 0 <= i < dst ==> m'[i] == m[i])
    && (forall i :: dst + |f| <= i < |m| ==> m'[i] == m[i])
       && (forall i :: dst <= i < dst + |f| ==> m'[i] == f[i - dst])
  }

  lemma {:induction false} ReplacedIs(m: seq<u8>, m': seq<u8>, dst: nat, f: seq<u8>)
    requires Replaced(m, m', dst, f)
    ensures Stored(m, m', dst, f)
  {
  }

  lemma {:induction false} PatchWord(s: seq<u8>, x: nat, w: u32)
    requires x + 4 <= |s| && s[x..x + 4] == Put32(w)
    ensures Be32(s, x) == w
  {
    var v := Put32(w);
    assert s[x] == s[x..x + 4][0] == v[0] && s[x + 1] == s[x..x + 4][1] == v[1];
    assert s[x + 2] == s[x..x + 4][2] == v[2] && s[x + 3] == s[x..x + 4][3] == v[3];
  }

  lemma {:induction false} Untouched(m: seq<u8>, m': seq<u8>, p: nat, n: nat, i: nat, j: nat)
    requires Patched(m, m', p, n) && i <= j <= |m| && (j <= p || p + n <= i)
    ensures m'[i..j] == m[i..j]
  {
    if j <= p {
      Move(m, 0, m', 0, p, i, j - i);
    } else {
      Move(m, p + n, m', p + n, |m| - p - n, i - p - n, j - i);
    }
  }

  lemma {:induction false} Widen(m: seq<u8>, m': seq<u8>, x: nat, k: nat, p: nat, n: nat)
    requires Patched(m, m', x, k) && p <= x && x + k <= p + n <= |m|
    ensures Patched(m, m', p, n)
  {
    Untouched(m, m', x, k, 0, p);
    Untouched(m, m', x, k, p + n, |m|);
  }

  lemma {:induction false} PatchedTrans(m: seq<u8>, m1: seq<u8>, m2: seq<u8>, p: nat, n: nat)
    requires Patched(m, m1, p, n) && Patched(m1, m2, p, n)
    ensures Patched(m, m2, p, n)
  {
  }

  lemma {:induction false} WindowPatch(m: seq<u8>, m': seq<u8>, w: nat, n: nat, x: nat, v: seq<u8>)
    requires w + n <= |m| && x + |v| <= n && Stored(m, m', w + x, v)
    ensures |m'| == |m| && Patched(m[w..w + n], m'[w..w + n], x, |v|) && m'[w..w + n][x..x + |v|] == v
    ensures Patched(m, m', w, n)
  {
    var k := |v|;
    Widen(m, m', w + x, k, w, n);
    Untouched(m, m', w + x, k, w, w + x);
    Untouched(m, m', w + x, k, w + x + k, w + n);
    Slice(m, w, n, 0, x);
    Slice(m', w, n, 0, x);
    Slice(m, w, n, x + k, n);
    Slice(m', w, n, x + k, n);
    Slice(m', w, n, x, x + k);
  }

  lemma {:induction false} PatchedSize(s: seq<u8>, s': seq<u8>, x: nat, n: nat)
    requires Patched(s, s', x, n)
    ensures |s'| == |s|
  {
  }

  /** A word outside the patched bytes is unchanged. */
  lemma {:induction false} PatchKeeps(s: seq<u8>, s': seq<u8>, x: nat, n: nat, y: nat)
    requires Patched(s, s', x, n) && y + 4 <= |s| && (y + 4 <= x || x + n <= y)
    ensures Be32(s', y) == Be32(s, y)
  {
    hide Be32;
    if y + 4 <= x {
      Move32(s, 0, s', 0, x, y);
    } else {
      Move32(s, x + n, s', x + n, |s| - x - n, y - x - n);
    }
  }

  class Buffer {
    const data: array<u8>
    ghost var bytes: seq<u8>

    ghost predicate Valid()
      reads this, data
    {
      bytes == data[..]
    }

    constructor (size: nat)
      ensures Valid() && fresh(data) && |bytes| == size
    {
      data := new u8[size](i => 0);
      new;
      bytes := data[..];
    }

    /** memmove: source and destination may overlap. */
    method Memmove(dst: nat, src: nat, n: nat)
      requires Valid() && dst + n <= |bytes| && src + n <= |bytes|
      modifies this, data
      ensures Valid() && |bytes| == |old(bytes)| && Copied(old(bytes), bytes, dst, src, n)
    {
      forall i | 0 <= i < n {
        data[dst + i] := data[src + i];
      }
      hide Patched, Stored;
      ghost var f := bytes[src..src + n];
      assert Replaced(bytes, data[..], dst, f);
      ReplacedIs(bytes, data[..], dst, f);
      bytes := data[..];
    }

    /** memcpy from outside the buffer. */
    method Store(p: nat, v: seq<u8>)
      requires Valid() && p + |v| <= |bytes|
      modifies this, data
      ensures Valid() && |bytes| == |old(bytes)| && Stored(old(bytes), bytes, p, v)
    {
      forall i | 0 <= i < |v| {
        data[p + i] := v[i];
      }
      hide Patched, Stored;
      assert Replaced(bytes, data[..], p, v);
      ReplacedIs(bytes, data[..], p, v);
      bytes := data[..];
    }

    method Load(p: nat, n: nat) returns (v: seq<u8>)
      requires Valid() && p + n <= |bytes|
      ensures v == bytes[p..p + n]
    {
      v := data[p..p + n];
    }
  }
}
