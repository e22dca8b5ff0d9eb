/** The target tree of libpdbg: sorted children, virtual targets, and paths in the system tree. */
module Device {
  import opened Bytes
  import opened Memory

  // ---------- Names ----------

  predicate HexDigit(c: u8) {
    (48 <= c <= 57) || (65 <= c <= 70) || (97 <= c <= 102)
  }

  function HexValue(c: u8): nat
    requires HexDigit(c)
  {
    if c <= 57 then c as int - 48 else if c <= 70 then c as int - 55 else c as int - 87
  }

  /** strtoul in base 16, for at most sixteen digits and nothing else. */
  function Hex(u: seq<u8>): nat
    requires forall i :: 0 <= i < |u| ==> HexDigit(u[i])
  {
    if u == [] then 0 else Hex(u[..|u| - 1]) * 16 + HexValue(u[|u| - 1])
  }

  /** A node name: a base name, and a hex unit address or none. */
  datatype Name = Name(base: seq<u8>, unit: seq<u8>)

  predicate Proper(n: Name) {
    && n.base != [] && AT_SIGN !in n.base && SLASH !in n.base && 0 !in n.base
    && |n.unit| <= 16 && forall i :: 0 <= i < |n.unit| ==> HexDigit(n.unit[i])
  }

  /** The name as it stands in the device tree. */
  function Text(n: Name): seq<u8> {
    if n.unit == [] then n.base else n.base + [AT_SIGN] + n.unit
  }

  /** strcmp: negative, zero or positive. */
  function Strcmp(a: seq<u8>, b: seq<u8>): int {
    if a == [] then (if b == [] then 0 else -1)
    else if b == [] then 1
    else if a[0] < b[0] then -1
    else if a[0] > b[0] then 1
    else Strcmp(a[1..], b[1..])
  }

  /** dt_cmp_subnodes: unit addresses below the same base name by number, everything else as text. */
  function Cmp(a: Name, b: Name): int
    requires Proper(a) && Proper(b)
  {
    if a.unit != [] && b.unit != [] && a.base == b.base then
      (if Hex(a.unit) > Hex(b.unit) then 1 else 0) - (if Hex(a.unit) < Hex(b.unit) then 1 else 0)
    else Strcmp(Text(a), Text(b))
  }

  lemma {:induction false} StrcmpBack(a: seq<u8>, b: seq<u8>)
    ensures Strcmp(b, a) == -Strcmp(a, b) && (Strcmp(a, b) == 0 <==> a == b) && -1 <= Strcmp(a, b) <= 1
    decreases |a|
  {
    if a != [] && b != [] && a[0] == b[0] {
      StrcmpBack(a[1..], b[1..]);
      assert a == [a[0]] + a[1..] && b == [b[0]] + b[1..];
    }
  }

  lemma {:induction false} StrcmpTrans(a: seq<u8>, b: seq<u8>, c: seq<u8>)
    requires Strcmp(a, b) < 0 && Strcmp(b, c) < 0
    ensures Strcmp(a, c) < 0
    decreases |a|
  {
    if a != [] && b != [] && c != [] && a[0] == b[0] == c[0] { StrcmpTrans(a[1..], b[1..], c[1..]); }
  }

  lemma {:induction false} CmpBack(a: Name, b: Name)
    requires Proper(a) && Proper(b)
    ensures Cmp(b, a) == -Cmp(a, b) && -1 <= Cmp(a, b) <= 1 && (a == b ==> Cmp(a, b) == 0)
  {
    StrcmpBack(Text(a), Text(b));
  }

  predicate Starts(s: seq<u8>, p: seq<u8>) {
    p == [] || (s != [] && s[0] == p[0] && Starts(s[1..], p[1..]))
  }

  lemma {:induction false} StartsAt(s: seq<u8>, p: seq<u8>)
    requires Starts(s, p)
    ensures |p| <= |s| && s[..|p|] == p
    decreases |p|
  {
    if p != [] {
      StartsAt(s[1..], p[1..]);
      assert s[..|p|] == [s[0]] + s[1..][..|p| - 1] && p == [p[0]] + p[1..];
    }
  }

  /** Where a text differs from one that begins with `p`, it differs the same way from all that begin with `p`. */
  lemma {:induction false} StrcmpPrefix(s: seq<u8>, p: seq<u8>, x: seq<u8>, y: seq<u8>)
    requires !Starts(s, p)
    ensures Strcmp(s, p + x) == Strcmp(s, p + y) != 0 && Strcmp(p + x, s) == Strcmp(p + y, s) != 0
    decreases |s|
  {
    assert (p + x)[1..] == p[1..] + x && (p + y)[1..] == p[1..] + y;
    if s != [] && s[0] == p[0] { StrcmpPrefix(s[1..], p[1..], x, y); }
  }

  lemma {:induction false} AtPlace(n: Name, i: nat)
    requires Proper(n) && i < |Text(n)|
    ensures Text(n)[i] == AT_SIGN <==> n.unit != [] && i == |n.base|
  {
    if i > |n.base| { assert HexDigit(n.unit[i - |n.base| - 1]); }
  }

  /** Only units of the base name `p` begin with `p@`. */
  lemma {:induction false} OtherGroup(n: Name, p: seq<u8>)
    requires Proper(n) && Starts(Text(n), p + [AT_SIGN])
    ensures n.unit != [] && n.base == p
  {
    var q, s := p + [AT_SIGN], Text(n);
    StartsAt(s, q);
    assert s[|p|] == s[..|q|][|p|] == AT_SIGN;
    AtPlace(n, |p|);
    assert n.base == s[..|p|] == s[..|q|][..|p|] == q[..|p|] == p;
  }

  /** The order of subnodes is transitive on proper names. */
  lemma {:induction false} CmpTrans(a: Name, b: Name, c: Name)
    requires Proper(a) && Proper(b) && Proper(c) && Cmp(a, b) < 0 && Cmp(b, c) < 0
    ensures Cmp(a, c) < 0
  {
    hide Hex, Strcmp;
    var ab, bc, ac := Grouped(a, b), Grouped(b, c), Grouped(a, c);
    if ab && !bc {
      GroupSide(a, b, c);
    } else if !ab && bc {
      GroupSide(b, c, a);
    } else if !ab && !bc {
      StrcmpTrans(Text(a), Text(b), Text(c));
      if ac {
        GroupSide(a, c, b);
        StrcmpBack(Text(a), Text(b));
      }
    }
  }

  /** Both are unit addresses of the same base name. */
  predicate Grouped(a: Name, b: Name) {
    a.unit != [] && b.unit != [] && a.base == b.base
  }

  lemma {:induction false} GroupSide(a: Name, b: Name, c: Name)
    requires Proper(a) && Proper(b) && Proper(c) && Grouped(a, b) && !Grouped(b, c)
    ensures Strcmp(Text(c), Text(a)) == Strcmp(Text(c), Text(b)) != 0
      && Strcmp(Text(a), Text(c)) == Strcmp(Text(b), Text(c)) != 0
  {
    if Starts(Text(c), a.base + [AT_SIGN]) { OtherGroup(c, a.base); }
    StrcmpPrefix(Text(c), a.base + [AT_SIGN], a.unit, b.unit);
  }

  // ---------- What the order is ----------

  /** 0123456789abcdef */
  const DIGITS: seq<u8> := [48, 49, 50, 51, 52, 53, 54, 55, 56, 57, 97, 98, 99, 100, 101, 102]

  /** A capital letter as a small one. */
  function Lowered(c: u8): u8 {
    if 65 <= c <= 90 then c + 32 else c
  }

  function Power16(k: nat): nat {
    if k == 0 then 1 else 16 * Power16(k - 1)
  }

  /** The number that digits write: each counts its place among the sixteen, times a power of 16 for its position. */
  function Number(u: seq<u8>): int {
    if u == [] then 0 else Find(DIGITS, Lowered(u[0])) * Power16(|u| - 1) + Number(u[1..])
  }

  lemma {:induction false} DigitIs(c: u8)
    requires HexDigit(c)
    ensures Find(DIGITS, Lowered(c)) == HexValue(c) < 16
  {
    var v, l := HexValue(c), Lowered(c);
    assert DIGITS == DIGITS[..v] + DIGITS[v..] && DIGITS[v] == l;
    assert forall i :: 0 <= i < v ==> DIGITS[i] != l;
    FindIs(DIGITS[..v], DIGITS[v..], l);
  }

  lemma {:induction false} NumberMore(u: seq<u8>, c: u8)
    ensures Number(u + [c]) == 16 * Number(u) + Find(DIGITS, Lowered(c))
    decreases |u|
  {
    hide Lowered, Find;
    var w := u + [c];
    if u == [] {
      assert w[1..] == [] && w[0] == c && Power16(0) == 1;
    } else {
      var d, k := Find(DIGITS, Lowered(u[0])), |u| - 1;
      assert w[1..] == u[1..] + [c];
      NumberMore(u[1..], c);
      assert Power16(k + 1) == 16 * Power16(k);
      assert d * (16 * Power16(k)) == 16 * (d * Power16(k));
    }
  }

  /** What strtoul computes digit by digit is that number. */
  lemma {:induction false} HexIs(u: seq<u8>)
    requires forall i :: 0 <= i < |u| ==> HexDigit(u[i])
    ensures Hex(u) == Number(u)
    decreases |u|
  {
    hide Lowered, Find, HexValue;
    if u != [] {
      var w, c := u[..|u| - 1], u[|u| - 1];
      assert u == w + [c];
      HexIs(w);
      DigitIs(c);
      NumberMore(w, c);
    }
  }

  /** Two units of the same base name come in the order of their numbers. */
  lemma {:induction false} CmpNumbers(a: Name, b: Name)
    requires Proper(a) && Proper(b) && a.base == b.base && a.unit != [] && b.unit != []
    ensures Cmp(a, b) < 0 <==> Number(a.unit) < Number(b.unit)
    ensures Cmp(a, b) == 0 <==> Number(a.unit) == Number(b.unit)
  {
    hide Number, Hex;
    HexIs(a.unit);
    HexIs(b.unit);
  }

  lemma {:induction false} StrcmpAt(a: seq<u8>, b: seq<u8>, k: nat)
    requires k <= |a| && k <= |b| && a[..k] == b[..k]
    ensures k < |a| && k < |b| && a[k] != b[k] ==> (Strcmp(a, b) < 0 <==> a[k] < b[k]) && Strcmp(a, b) != 0
    ensures k == |a| < |b| ==> Strcmp(a, b) < 0
    ensures k == |b| < |a| ==> Strcmp(a, b) > 0
    decreases k
  {
    if k > 0 {
      assert a[0] == a[..k][0] == b[..k][0] == b[0];
      assert a[1..][..k - 1] == a[..k][1..] && b[1..][..k - 1] == b[..k][1..];
      StrcmpAt(a[1..], b[1..], k - 1);
    }
  }

  /** All other names come in the order of the first byte in which their texts differ, a prefix before the rest. */
  lemma {:induction false} CmpTexts(a: Name, b: Name, k: nat)
    requires Proper(a) && Proper(b) && !(a.base == b.base && a.unit != [] && b.unit != [])
    requires k <= |Text(a)| && k <= |Text(b)| && Text(a)[..k] == Text(b)[..k]
    ensures k < |Text(a)| && k < |Text(b)| && Text(a)[k] < Text(b)[k] ==> Cmp(a, b) < 0 < Cmp(b, a)
    ensures k == |Text(a)| < |Text(b)| ==> Cmp(a, b) < 0 < Cmp(b, a)
    ensures k == |Text(a)| == |Text(b)| ==> Cmp(a, b) == 0
  {
    hide Strcmp, Text, Proper;
    StrcmpAt(Text(a), Text(b), k);
    StrcmpAt(Text(b), Text(a), k);
    if k == |Text(a)| == |Text(b)| {
      assert Text(a)[..k] == Text(a) && Text(b)[..k] == Text(b);
      StrcmpBack(Text(a), Text(b));
    }
  }

  // ---------- The tree ----------

  /** A target: `vnode` is the target it is linked with, or negative; a target without a compatible is virtual. */
  datatype Target = Target(name: Name, parent: int, children: seq<nat>, vnode: int, compatible: bool)

  type Store = seq<Target>

  const ROOT: nat := 0

  /** target_to_virtual and target_to_real, not strict. */
  function ToVirtual(t: Store, n: nat): int
    requires n < |t|
  {
    if t[n].compatible && t[n].vnode >= 0 then t[n].vnode else n
  }

  function ToReal(t: Store, n: nat): int
    requires n < |t|
  {
    if !t[n].compatible && t[n].vnode >= 0 then t[n].vnode else n
  }

  /** Children in the order of dt_cmp_subnodes, no two of them equal in it. */
  ghost predicate Sorted(t: Store, l: seq<nat>) {
    && (forall i :: 0 <= i < |l| ==> l[i] < |t| && Proper(t[l[i]].name))
    && forall i, j :: 0 <= i < j < |l| ==> Cmp(t[l[i]].name, t[l[j]].name) < 0
  }

  /** The units of one base name come in ascending numeric order. */
  ghost predicate Ascending(t: Store, l: seq<nat>) {
    && (forall i :: 0 <= i < |l| ==> l[i] < |t|)
    && forall i, j :: 0 <= i < j < |l| && t[l[i]].name.base == t[l[j]].name.base && t[l[i]].name.unit != [] ==>
      t[l[j]].name.unit != [] && Number(t[l[i]].name.unit) < Number(t[l[j]].name.unit)
  }

  ghost predicate Linked(t: Store, n: nat)
    requires n < |t|
  {
    t[n].vnode >= 0 ==>
      && t[n].vnode < |t| && t[t[n].vnode].vnode == n && t[n].compatible != t[t[n].vnode].compatible && n != ROOT
  }

  /** A target has its place among its parent's children, and its own children are sorted. */
  ghost predicate Placed(t: Store, n: nat)
    requires n < |t|
  {
    && Linked(t, n) && Sorted(t, t[n].children)
    && (n != ROOT ==> Proper(t[n].name) && 0 <= t[n].parent < |t| && n in t[t[n].parent].children)
  }

  /** The target that dt_get_path goes to from `n`: the parent of the place of `n` in the system tree. */
  function Up(t: Store, n: nat): int
    requires n < |t| && 0 <= ToVirtual(t, n) < |t|
  {
    t[ToVirtual(t, n)].parent
  }

  ghost predicate Falls(t: Store, rank: seq<nat>, n: nat)
    requires n < |t| == |rank|
  {
    ToVirtual(t, n) != ROOT ==>
      0 <= ToVirtual(t, n) < |t| && 0 <= Up(t, n) < |t| && rank[Up(t, n)] < rank[n]
  }

  /** A tree of targets; `rank` falls from every target to the parent of its place in the system tree. */
  ghost predicate Formed(t: Store, rank: seq<nat>) {
    && |rank| == |t| > 0 && t[ROOT].parent < 0 && t[ROOT].name == Name([], [])
    && forall n :: 0 <= n < |t| ==> Placed(t, n) && Falls(t, rank, n)
  }

  /** No base name is shared between the children of two linked targets. */
  ghost predicate DistinctBases(t: Store) {
    forall n, i, j ::
      && 0 <= n < |t| && 0 <= t[n].vnode < |t| && 0 <= i < |t[n].children| && 0 <= j < |t[t[n].vnode].children|
      && t[n].children[i] < |t| && t[t[n].vnode].children[j] < |t| ==>
      t[t[n].children[i]].name.base != t[t[t[n].vnode].children[j]].name.base
  }

  // ---------- dt_attach_node ----------

  /** The place of a child: before the first that is larger; None for a duplicate. */
  method Place(t: Store, l: seq<nat>, c: Name) returns (dup: bool, k: nat)
    requires Sorted(t, l) && Proper(c)
    ensures k <= |l|
    ensures dup <==> exists i :: 0 <= i < |l| && Cmp(t[l[i]].name, c) == 0
    ensures !dup ==>
      (forall i :: 0 <= i < k ==> Cmp(t[l[i]].name, c) < 0) && (forall i :: k <= i < |l| ==> Cmp(c, t[l[i]].name) < 0)
  {
    hide Cmp;
    dup, k := false, 0;
    while k < |l|
      invariant 0 <= k <= |l| && !dup && forall i :: 0 <= i < k ==> Cmp(t[l[i]].name, c) < 0
    {
      var cmp := Cmp(t[l[k]].name, c);
      if cmp == 0 { return true, k; }
      if cmp > 0 { break; }
      k := k + 1;
    }
    forall i | k <= i < |l| ensures Cmp(c, t[l[i]].name) < 0 && Cmp(t[l[i]].name, c) != 0 {
      CmpBack(t[l[k]].name, c);
      if k < i { CmpTrans(c, t[l[k]].name, t[l[i]].name); }
      CmpBack(t[l[i]].name, c);
    }
  }

  lemma {:induction false} PlacedSorted(t: Store, l: seq<nat>, c: nat, k: nat)
    requires Sorted(t, l) && c < |t| && Proper(t[c].name) && k <= |l|
    requires forall i :: 0 <= i < k ==> Cmp(t[l[i]].name, t[c].name) < 0
    requires forall i :: k <= i < |l| ==> Cmp(t[c].name, t[l[i]].name) < 0
    ensures Sorted(t, l[..k] + [c] + l[k..])
  {
    hide Cmp;
    var r := l[..k] + [c] + l[k..];
    forall i, j | 0 <= i < j < |r| ensures Cmp(t[r[i]].name, t[r[j]].name) < 0 {
      var x, y := if i < k then i else i - 1, if j < k then j else j - 1;
      if i != k { assert r[i] == l[x]; }
      if j != k { assert r[j] == l[y]; }
    }
  }

  class Tree {
    var t: Store

    constructor (t: Store)
      ensures this.t == t
    {
      this.t := t;
    }

    /** dt_attach_node: the children stay sorted, and a duplicate is refused. */
    method Attach(parent: nat, child: nat) returns (ok: bool)
      requires parent < |t| && child < |t| && t[child].parent < 0 && Proper(t[child].name)
        && Sorted(t, t[parent].children) && parent != child
      modifies this
      ensures ok <==>
        !exists i :: 0 <= i < |old(t)[parent].children|
          && Cmp(old(t)[old(t)[parent].children[i]].name, old(t)[child].name) == 0
      ensures !ok ==> t == old(t)
      ensures ok ==>
        exists k :: 0 <= k <= |old(t)[parent].children| &&
          var l := old(t)[parent].children[..k] + [child] + old(t)[parent].children[k..];
          && t == old(t)[parent := old(t)[parent].(children := l)][child := old(t)[child].(parent := parent)]
          && Sorted(t, l) && Ascending(t, l)
    {
      hide Cmp, Ascending;
      var l := t[parent].children;
      var dup, k := Place(t, l, t[child].name);
      if dup { return false; }
      PlacedSorted(t, l, child, k);
      ghost var t0 := t;
      t := t[parent := t[parent].(children := l[..k] + [child] + l[k..])];
      t := t[child := t[child].(parent := parent)];
      SortedNames(t0, t, l[..k] + [child] + l[k..]);
      SortedAscends(t, l[..k] + [child] + l[k..]);
      assert 0 <= k <= |t0[parent].children|;
      return true;
    }
  }

  lemma {:induction false} SortedNames(t: Store, t': Store, l: seq<nat>)
    requires Sorted(t, l) && |t| == |t'| && forall i :: 0 <= i < |t| ==> t'[i].name == t[i].name
    ensures Sorted(t', l)
  {
    hide Cmp, Proper;
  }

  // ---------- Components ----------

  /** A component matches a name: the same base name, and the same unit address if the component has one. */
  predicate Match(c: Name, n: Name) {
    (c.base == [] || c.base == n.base) && (c.unit == [] || c.unit == n.unit)
  }

  /** The first child that matches, or a negative number. */
  function FirstMatch(t: Store, l: seq<nat>, c: Name): int
    requires forall i :: 0 <= i < |l| ==> l[i] < |t|
  {
    if l == [] then -1 else if Match(c, t[l[0]].name) then l[0] else FirstMatch(t, l[1..], c)
  }

  lemma {:induction false} FirstIs(t: Store, l: seq<nat>, c: Name, k: nat)
    requires (forall i :: 0 <= i < |l| ==> l[i] < |t|) && k < |l| && Match(c, t[l[k]].name)
    requires forall i :: 0 <= i < k ==> !Match(c, t[l[i]].name)
    ensures FirstMatch(t, l, c) == l[k]
    decreases |l|
  {
    hide Match;
    if k > 0 { FirstIs(t, l[1..], c, k - 1); }
  }

  lemma {:induction false} FirstNone(t: Store, l: seq<nat>, c: Name)
    requires (forall i :: 0 <= i < |l| ==> l[i] < |t| && !Match(c, t[l[i]].name))
    ensures FirstMatch(t, l, c) < 0
    decreases |l|
  {
    hide Match;
    if l != [] { FirstNone(t, l[1..], c); }
  }

  /** What a path component asks for: a base name, a unit address, or both. */
  predicate Asked(c: Name, n: Name) {
    if c.unit == [] then n.base == c.base else if c.base == [] then n.unit == c.unit else n == c
  }

  lemma {:induction false} AskedIs(c: Name, n: Name)
    requires c != Name([], [])
    ensures Match(c, n) <==> Asked(c, n)
  {
  }

  /**
   A component without unit address finds the first child of that base name, whatever its unit; one with a unit
   address alone the first child of that unit; one with both the first child of exactly that name.
   */
  lemma {:induction false} FirstBy(t: Store, l: seq<nat>, c: Name)
    requires (forall i :: 0 <= i < |l| ==> l[i] < |t|) && c != Name([], [])
    ensures forall k ::
      0 <= k < |l| && Asked(c, t[l[k]].name) && (forall i :: 0 <= i < k ==> !Asked(c, t[l[i]].name)) ==>
        FirstMatch(t, l, c) == l[k]
    ensures FirstMatch(t, l, c) < 0 <==> forall i :: 0 <= i < |l| ==> !Asked(c, t[l[i]].name)
  {
    hide Match, Asked, FirstMatch;
    forall i | 0 <= i < |l| ensures Match(c, t[l[i]].name) <==> Asked(c, t[l[i]].name) { AskedIs(c, t[l[i]].name); }
    forall k | 0 <= k < |l| && Asked(c, t[l[k]].name) && forall i :: 0 <= i < k ==> !Asked(c, t[l[i]].name)
      ensures FirstMatch(t, l, c) == l[k]
    {
      FirstIs(t, l, c, k);
    }
    if forall i :: 0 <= i < |l| ==> !Asked(c, t[l[i]].name) { FirstNone(t, l, c); } else { FoundSome(t, l, c); }
  }

  lemma {:induction false} FoundSome(t: Store, l: seq<nat>, c: Name)
    requires (forall i :: 0 <= i < |l| ==> l[i] < |t|) && exists i :: 0 <= i < |l| && Match(c, t[l[i]].name)
    ensures FirstMatch(t, l, c) >= 0
    decreases |l|
  {
    hide Match;
    if !Match(c, t[l[0]].name) {
      var i :| 0 <= i < |l| && Match(c, t[l[i]].name);
      assert l[1..][i - 1] == l[i];
      FoundSome(t, l[1..], c);
    }
  }

  /** A name without unit address comes before every name that has one below the same base name. */
  lemma {:induction false} PlainFirst(a: Name, b: Name)
    requires Proper(a) && Proper(b) && a.base == b.base && a.unit == [] && b.unit != []
    ensures Cmp(a, b) < 0
  {
    StrcmpShort(a.base, [AT_SIGN] + b.unit);
    assert Text(b) == a.base + ([AT_SIGN] + b.unit);
  }

  lemma {:induction false} StrcmpShort(s: seq<u8>, x: seq<u8>)
    requires x != []
    ensures Strcmp(s, s + x) < 0
    decreases |s|
  {
    if s != [] {
      assert (s + x)[1..] == s[1..] + x;
      StrcmpShort(s[1..], x);
    }
  }

  /** In sorted children the units of one base name ascend, behind the name without unit. */
  lemma {:induction false} SortedAscends(t: Store, l: seq<nat>)
    requires Sorted(t, l)
    ensures Ascending(t, l)
  {
    hide Cmp, Number, Proper;
    forall i, j | 0 <= i < j < |l| && t[l[i]].name.base == t[l[j]].name.base && t[l[i]].name.unit != []
      ensures t[l[j]].name.unit != [] && Number(t[l[i]].name.unit) < Number(t[l[j]].name.unit)
    {
      var a, b := t[l[i]].name, t[l[j]].name;
      if b.unit == [] {
        PlainFirst(b, a);
        CmpBack(a, b);
      } else {
        CmpNumbers(a, b);
      }
    }
  }

  /** In sorted children, looking for a child's own name finds that child. */
  lemma {:induction false} FindsItself(t: Store, l: seq<nat>, k: nat)
    requires Sorted(t, l) && k < |l|
    ensures FirstMatch(t, l, t[l[k]].name) == l[k]
  {
    hide Cmp;
    var c := t[l[k]].name;
    forall i | 0 <= i < k ensures !Match(c, t[l[i]].name) {
      var d := t[l[i]].name;
      CmpBack(d, c);
      CmpBack(c, c);
      if c.unit == [] && d.unit != [] && c.base == d.base { PlainFirst(c, d); }
    }
    FirstIs(t, l, c, k);
  }

  // ---------- Lookup by components ----------

  ghost predicate Closed(t: Store) {
    forall n, i :: 0 <= n < |t| && 0 <= i < |t[n].children| ==> t[n].children[i] < |t|
  }

  /** One step of dt_find_by_path: among the children, and if none matches among those of the linked target. */
  function StepTo(t: Store, cur: nat, c: Name): int
    requires cur < |t| && Closed(t)
  {
    var k := FirstMatch(t, t[cur].children, c);
    if k >= 0 || t[cur].vnode < 0 || t[cur].vnode >= |t| then k else FirstMatch(t, t[t[cur].vnode].children, c)
  }

  lemma {:induction false} MatchInside(t: Store, l: seq<nat>, c: Name)
    requires forall i :: 0 <= i < |l| ==> l[i] < |t|
    ensures FirstMatch(t, l, c) < |t|
    decreases |l|
  {
    if l != [] { MatchInside(t, l[1..], c); }
  }

  ghost function Descend(t: Store, cur: int, cs: seq<Name>): (r: int)
    requires cur < |t| && Closed(t)
    ensures r < |t|
    decreases |cs|
  {
    if cur < 0 || cs == [] then cur
    else
      var k := StepTo(t, cur, cs[0]);
      MatchInside(t, t[cur].children, cs[0]);
      if 0 <= t[cur].vnode < |t| then MatchInside(t, t[t[cur].vnode].children, cs[0]); Descend(t, k, cs[1..])
      else Descend(t, k, cs[1..])
  }

  /** The names from below the root down to a target, in the system tree. */
  ghost function Names(t: Store, rank: seq<nat>, n: nat): seq<Name>
    requires Formed(t, rank) && n < |t|
    decreases rank[n]
  {
    var v := ToVirtual(t, n);
    assert Placed(t, n) && Falls(t, rank, n);
    if v == ROOT then [] else Names(t, rank, t[v].parent) + [t[v].name]
  }

  lemma {:induction false} ChildrenInside(t: Store, rank: seq<nat>)
    requires Formed(t, rank)
    ensures Closed(t)
  {
    forall n, i | 0 <= n < |t| && 0 <= i < |t[n].children|
      ensures t[n].children[i] < |t|
    {
      assert Placed(t, n);
    }
  }

  lemma {:induction false} DescendMore(t: Store, cur: int, cs: seq<Name>, c: Name)
    requires cur < |t| && Closed(t)
    ensures Descend(t, cur, cs + [c]) == Descend(t, Descend(t, cur, cs), [c])
    decreases |cs|
  {
    hide FirstMatch;
    if cur >= 0 {
      if cs == [] {
        assert cs + [c] == [c];
      } else {
        assert (cs + [c])[1..] == cs[1..] + [c];
        MatchInside(t, t[cur].children, cs[0]);
        if 0 <= t[cur].vnode < |t| { MatchInside(t, t[t[cur].vnode].children, cs[0]); }
        DescendMore(t, StepTo(t, cur, cs[0]), cs[1..], c);
      }
    }
  }

  /** One step finds a target from the place of its parent in the system tree. */
  lemma {:induction false} StepFinds(t: Store, rank: seq<nat>, v: nat)
    requires Formed(t, rank) && DistinctBases(t) && v < |t| && v != ROOT
    requires Closed(t)
    ensures Placed(t, v) && var q := ToVirtual(t, t[v].parent); 0 <= q < |t| && StepTo(t, q, t[v].name) == v
  {
    hide FirstMatch, Cmp;
    assert Placed(t, v);
    var up := t[v].parent;
    assert Placed(t, up);
    var q, l := ToVirtual(t, up), t[up].children;
    var k :| 0 <= k < |l| && l[k] == v;
    FindsItself(t, l, k);
    if q != up {
      var m := t[q].children;
      forall i | 0 <= i < |m| ensures !Match(t[v].name, t[m[i]].name) {
        assert t[t[q].children[i]].name.base != t[t[t[q].vnode].children[k]].name.base;
      }
      FirstNone(t, m, t[v].name);
    }
  }

  lemma {:induction false} DescendNames(t: Store, rank: seq<nat>, n: nat)
    requires Formed(t, rank) && DistinctBases(t) && n < |t|
    requires Closed(t)
    ensures Descend(t, ROOT, Names(t, rank, n)) == ToVirtual(t, n)
    decreases rank[n]
  {
    hide StepTo, Sorted, DistinctBases;
    var v := ToVirtual(t, n);
    assert Placed(t, n) && Falls(t, rank, n);
    if v != ROOT {
      var up := t[v].parent;
      DescendNames(t, rank, up);
      DescendMore(t, ROOT, Names(t, rank, up), t[v].name);
      StepFinds(t, rank, v);
      DescendOne(t, ToVirtual(t, up), t[v].name);
    }
  }

  lemma {:induction false} DescendOne(t: Store, cur: nat, c: Name)
    requires cur < |t| && Closed(t)
    ensures Descend(t, cur, [c]) == StepTo(t, cur, c)
  {
    hide StepTo;
    var cs := [c];
    assert cs[1..] == [];
  }

  lemma {:induction false} RealVirtual(t: Store, rank: seq<nat>, n: nat)
    requires Formed(t, rank) && n < |t|
    ensures 0 <= ToVirtual(t, n) < |t| && ToReal(t, ToVirtual(t, n)) == ToReal(t, n)
  {
    hide Sorted;
    assert Placed(t, n) && Falls(t, rank, n);
  }

  // ---------- Paths ----------

  datatype Piece = Piece(name: Name, rest: seq<u8>)

  /** __dt_path_split: the next component, and the path after it. */
  function Split(p: seq<u8>): (r: Piece)
    ensures |r.rest| <= |p| && (r.name != Name([], []) ==> |r.rest| < |p|)
  {
    var q := SkipSlashes(p);
    var at, sl := Find(q, AT_SIGN), Find(q, SLASH);
    if at < sl then Piece(Name(q[..at], q[at + 1..sl]), q[sl..]) else Piece(Name(q[..sl], []), q[sl..])
  }

  lemma {:induction false} FindPast(a: seq<u8>, b: seq<u8>, c: u8)
    requires c !in a
    ensures Find(a + b, c) >= |a|
    decreases |a|
  {
    if a != [] {
      assert (a + b)[1..] == a[1..] + b;
      FindPast(a[1..], b, c);
    }
  }

  /**
   Any component of a path: however many slashes are in front of it, what follows up to the next one is a base name
   up to the first '@' and a unit address behind that.
   */
  lemma {:induction false} SplitAny(g: nat, base: seq<u8>, unit: Option<seq<u8>>, rest: seq<u8>)
    requires AT_SIGN !in base && SLASH !in base && (unit.Some? ==> SLASH !in unit.value)
    requires (rest == [] || rest[0] == SLASH) && (base != [] || unit.Some? || rest == [])
    ensures var word := base + (if unit.Some? then [AT_SIGN] + unit.value else []);
      Split(Slashes(g) + (word + rest)) == Piece(Name(base, if unit.Some? then unit.value else []), rest)
  {
    hide Find, Slashes;
    var tail := if unit.Some? then [AT_SIGN] + unit.value else [];
    var word := base + tail;
    var q := word + rest;
    SkipGap(g, q);
    FindIs(word, rest, SLASH);
    assert q[|word|..] == rest && q[..|word|] == word && q[..|base|] == base;
    if unit.Some? {
      assert q == base + (tail + rest);
      FindIs(base, tail + rest, AT_SIGN);
      assert q[|base| + 1..|word|] == unit.value;
    } else {
      assert word == base;
      FindPast(base, rest, AT_SIGN);
    }
  }

  lemma {:induction false} TextPlain(n: Name)
    requires Proper(n)
    ensures SLASH !in Text(n) && Text(n) != [] && Text(n)[0] == n.base[0] && AT_SIGN !in n.unit
  {
    forall i | 0 <= i < |Text(n)| ensures Text(n)[i] != SLASH {
      if i > |n.base| { assert HexDigit(n.unit[i - |n.base| - 1]); }
    }
    forall i | 0 <= i < |n.unit| ensures n.unit[i] != AT_SIGN { assert HexDigit(n.unit[i]); }
  }

  lemma {:induction false} SplitAt(q: seq<u8>, n: Name, rest: seq<u8>)
    requires Proper(n) && (rest == [] || rest[0] == SLASH) && q == Text(n) + rest
    ensures var at, sl := Find(q, AT_SIGN), Find(q, SLASH);
      sl == |Text(n)| && q[sl..] == rest && if n.unit == [] then at >= sl && q[..sl] == n.base
                                            else at < sl && q[..at] == n.base && q[at + 1..sl] == n.unit
  {
    hide Proper, Find;
    TextPlain(n);
    ProperPlain(n);
    FindIs(Text(n), rest, SLASH);
    if n.unit == [] {
      FindPast(Text(n), rest, AT_SIGN);
    } else {
      var z := [AT_SIGN] + n.unit + rest;
      assert q == n.base + z;
      FindIs(n.base, z, AT_SIGN);
      var k := |n.base|;
      assert q[k + 1..k + 1 + |n.unit|] == n.unit;
    }
  }

  /** A proper name in a path is split off as it is. */
  lemma {:induction false} SplitText(n: Name, rest: seq<u8>)
    requires Proper(n) && (rest == [] || rest[0] == SLASH)
    ensures Split([SLASH] + Text(n) + rest) == Piece(n, rest)
  {
    hide Proper, Find, Text;
    var p, q := [SLASH] + Text(n) + rest, Text(n) + rest;
    TextPlain(n);
    ProperPlain(n);
    assert p[0] == SLASH && p[1..] == q && q[0] == Text(n)[0];
    assert SkipSlashes(p) == SkipSlashes(q) == q;
    SplitAt(q, n, rest);
  }

  lemma {:induction false} ProperPlain(n: Name)
    requires Proper(n)
    ensures AT_SIGN !in n.base && SLASH !in n.base && n.base != []
  {
  }

  /** dt_find_by_path on what is left of the path. */
  function Lookup(t: Store, cur: nat, p: seq<u8>): int
    requires cur < |t| && Closed(t)
    decreases |p|
  {
    var s := Split(p);
    if p == [] || s.name == Name([], []) then cur
    else
      var k := StepTo(t, cur, s.name);
      StepInside(t, cur, s.name);
      if k < 0 then k else Lookup(t, k, s.rest)
  }

  lemma {:induction false} StepInside(t: Store, cur: nat, c: Name)
    requires cur < |t| && Closed(t)
    ensures StepTo(t, cur, c) < |t|
  {
    MatchInside(t, t[cur].children, c);
    if 0 <= t[cur].vnode < |t| { MatchInside(t, t[t[cur].vnode].children, c); }
  }

  /** dt_find_by_path. */
  function FindByPath(t: Store, path: seq<u8>): int
    requires |t| > 0 && Closed(t)
  {
    var k := Lookup(t, ROOT, path);
    if 0 <= k < |t| then ToReal(t, k) else -1
  }

  function Joined(cs: seq<Name>): seq<u8> {
    if cs == [] then [] else [SLASH] + Text(cs[0]) + Joined(cs[1..])
  }

  lemma {:induction false} LookupJoined(t: Store, cur: nat, cs: seq<Name>)
    requires cur < |t| && Closed(t) && forall i :: 0 <= i < |cs| ==> Proper(cs[i])
    ensures Lookup(t, cur, Joined(cs)) == Descend(t, cur, cs)
    decreases |cs|
  {
    hide StepTo, Split, Proper, Text;
    if cs != [] {
      SplitText(cs[0], Joined(cs[1..]));
      ProperPlain(cs[0]);
      StepInside(t, cur, cs[0]);
      if StepTo(t, cur, cs[0]) >= 0 { LookupJoined(t, StepTo(t, cur, cs[0]), cs[1..]); }
    } else {
      SplitNone();
    }
  }

  lemma {:induction false} SplitNone()
    ensures Split([]) == Piece(Name([], []), []) && Split([SLASH]) == Piece(Name([], []), [])
  {
    assert [SLASH][1..] == [];
  }

  /** The path of a target: the names of its place in the system tree, and "/" for the root. */
  ghost function PathOf(t: Store, rank: seq<nat>, n: nat): seq<u8>
    requires Formed(t, rank) && n < |t|
  {
    if n == ROOT then [SLASH] else Joined(Names(t, rank, n))
  }

  lemma {:induction false} NamesProper(t: Store, rank: seq<nat>, n: nat)
    requires Formed(t, rank) && n < |t|
    ensures forall i :: 0 <= i < |Names(t, rank, n)| ==> Proper(Names(t, rank, n)[i])
    decreases rank[n]
  {
    hide Sorted, Proper;
    var v := ToVirtual(t, n);
    assert Placed(t, n) && Falls(t, rank, n);
    if v != ROOT {
      assert Placed(t, v);
      NamesProper(t, rank, t[v].parent);
    }
  }

  /** dt_find_by_path(dt_get_path(n)) is target_to_real(n), for every attached target. */
  lemma {:induction false} PathRoundTrip(t: Store, rank: seq<nat>, n: nat)
    requires Formed(t, rank) && DistinctBases(t) && n < |t|
    ensures Closed(t) && FindByPath(t, PathOf(t, rank, n)) == ToReal(t, n)
  {
    hide Sorted, DistinctBases, Lookup, Names, Descend;
    ChildrenInside(t, rank);
    RealVirtual(t, rank, n);
    DescendNames(t, rank, n);
    if n == ROOT {
      assert Placed(t, ROOT);
      LookupRoot(t);
    } else {
      NamesProper(t, rank, n);
      LookupJoined(t, ROOT, Names(t, rank, n));
    }
  }

  lemma {:induction false} LookupRoot(t: Store)
    requires |t| > 0 && Closed(t)
    ensures Lookup(t, ROOT, [SLASH]) == ROOT
  {
    SplitNone();
  }

  // ---------- The loops ----------

  /** The inner loop of dt_find_by_path over the children of one target. */
  method MatchChild(t: Store, l: seq<nat>, c: Name) returns (r: int)
    requires forall i :: 0 <= i < |l| ==> l[i] < |t|
    ensures r == FirstMatch(t, l, c)
  {
    hide Match;
    var i := 0;
    assert l[0..] == l;
    while i < |l|
      invariant 0 <= i <= |l| && FirstMatch(t, l[i..], c) == FirstMatch(t, l, c)
    {
      if Match(c, t[l[i]].name) { return l[i]; }
      assert l[i..][1..] == l[i + 1..];
      i := i + 1;
    }
    return -1;
  }

  /** dt_find_by_path, with its second try at the linked target. */
  method WalkPath(t: Store, path: seq<u8>) returns (r: int)
    requires |t| > 0 && Closed(t)
    ensures r == FindByPath(t, path)
  {
    hide Split, FirstMatch;
    var cur, p := ROOT, path;
    while p != []
      invariant 0 <= cur < |t| && Lookup(t, cur, p) == Lookup(t, ROOT, path)
      decreases |p|
    {
      var s := Split(p);
      if s.name == Name([], []) { break; }
      var n := MatchChild(t, t[cur].children, s.name);
      if n < 0 && 0 <= t[cur].vnode < |t| { n := MatchChild(t, t[t[cur].vnode].children, s.name); }
      StepInside(t, cur, s.name);
      if n < 0 { return -1; }
      cur, p := n, s.rest;
    }
    return ToReal(t, cur);
  }

  /** The text that a target and the targets above it add to a path. */
  ghost function Trail(t: Store, rank: seq<nat>, n: nat): seq<u8>
    requires Formed(t, rank) && n < |t|
  {
    Joined(Names(t, rank, n))
  }

  lemma {:induction false} JoinedMore(cs: seq<Name>, c: Name)
    ensures Joined(cs + [c]) == Joined(cs) + ([SLASH] + Text(c))
    decreases |cs|
  {
    hide Text;
    if cs == [] {
      assert cs + [c] == [c] && [c][1..] == [];
      assert [SLASH] + Text(c) + [] == [] + ([SLASH] + Text(c));
    } else {
      assert (cs + [c])[1..] == cs[1..] + [c];
      JoinedMore(cs[1..], c);
      var a, b, d := [SLASH] + Text(cs[0]), Joined(cs[1..]), [SLASH] + Text(c);
      assert a + (b + d) == a + b + d;
    }
  }

  /** One step up adds a slash and a name in front of what is already there. */
  lemma {:induction false} TrailStep(t: Store, rank: seq<nat>, n: nat)
    requires Formed(t, rank) && n < |t|
    ensures var v := ToVirtual(t, n);
      && |rank| == |t| && 0 <= v < |t| && (v == ROOT <==> n == ROOT) && (v == ROOT <==> t[v].parent < 0)
         && t[v].parent < |t|
      && (v == ROOT ==> Trail(t, rank, n) == [] && Text(t[v].name) == [])
      && (v != ROOT ==>
         rank[t[v].parent] < rank[n] && Trail(t, rank, n) == Trail(t, rank, t[v].parent) + ([SLASH] + Text(t[v].name)))
  {
    hide Text, Sorted, Proper;
    var v := ToVirtual(t, n);
    assert Placed(t, n) && Falls(t, rank, n) && Placed(t, ROOT);
    if v != ROOT { JoinedMore(Names(t, rank, t[v].parent), t[v].name); }
    assert Text(Name([], [])) == [] by { EmptyText(); }
  }

  lemma {:induction false} EmptyText()
    ensures Text(Name([], [])) == []
  {
  }

  /** The first loop of dt_get_path: the length of the path. */
  method PathLength(t: Store, node: nat, ghost rank: seq<nat>) returns (len: nat)
    requires Formed(t, rank) && node < |t|
    ensures len == |PathOf(t, rank, node)|
  {
    hide Trail, Text, Formed, Names, Joined;
    len := 0;
    var n: int := node;
    while n >= 0
      invariant n < |t|
        && (n >= 0 ==> |Trail(t, rank, n)| + len == |Trail(t, rank, node)| && (n == ROOT && len == 0 ==> node == ROOT))
      invariant n < 0 ==> len == |PathOf(t, rank, node)|
      decreases if 0 <= n < |rank| then rank[n] + 1 else 0
    {
      TrailStep(t, rank, n);
      TrailIs(t, rank, node);
      n := ToVirtual(t, n);
      len := len + |Text(t[n].name)|;
      if t[n].parent >= 0 || n == node { len := len + 1; }
      n := t[n].parent;
    }
  }

  lemma {:induction false} TrailIs(t: Store, rank: seq<nat>, n: nat)
    requires Formed(t, rank) && n < |t|
    ensures PathOf(t, rank, n) == if n == ROOT then [SLASH] else Trail(t, rank, n)
  {
  }

  lemma {:induction false} Prefixed(b: seq<u8>, b1: seq<u8>, b2: seq<u8>, p: nat, w: seq<u8>)
    requires |w| < p <= |b| && Stored(b, b1, p - |w|, w) && Stored(b1, b2, p - |w| - 1, [SLASH])
    ensures |b2| == |b| && b2[p - |w| - 1..|b|] == [SLASH] + w + b[p..|b|]
  {
    var q := p - |w|;
    assert b1[q..|b|] == w + b[p..|b|] by { assert b1[q..|b|] == b1[q..q + |w|] + b1[q + |w|..|b|]; }
    assert b2[q - 1..|b|] == b2[q - 1..q] + b2[q..|b|];
  }

  /** dt_get_path: the buffer is filled from its end. */
  method GetPath(t: Store, node: nat, ghost rank: seq<nat>) returns (path: seq<u8>)
    requires Formed(t, rank) && node < |t|
    ensures path == PathOf(t, rank, node)
  {
    hide Trail, Text, Formed, Names, Joined, Stored;
    TrailStep(t, rank, node);
    TrailIs(t, rank, node);
    var len := PathLength(t, node, rank);
    var buf := new Buffer(len);
    var n: int, p: int := node, len;
    ghost var whole := PathOf(t, rank, node);
    assert whole + buf.bytes[len..len] == whole;
    while n >= 0
      invariant n < |t| && buf.Valid() && |buf.bytes| == len && fresh(buf) && fresh(buf.data) && 0 <= p <= len
      invariant n >= 0 && node == ROOT ==> n == ROOT && p == len == 1
      invariant n >= 0 && node != ROOT ==> p == |Trail(t, rank, n)| && Trail(t, rank, n) + buf.bytes[p..len] == whole
      invariant n < 0 ==> p == 0 && buf.bytes[0..len] == whole
      decreases if 0 <= n < |rank| then rank[n] + 1 else 0
    {
      TrailStep(t, rank, n);
      ghost var z := buf.bytes[p..len];
      n := ToVirtual(t, n);
      var w, up := Text(t[n].name), t[n].parent;
      p := PutFront(buf, p, w, up >= 0 || n == node);
      if up >= 0 { Regroup(Trail(t, rank, up), [SLASH] + w, z); } else { FrontRoot(z, len, p); }
      n := up;
    }
    path := buf.Load(0, len);
  }

  lemma {:induction false} Regroup(x: seq<u8>, y: seq<u8>, z: seq<u8>)
    ensures x + y + z == x + (y + z)
  {
  }

  lemma {:induction false} FrontRoot(z: seq<u8>, len: nat, p: int)
    ensures [] + z == z && (z == [] ==> [SLASH] + [] + z == [SLASH])
  {
  }

  /** A name, and a slash before it if wanted, put in front of what the buffer already holds. */
  method PutFront(buf: Buffer, p: nat, w: seq<u8>, slash: bool) returns (q: nat)
    requires buf.Valid() && p <= |buf.bytes| && |w| + (if slash then 1 else 0) <= p
    modifies buf, buf.data
    ensures buf.Valid() && |buf.bytes| == |old(buf.bytes)| && q == p - |w| - (if slash then 1 else 0)
    ensures buf.bytes[q..|buf.bytes|] == (if slash then [SLASH] + w else w) + old(buf.bytes)[p..|buf.bytes|]
  {
    hide Stored;
    ghost var b := buf.bytes;
    q := p - |w|;
    buf.Store(q, w);
    ghost var b1 := buf.bytes;
    if slash {
      q := q - 1;
      buf.Store(q, [SLASH]);
      Prefixed(b, b1, buf.bytes, p, w);
    } else {
      Fronted(b, b1, p, w);
    }
  }

  lemma {:induction false} Fronted(b: seq<u8>, b1: seq<u8>, p: nat, w: seq<u8>)
    requires |w| <= p <= |b| && Stored(b, b1, p - |w|, w)
    ensures |b1| == |b| && b1[p - |w|..|b|] == w + b[p..|b|]
  {
    var q := p - |w|;
    assert b1[q..|b|] == b1[q..q + |w|] + b1[q + |w|..|b|];
  }
}
