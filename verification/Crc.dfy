/** CRC-4 framing on the FSI bus: what the sender appends, what the receiver accepts, and which errors it detects. */
module Crc {

  // ---------- crc4 ----------

  /** crc4: one bit into a four-bit remainder, polynomial x^4 + x^2 + x + 1. */
  function Crc4(c: bv8, b: bool): bv8 {
    var c0 := c & 0xf;
    var m: bv8 := (if b then 1 else 0) ^ ((c0 >> 3) & 1);
    var m3 := (m << 2) | (m << 1) | m;
    ((c0 << 1) ^ m3) & 0xf
  }

  /** The remainder as its bits, the highest first. */
  datatype Rem = Rem(c3: bool, c2: bool, c1: bool, c0: bool)

  function Bit(c: bv8, i: nat): bool
    requires i < 8
  {
    (c >> i as bv4) & 1 == 1
  }

  function RemOf(c: bv8): Rem {
    Rem(Bit(c, 3), Bit(c, 2), Bit(c, 1), Bit(c, 0))
  }

  function Next(r: Rem, b: bool): Rem {
    var m := b != r.c3;
    Rem(r.c2, r.c1 != m, r.c0 != m, m)
  }

  /** The bit expressions of crc4 are the shift register. */
  lemma {:induction false} Crc4Bits(c: bv8, b: bool)
    ensures RemOf(Crc4(c, b)) == Next(RemOf(c), b) && Crc4(c, b) <= 0xf
  {
  }

  lemma {:induction false} RemZero(c: bv8)
    requires c <= 0xf
    ensures c == 0 <==> RemOf(c) == Rem(false, false, false, false)
  {
  }

  const ZERO: Rem := Rem(false, false, false, false)

  /** The remainder after a string of bits. */
  function Run(r: Rem, bits: seq<bool>): Rem
    decreases |bits|
  {
    if bits == [] then r else Run(Next(r, bits[0]), bits[1..])
  }

  lemma {:induction false} RunConcat(r: Rem, a: seq<bool>, b: seq<bool>)
    ensures Run(r, a + b) == Run(Run(r, a), b)
    decreases |a|
  {
    if a == [] {
      assert a + b == b;
    } else {
      assert (a + b)[1..] == a[1..] + b;
      RunConcat(Next(r, a[0]), a[1..], b);
    }
  }

  lemma {:induction false} RunMore(r: Rem, a: seq<bool>, b: bool)
    ensures Run(r, a + [b]) == Next(Run(r, a), b)
  {
    RunConcat(r, a, [b]);
    assert [b][1..] == [];
  }

  /** The four bits that the sender appends. */
  function CrcBits(r: Rem): seq<bool> {
    [r.c3, r.c2, r.c1, r.c0]
  }

  lemma {:induction false} Run4(r: Rem, a: bool, b: bool, c: bool, d: bool)
    ensures Run(r, [a, b, c, d]) == Next(Next(Next(Next(r, a), b), c), d)
  {
    hide Next;
    assert [a, b, c, d] == [a, b, c] + [d] && [a, b, c] == [a, b] + [c] && [a, b] == [a] + [b] && [a] == [] + [a];
    RunMore(r, [a, b, c], d);
    RunMore(r, [a, b], c);
    RunMore(r, [a], b);
    RunMore(r, [], a);
  }

  /** A remainder fed with its own bits ends at zero. */
  lemma {:induction false} SelfCancels(r: Rem)
    ensures Run(r, CrcBits(r)) == ZERO
  {
    Run4(r, r.c3, r.c2, r.c1, r.c0);
  }

  /** The frame after the start bit: payload and CRC. */
  function Frame(payload: seq<bool>): seq<bool> {
    payload + CrcBits(Run(Next(ZERO, true), payload))
  }

  /** What the receiver ends at, start bit included. */
  function Residue(frame: seq<bool>): Rem {
    Run(Next(ZERO, true), frame)
  }

  /** Start bit, payload of any length and the sender's own CRC bits end at zero. */
  lemma {:induction false} FrameAccepted(payload: seq<bool>)
    ensures Residue(Frame(payload)) == ZERO
  {
    var r := Run(Next(ZERO, true), payload);
    RunConcat(Next(ZERO, true), payload, CrcBits(r));
    SelfCancels(r);
  }

  // ---------- Errors ----------

  function Xor(a: Rem, b: Rem): Rem {
    Rem(a.c3 != b.c3, a.c2 != b.c2, a.c1 != b.c1, a.c0 != b.c0)
  }

  function Flip(bits: seq<bool>, e: seq<bool>): (r: seq<bool>)
    requires |bits| == |e|
    ensures |r| == |bits|
  {
    seq(|bits|, i requires 0 <= i < |bits| => bits[i] != e[i])
  }

  lemma {:induction false} XorNext(r: Rem, q: Rem, b: bool, e: bool)
    ensures Next(Xor(r, q), b != e) == Xor(Next(r, b), Next(q, e))
  {
  }

  /** Flipping bits adds the remainder of the pattern of flips. */
  lemma {:induction false} RunLinear(r: Rem, q: Rem, bits: seq<bool>, e: seq<bool>)
    requires |bits| == |e|
    ensures Run(Xor(r, q), Flip(bits, e)) == Xor(Run(r, bits), Run(q, e))
    decreases |bits|
  {
    hide Next, Xor;
    if bits != [] {
      assert Flip(bits, e)[1..] == Flip(bits[1..], e[1..]);
      XorNext(r, q, bits[0], e[0]);
      RunLinear(Next(r, bits[0]), Next(q, e[0]), bits[1..], e[1..]);
    }
  }

  function Odd(r: Rem): bool {
    ((r.c3 != r.c2) != r.c1) != r.c0
  }

  /** An odd number of bits is set. */
  function OddBits(e: seq<bool>): bool {
    if e == [] then false else e[0] != OddBits(e[1..])
  }

  /** The polynomial has x + 1 as a factor: the remainder keeps the parity. */
  lemma {:induction false} RunParity(r: Rem, e: seq<bool>)
    ensures Odd(Run(r, e)) == (Odd(r) != OddBits(e))
    decreases |e|
  {
    if e != [] { RunParity(Next(r, e[0]), e[1..]); }
  }

  lemma {:induction false} RunZeros(r: Rem, n: nat)
    requires r != ZERO
    ensures Run(r, seq(n, _ => false)) != ZERO
    decreases n
  {
    var z := seq(n, _ => false);
    if n > 0 {
      assert z[1..] == seq(n - 1, _ => false);
      RunZeros(Next(r, false), n - 1);
    }
  }

  lemma {:induction false} RunQuiet(n: nat)
    ensures Run(ZERO, seq(n, _ => false)) == ZERO
    decreases n
  {
    var z := seq(n, _ => false);
    if n > 0 {
      assert z[1..] == seq(n - 1, _ => false);
      RunQuiet(n - 1);
    }
  }

  /** A burst: flips within four neighbouring bits, at least one of them. */
  function Burst(before: nat, a: bool, b: bool, c: bool, d: bool, after: nat): seq<bool> {
    seq(before, _ => false) + ([a, b, c, d] + seq(after, _ => false))
  }

  lemma {:induction false} BurstSeen(before: nat, a: bool, b: bool, c: bool, d: bool, after: nat)
    requires a || b || c || d
    ensures Run(ZERO, Burst(before, a, b, c, d, after)) != ZERO
  {
    RunConcat(ZERO, seq(before, _ => false), [a, b, c, d] + seq(after, _ => false));
    RunQuiet(before);
    RunConcat(ZERO, [a, b, c, d], seq(after, _ => false));
    Run4(ZERO, a, b, c, d);
    RunZeros(Run(ZERO, [a, b, c, d]), after);
  }

  /**
   A frame with some bits after the start bit flipped is accepted exactly when the pattern of flips leaves no remainder.
   */
  lemma {:induction false} FlippedResidue(payload: seq<bool>, e: seq<bool>)
    requires |e| == |Frame(payload)|
    ensures Residue(Flip(Frame(payload), e)) == ZERO <==> Run(ZERO, e) == ZERO
  {
    var s := Next(ZERO, true);
    assert Xor(s, ZERO) == s;
    RunLinear(s, ZERO, Frame(payload), e);
    FrameAccepted(payload);
  }

  /** Any odd number of flipped bits is detected. */
  lemma {:induction false} OddDetected(payload: seq<bool>, e: seq<bool>)
    requires |e| == |Frame(payload)| && OddBits(e)
    ensures Residue(Flip(Frame(payload), e)) != ZERO
  {
    FlippedResidue(payload, e);
    RunParity(ZERO, e);
  }

  /** Any burst of at most four bits is detected. */
  lemma {:induction false} BurstDetected(payload: seq<bool>, before: nat, a: bool, b: bool, c: bool, d: bool,
                                         after: nat)
    requires before + 4 + after == |Frame(payload)| && (a || b || c || d)
    ensures Residue(Flip(Frame(payload), Burst(before, a, b, c, d, after))) != ZERO
  {
    FlippedResidue(payload, Burst(before, a, b, c, d, after));
    BurstSeen(before, a, b, c, d, after);
  }

  /** Longer bursts are not all detected: the polynomial itself, five bits long, goes unseen. */
  lemma {:induction false} PolynomialUnseen(before: nat, after: nat)
    ensures Run(ZERO, seq(before, _ => false) + ([true, false, true, true] + ([true] + seq(after, _ => false)))) == ZERO
  {
    var z := seq(after, _ => false);
    RunConcat(ZERO, seq(before, _ => false), [true, false, true, true] + ([true] + z));
    RunQuiet(before);
    RunConcat(ZERO, [true, false, true, true], [true] + z);
    Run4(ZERO, true, false, true, true);
    RunConcat(Run(ZERO, [true, false, true, true]), [true], z);
    assert [true][1..] == [];
    RunQuiet(after);
  }

  // ---------- The two loops ----------

  /** fsi_send_seq: the bits that go out after the start bit. */
  method SendSeq(payload: seq<bool>) returns (line: seq<bool>)
    ensures line == Frame(payload)
  {
    var crc := Crc4(0, true);
    Crc4Bits(0, true);
    line := [];
    var i := 0;
    while i < |payload|
      invariant 0 <= i <= |payload| && line == payload[..i] && RemOf(crc) == Run(Next(ZERO, true), payload[..i])
    {
      Crc4Bits(crc, payload[i]);
      RunMore(Next(ZERO, true), payload[..i], payload[i]);
      assert payload[..i + 1] == payload[..i] + [payload[i]];
      crc := Crc4(crc, payload[i]);
      line := line + [payload[i]];
      i := i + 1;
    }
    assert payload[..i] == payload;
    line := line + [Bit(crc, 3), Bit(crc, 2), Bit(crc, 1), Bit(crc, 0)];
  }

  /** The number that bits spell out, the first being the highest. */
  function Value(bits: seq<bool>): nat {
    if bits == [] then 0 else Value(bits[..|bits| - 1]) * 2 + (if bits[|bits| - 1] then 1 else 0)
  }

  /** The first start bit among the first 512, or 512. */
  function StartBit(stream: seq<bool>, i: nat): (k: nat)
    requires i <= 512 <= |stream|
    ensures i <= k <= 512 && (k < 512 ==> stream[k])
    decreases 512 - i
  {
    if i == 512 || stream[i] then i else StartBit(stream, i + 1)
  }

  const TIMEOUT: int := -2
  const CRC_ERROR: int := -1

  /** How many bits of a response follow the start bit: an answer other than ACK has no data. */
  function RespLen(ack: nat, len: nat): nat {
    (if ack != 0 then 7 else len) + 4
  }

  /** `n` bits read, shifted into a number and into the CRC. */
  method ReadBits(stream: seq<bool>, at: nat, n: nat, crc0: bv8) returns (v: nat, crc: bv8)
    requires at + n <= |stream| && crc0 <= 0xf
    ensures v == Value(stream[at..at + n]) && RemOf(crc) == Run(RemOf(crc0), stream[at..at + n]) && crc <= 0xf
  {
    v, crc := 0, crc0;
    var i := 0;
    while i < n
      invariant 0 <= i <= n && v == Value(stream[at..at + i]) && RemOf(crc) == Run(RemOf(crc0), stream[at..at + i])
        && crc <= 0xf
    {
      var b, w := stream[at + i], stream[at..at + i];
      Crc4Bits(crc, b);
      RunMore(RemOf(crc0), w, b);
      assert stream[at..at + i + 1] == w + [b] && (w + [b])[..i] == w;
      v := v * 2 + (if b then 1 else 0);
      crc := Crc4(crc, b);
      i := i + 1;
    }
  }

  lemma {:induction false} StartCrc()
    ensures RemOf(Crc4(0, true)) == Next(ZERO, true) && Crc4(0, true) <= 0xf
  {
    Crc4Bits(0, true);
  }

  /** What comes of a response: nothing in time, a CRC error, or a code and data. */
  datatype Resp = Refused(err: int) | Answer(code: nat, data: nat)

  function Response(stream: seq<bool>, len: nat): Resp
    requires 4 <= len <= 60 && 512 + 1 + len + 11 <= |stream|
  {
    var k := StartBit(stream, 0);
    if k == 512 then Refused(TIMEOUT)
    else
      var ack := Value(stream[k + 1..k + 5]);
      var frame := stream[k + 1..k + 1 + RespLen(ack, len)];
      if Residue(frame) != ZERO then Refused(CRC_ERROR) else Answer(ack % 4, Value(frame[4..]) / 16)
  }

  /** fsi_read_resp: accepted exactly when the CRC over the start bit and all that follows ends at zero. */
  method ReadResp(stream: seq<bool>, len: nat) returns (rc: int, result: nat)
    requires 4 <= len <= 60 && 512 + 1 + len + 11 <= |stream|
    ensures match Response(stream, len) case Refused(e) => rc == e
      case Answer(code, data) => rc == code && result == data
  {
    hide Next, RemOf, Crc4, Run, Value;
    var i := 0;
    result := 0;
    while i < 512 && !stream[i]
      invariant 0 <= i <= 512 && StartBit(stream, i) == StartBit(stream, 0)
    {
      i := i + 1;
    }
    if i == 512 { return TIMEOUT, 0; }
    var crc := Crc4(0, true);
    StartCrc();
    var ack, resp;
    ack, crc := ReadBits(stream, i + 1, 4, crc);
    var total := RespLen(ack, len);
    ghost var head, tail, frame := stream[i + 1..i + 5], stream[i + 5..i + 1 + total], stream[i + 1..i + 1 + total];
    assert frame == head + tail && frame[4..] == tail;
    RunConcat(Next(ZERO, true), head, tail);
    resp, crc := ReadBits(stream, i + 5, total - 4, crc);
    RemZero(crc);
    if crc != 0 { return CRC_ERROR, 0; }
    return ack % 4, resp / 16;
  }

  /**
   The bits that a response takes behind its start bit, of which four are the code and four the CRC: `len` + 4 for an
   ACK, 11 for every other code. Its data are the bits between the two.
   */
  lemma {:induction false} ResponseBits(stream: seq<bool>, len: nat, k: nat)
    requires 4 <= len <= 60 && 512 + 1 + len + 11 <= |stream| && k < 512 && stream[k]
      && forall i :: 0 <= i < k ==> !stream[i]
    ensures var code := Value(stream[k + 1..k + 5]); var n := if code == 0 then len + 4 else 11;
      Response(stream, len) ==
      if Residue(stream[k + 1..k + 1 + n]) != ZERO then Refused(CRC_ERROR)
      else Answer(code % 4, Value(stream[k + 5..k + 1 + n]) / 16)
  {
    hide Value, Residue;
    StartIs(stream, 0, k);
    var code := Value(stream[k + 1..k + 5]);
    var n := if code == 0 then len + 4 else 11;
    assert stream[k + 1..k + 1 + n][4..] == stream[k + 5..k + 1 + n];
  }

  lemma {:induction false} StartIs(stream: seq<bool>, i: nat, k: nat)
    requires i <= k < 512 <= |stream| && stream[k] && forall j :: i <= j < k ==> !stream[j]
    ensures StartBit(stream, i) == k
    decreases k - i
  {
    if i < k { StartIs(stream, i + 1, k); }
  }

  /** Without a start bit among the first 512 the answer is a timeout. */
  lemma {:induction false} ResponseLate(stream: seq<bool>, len: nat)
    requires 4 <= len <= 60 && 512 + 1 + len + 11 <= |stream| && forall j :: 0 <= j < 512 ==> !stream[j]
    ensures Response(stream, len) == Refused(TIMEOUT)
  {
  }

  /** No bit behind these makes a difference. */
  lemma {:induction false} ResponseEnds(a: seq<bool>, b: seq<bool>, len: nat, k: nat)
    requires 4 <= len <= 60 && 512 + 1 + len + 11 <= |a| && 512 + 1 + len + 11 <= |b| && k < 512 && a[k]
    requires forall i :: 0 <= i < k ==> !a[i]
    requires var n := if Value(a[k + 1..k + 5]) == 0 then len + 4 else 11; a[..k + 1 + n] == b[..k + 1 + n]
    ensures Response(a, len) == Response(b, len)
  {
    hide Value, Residue, Response;
    var n := if Value(a[k + 1..k + 5]) == 0 then len + 4 else 11;
    var m := k + 1 + n;
    assert forall i :: 0 <= i < m ==> a[i] == a[..m][i] == b[..m][i] == b[i];
    assert a[k + 1..k + 5] == b[k + 1..k + 5] && a[k + 1..m] == b[k + 1..m] && a[k + 5..m] == b[k + 5..m];
    ResponseBits(a, len, k);
    ResponseBits(b, len, k);
  }

  lemma {:induction false} ValueMore(a: seq<bool>, b: bool)
    ensures Value(a + [b]) == Value(a) * 2 + (if b then 1 else 0)
  {
    assert (a + [b])[..|a|] == a;
  }

  /** Stripping the CRC leaves the payload behind the acknowledge code. */
  lemma {:induction false} Stripped(data: seq<bool>, r: Rem)
    ensures Value(data + CrcBits(r)) / 16 == Value(data)
  {
    hide Value;
    var a, b, c := data + [r.c3], data + [r.c3] + [r.c2], data + [r.c3] + [r.c2] + [r.c1];
    ValueMore(data, r.c3);
    ValueMore(a, r.c2);
    ValueMore(b, r.c1);
    ValueMore(c, r.c0);
    assert data + CrcBits(r) == c + [r.c0];
    Sixteenth(Value(data), Value(c + [r.c0]));
  }

  lemma {:induction false} Sixteenth(q: nat, v: nat)
    requires 16 * q <= v < 16 * q + 16
    ensures v / 16 == q
  {
  }

  /** A frame read back: accepted, and what is left behind the acknowledge code is the payload's data. */
  lemma {:induction false} FrameReads(payload: seq<bool>)
    requires |payload| >= 4
    ensures Residue(Frame(payload)) == ZERO && Frame(payload)[..4] == payload[..4]
    ensures Value(Frame(payload)[4..]) / 16 == Value(payload[4..])
  {
    hide Value, Run;
    FrameAccepted(payload);
    var r := Run(Next(ZERO, true), payload);
    assert Frame(payload)[4..] == payload[4..] + CrcBits(r);
    Stripped(payload[4..], r);
  }

  /** A response that holds a sent frame behind its start bit is read as that frame's code and data. */
  lemma {:induction false} FrameAnswered(stream: seq<bool>, len: nat, payload: seq<bool>)
    requires 4 <= len <= 60 && 512 + 1 + len + 11 <= |stream| && |payload| >= 4 && StartBit(stream, 0) < 512
    requires |payload| == if Value(payload[..4]) == 0 then len else 7
    requires var k := StartBit(stream, 0) + 1; stream[k..k + |payload| + 4] == Frame(payload)
    ensures Response(stream, len) == Answer(Value(payload[..4]) % 4, Value(payload[4..]))
  {
    hide Value, Run, StartBit;
    var k := StartBit(stream, 0) + 1;
    FrameReads(payload);
    assert stream[k..k + 4] == stream[k..k + |payload| + 4][..4];
  }
}
