/** Reading memory through the SBE FIFO: the aligned request, the reply's framing, and the bytes that were asked for. */
module Sbe {
  import opened Bytes
  import opened Memory

  const EINVAL: int := 22
  const EPROTO: int := 71
  const ESBEFIFO: int := 201

  /** The result for code that would read or write outside a buffer. */
  const OUTSIDE: int := -1003

  const GET_MEMORY: u32 := 0xa401
  const MAGIC: u32 := 0xc0de_0000
  const TWO64: int := 0x1_0000_0000_0000_0000

  // ---------- Alignment ----------

  predicate Align(a: nat) {
    a == 8 || a == 128
  }

  /** x & ~(a - 1), written out for the two alignments. */
  function Down(x: nat, a: nat): nat
    requires Align(a)
  {
    if a == 8 then 8 * (x / 8) else 128 * (x / 128)
  }

  predicate IsEights(w: nat, n: int) {
    n == 8 * w
  }

  /** Whole doublewords. */
  ghost predicate Eights(n: int) {
    exists w: nat :: IsEights(w, n)
  }

  lemma {:induction false} DownIs(x: nat, a: nat)
    requires Align(a)
    ensures Down(x, a) <= x < Down(x, a) + a && Eights(Down(x, a))
  {
    if a == 8 {
      assert IsEights(x / 8, Down(x, a));
    } else {
      assert IsEights(16 * (x / 128), Down(x, a));
    }
  }

  /** The aligned window around [addr, addr + size). */
  function Start(addr: nat, a: nat): nat
    requires Align(a)
  {
    Down(addr, a)
  }

  function End(addr: nat, size: nat, a: nat): nat
    requires Align(a)
  {
    Down(addr + size + (a - 1), a)
  }

  /**
   The window contains what was asked for, is less than one alignment larger on each side, and is whole doublewords.
   */
  lemma {:induction false} Window(addr: nat, size: nat, a: nat)
    requires Align(a)
    ensures var s, e := Start(addr, a), End(addr, size, a);
      s <= addr < s + a && addr + size <= e < addr + size + a && s <= e && Eights(e - s)
  {
    hide Down;
    DownIs(addr, a);
    DownIs(addr + size + (a - 1), a);
    var v: nat :| IsEights(v, Down(addr, a));
    var w: nat :| IsEights(w, Down(addr + size + (a - 1), a));
    assert IsEights(w - v, End(addr, size, a) - Start(addr, a));
  }

  /** The request for the window around [addr, addr + size). */
  function MemGetRequest(addr: nat, size: nat, a: nat, flags: u32): seq<u32>
    requires Align(a) && Start(addr, a) < TWO64 && 0 <= End(addr, size, a) - Start(addr, a) < TWO32
  {
    var s := Start(addr, a);
    [6, GET_MEMORY, flags, s / TWO32, s % TWO32, End(addr, size, a) - s]
  }

  /** sbefifo_mem_get_push: the request as its six words, or an error. */
  method MemGetPush(addr: nat, size: u32, proc: bool, pba: bool, flags: u32) returns (rc: int, msg: seq<u32>)
    requires addr + size + 127 < TWO64
    ensures rc == if !proc && !pba then EINVAL
                  else if End(addr, size, if proc then 8 else 128) - Start(addr, if proc then 8 else 128) >= TWO32
                    then EINVAL else 0
    ensures rc == 0 ==>
      var a := if proc then 8 else 128; var s := Start(addr, a);
      && s < TWO64 && 0 <= End(addr, size, a) - s < TWO32 && msg == MemGetRequest(addr, size, a, flags)
      && |msg| == 6 && msg[1] == GET_MEMORY && msg[3] * TWO32 + msg[4] == s && msg[5] == End(addr, size, a) - s
  {
    hide Down;
    msg := [];
    if !proc && !pba { return EINVAL, []; }
    var align := if proc then 8 else 128;
    Window(addr, size, align);
    var startAddr, endAddr := Start(addr, align), End(addr, size, align);
    if endAddr - startAddr > TWO32 - 1 { return EINVAL, []; }
    msg := [6, GET_MEMORY, flags, startAddr / TWO32, startAddr % TWO32, endAddr - startAddr];
    return 0, msg;
  }

  // ---------- sbefifo_parse_output ----------

  /** What becomes of a reply. `Outside`: the code would read or copy past the reply. */
  datatype Reply = Bad | Failed(status: u32, ffdc: seq<u8>) | Got(out: seq<u8>, ffdc: seq<u8>) | Outside

  /** The place of the header word, from the distance word at the end, in 32-bit arithmetic. */
  function HeaderAt(buf: seq<u8>): nat
    requires 12 <= |buf| < TWO32
  {
    (|buf| - Be32(buf, |buf| - 4) * 4) % TWO32
  }

  function Parse(cmd: u32, buf: seq<u8>): Reply
    requires |buf| < TWO32 && cmd < 0x1_0000
  {
    if |buf| < 12 then Bad
    else
      var o := HeaderAt(buf);
      if o + 8 > |buf| then Outside
      else if Be32(buf, o) != MAGIC + cmd then Bad
      else if o + 12 > |buf| then Outside
      else if Be32(buf, o + 4) != 0 then Failed(Be32(buf, o + 4), buf[o + 8..|buf| - 4])
      else Got(buf[..o], if |buf| - o - 12 > o then buf[o + 8..|buf| - 4] else [])
  }

  class Context {
    var status: u32
    var ffdc: seq<u8>

    constructor ()
    {
      status := 0;
      ffdc := [];
    }

    /** sbefifo_parse_output: the reply's data, and the status and FFDC kept in the context. */
    method ParseOutput(cmd: u32, buf: seq<u8>) returns (rc: int, out: seq<u8>)
      requires |buf| < TWO32 && cmd < 0x1_0000
      modifies this
      ensures match Parse(cmd, buf)
              case Bad => rc == EPROTO && status == 0 && ffdc == []
              case Failed(s, f) => rc == ESBEFIFO && status == s && ffdc == f
              case Got(o, f) => rc == 0 && out == o && status == 0 && ffdc == f
              case Outside => rc == OUTSIDE
    {
      status, ffdc := 0, [];
      if |buf| < 12 { return EPROTO, []; }
      var offset := HeaderAt(buf);
      var outLen := offset;
      if offset + 8 > |buf| { return OUTSIDE, []; }
      var header := Be32(buf, offset);
      if header != MAGIC + cmd { return EPROTO, []; }
      offset := offset + 4;
      if offset + 8 > |buf| { return OUTSIDE, []; }
      var statusWord := Be32(buf, offset);
      offset := offset + 4;
      if statusWord != 0 {
        status, ffdc := statusWord, buf[offset..|buf| - 4];
        return ESBEFIFO, [];
      }
      out := buf[..outLen];
      if |buf| - offset - 4 > outLen { ffdc := buf[offset..|buf| - 4]; }
      return 0, out;
    }
  }

  /** A reply: data, header, status, FFDC words if any, and the distance from the header to the end in words. */
  function ReplyOf(cmd: u32, status: u32, data: seq<u8>, ffdc: seq<u8>, distance: u32): seq<u8>
    requires cmd < 0x1_0000
  {
    data + Put32(MAGIC + cmd) + Put32(status) + ffdc + Put32(distance)
  }

  lemma {:induction false} ReplyWords(cmd: u32, status: u32, data: seq<u8>, ffdc: seq<u8>, distance: u32)
    requires cmd < 0x1_0000
    ensures var b, n, k := ReplyOf(cmd, status, data, ffdc, distance), |data|, |ffdc|;
      && |b| == n + 12 + k && b[..n] == data && Be32(b, n) == MAGIC + cmd && Be32(b, n + 4) == status
         && Be32(b, n + 8 + k) == distance
      && b[n + 8..n + 8 + k] == ffdc
  {
    hide Be32, Put32;
    var b, n, k := ReplyOf(cmd, status, data, ffdc, distance), |data|, |ffdc|;
    assert b[n..n + 4] == Put32(MAGIC + cmd);
    assert b[n + 4..n + 8] == Put32(status);
    assert b[n + 8 + k..n + 8 + k + 4] == Put32(distance);
    PatchWord(b, n, MAGIC + cmd);
    PatchWord(b, n + 4, status);
    PatchWord(b, n + 8 + k, distance);
  }

  /**
   A well-formed reply with status 0 gives back its data, whatever FFDC comes with it; one with another status gives
   that status and all of its FFDC.
   */
  lemma {:induction false} ParseReply(cmd: u32, status: u32, data: seq<u8>, ffdc: seq<u8>, distance: u32)
    requires cmd < 0x1_0000 && |data| + 12 + |ffdc| < TWO32 && 4 * distance == 12 + |ffdc|
    ensures Parse(cmd, ReplyOf(cmd, status, data, ffdc, distance)) ==
      if status == 0 then Got(data, if |ffdc| > |data| then ffdc else []) else Failed(status, ffdc)
  {
    hide Be32, ReplyOf;
    ReplyWords(cmd, status, data, ffdc, distance);
    var b := ReplyOf(cmd, status, data, ffdc, distance);
    assert HeaderAt(b) == |data|;
  }

  // ---------- sbefifo_mem_get_pull ----------

  /** The copy loop, eight bytes at a time, without tag and ECC bytes. */
  method CopyEights(buf: seq<u8>, len: nat) returns (data: Buffer)
    requires len <= |buf| && Eights(len)
    ensures data.Valid() && fresh(data) && fresh(data.data) && data.bytes == buf[0..len]
  {
    hide Stored;
    data := new Buffer(len);
    ghost var w: nat :| IsEights(w, len);
    ghost var k := 0;
    var i, j := 0, 0;
    while i < len
      invariant data.Valid() && fresh(data) && fresh(data.data) && |data.bytes| == len
      invariant i == j == 8 * k <= len && data.bytes[0..i] == buf[0..i]
      decreases len - i
    {
      ghost var b := data.bytes;
      data.Store(j, buf[i..i + 8]);
      MoreEights(b, data.bytes, buf, i);
      i, j := i + 8, j + 8;
      k := k + 1;
    }
    assert data.bytes == data.bytes[0..len];
  }

  lemma {:induction false} MoreEights(b: seq<u8>, b1: seq<u8>, buf: seq<u8>, i: nat)
    requires i + 8 <= |buf| && b[0..if i <= |b| then i else 0] == buf[0..i] && i <= |b|
      && Stored(b, b1, i, buf[i..i + 8])
    ensures |b1| == |b| && i + 8 <= |b| && b1[0..i + 8] == buf[0..i + 8]
  {
    Untouched(b, b1, i, 8, 0, i);
    assert b1[0..i + 8] == b1[0..i] + b1[i..i + 8];
    assert buf[0..i + 8] == buf[0..i] + buf[i..i + 8];
  }

  lemma {:induction false} EightsIff(n: nat)
    ensures Eights(n) <==> n % 8 == 0
  {
    if n % 8 == 0 { assert IsEights(n / 8, n); }
  }

  /** The byte count of a reply with which the copies stay inside the reply and the new buffer. */
  ghost predicate CountFits(buf: seq<u8>, len: nat, offset: nat, size: nat) {
    Eights(len) && len <= |buf| && (offset != 0 ==> offset + size <= len)
  }

  /** sbefifo_mem_get_pull: the window shifted down so that the bytes asked for come first. */
  method MemGetPull(buf: seq<u8>, addr: nat, size: nat, proc: bool, pba: bool) returns (rc: int, data: Buffer?)
    ensures |buf| < 4 ==> rc == EPROTO
    ensures |buf| >= 4 && !proc && !pba ==> rc == EINVAL
    ensures |buf| >= 4 && (proc || pba) ==>
      var len, o := Be32(buf, |buf| - 4), addr - Start(addr, if proc then 8 else 128);
      && 0 <= o && rc == (if CountFits(buf, len, o, size) then 0 else OUTSIDE)
      && (rc == 0 ==> data != null && data.Valid() && |data.bytes| == len)
      && (rc == 0 && o + size <= len ==> data.bytes[0..size] == buf[o..o + size])
  {
    hide Down, Copied, Be32, Eights;
    data := null;
    if |buf| < 4 { return EPROTO, null; }
    var len := Be32(buf, |buf| - 4);
    if !proc && !pba { return EINVAL, null; }
    var align := if proc then 8 else 128;
    DownIs(addr, align);
    EightsIff(len);
    var offset := addr - Start(addr, align);
    if len % 8 != 0 || len > |buf| { return OUTSIDE, null; }
    data := CopyEights(buf, len);
    if offset + size <= len { Move(data.bytes, 0, buf, 0, len, offset, size); }
    if offset != 0 {
      if offset + size > len { return OUTSIDE, null; }
      ghost var b := data.bytes;
      data.Memmove(0, offset, size);
      assert data.bytes[0..size] == b[offset..offset + size] by { CopiedPart(b, data.bytes, offset, size); }
    }
    return 0, data;
  }

  lemma {:induction false} CopiedPart(b: seq<u8>, b1: seq<u8>, o: nat, n: nat)
    requires Copied(b, b1, 0, o, n)
    ensures n <= |b1| && o + n <= |b| && b1[0..n] == b[o..o + n]
  {
  }

  /** The answer of a device with memory `mem` to a request: the window, its byte count, and the reply's framing. */
  ghost predicate Answers(mem: seq<u8>, msg: seq<u32>, reply: seq<u8>) {
    && |msg| == 6
    && var s, n := msg[3] * TWO32 + msg[4], msg[5];
       s + n <= |mem| && n + 16 < TWO32 && reply == ReplyOf(msg[1] % 0x1_0000, 0, mem[s..s + n] + Put32(n), [], 3)
  }

  lemma {:induction false} Counted(w: seq<u8>)
    requires |w| < TWO32
    ensures var b := w + Put32(|w|); |b| == |w| + 4 && Be32(b, |w|) == |w| && b[..|w|] == w
  {
    hide Put32, Be32;
    var b := w + Put32(|w|);
    assert b[|w|..|w| + 4] == Put32(|w|);
    PatchWord(b, |w|, |w|);
  }

  /** What the second half of sbefifo_mem_get makes of any reply. */
  ghost function ReplyErr(reply: seq<u8>, addr: nat, size: nat, a: nat): int
    requires |reply| < TWO32 && Align(a)
  {
    match Parse(GET_MEMORY, reply)
    case Bad => EPROTO
    case Failed(_, _) => ESBEFIFO
    case Outside => OUTSIDE
    case Got(out, _) =>
      DownIs(addr, a);
      if |out| < 4 then EPROTO
      else if CountFits(out, Be32(out, |out| - 4), addr - Start(addr, a), size) then 0 else OUTSIDE
  }

  /** A well-formed reply with another status than 0 is ESBEFIFO, whatever it holds. */
  lemma {:induction false} ReplyFails(status: u32, data: seq<u8>, ffdc: seq<u8>, distance: u32, addr: nat, size: nat,
                                      a: nat)
    requires status != 0 && |data| + 12 + |ffdc| < TWO32 && 4 * distance == 12 + |ffdc| && Align(a)
    ensures var reply := ReplyOf(GET_MEMORY, status, data, ffdc, distance);
      |reply| < TWO32 && ReplyErr(reply, addr, size, a) == ESBEFIFO
  {
    hide Parse, ReplyOf;
    ReplyWords(GET_MEMORY, status, data, ffdc, distance);
    ParseReply(GET_MEMORY, status, data, ffdc, distance);
  }

  /** The second half of sbefifo_mem_get: if the reply answers the request, the bytes at the unaligned address. */
  method MemGetReply(ctx: Context, addr: nat, size: u32, proc: bool, pba: bool, msg: seq<u32>, reply: seq<u8>,
                     ghost mem: seq<u8>)
    returns (rc: int, data: Buffer?)
    requires (proc || pba) && |msg| == 6 && msg[1] == GET_MEMORY && |reply| < TWO32
    requires var a := if proc then 8 else 128;
      msg[3] * TWO32 + msg[4] == Start(addr, a) && msg[5] == End(addr, size, a) - Start(addr, a)
    modifies ctx
    ensures rc == ReplyErr(reply, addr, size, if proc then 8 else 128)
    ensures Answers(mem, msg, reply) ==>
      && rc == 0 && data != null && data.Valid() && addr + size <= |mem| && size <= |data.bytes|
      && data.bytes[0..size] == mem[addr..addr + size]
  {
    hide Down, Parse, Be32, Put32, Eights;
    ghost var a := if proc then 8 else 128;
    ghost var s, n := Start(addr, a), msg[5];
    Window(addr, size, a);
    if Answers(mem, msg, reply) {
      Counted(mem[s..s + n]);
      ParseReply(GET_MEMORY, 0, mem[s..s + n] + Put32(n), [], 3);
    }
    var out;
    rc, out := ctx.ParseOutput(GET_MEMORY, reply);
    if rc != 0 { return rc, null; }
    rc, data := MemGetPull(out, addr, size, proc, pba);
    if Answers(mem, msg, reply) { OutPart(out, mem[s..s + n], mem, s, n, addr - s, size); }
  }

  lemma {:induction false} OutPart(out: seq<u8>, w: seq<u8>, mem: seq<u8>, s: nat, n: nat, o: nat, size: nat)
    requires s + n <= |mem| && w == mem[s..s + n] && |out| >= n && out[..n] == w && o + size <= n
    ensures out[o..o + size] == mem[s + o..s + o + size]
  {
    assert out[0..n] == mem[s..s + n];
    Move(out, 0, mem, s, n, o, size);
  }

  /** A device with memory `mem`: it answers every request for a window inside it. */
  ghost predicate Serves(mem: seq<u8>, device: seq<u32> -> seq<u8>) {
    forall msg :: |msg| == 6 && msg[3] * TWO32 + msg[4] + msg[5] <= |mem| && msg[5] + 16 < TWO32 ==>
      Answers(mem, msg, device(msg))
  }

  /** The width of the window around what is asked for. */
  function Width(addr: nat, size: nat, proc: bool): int {
    var a := if proc then 8 else 128; End(addr, size, a) - Start(addr, a)
  }

  /** The buffer that sbefifo_operation allocates for a reply with a window of `width` bytes, in 32-bit arithmetic. */
  function ReplyRoom(width: u32): u32 {
    var hint := Add32(width, 4);
    var sum := Add32(Add32(hint, 0x8000), 3);
    4 * (sum / 4)
  }

  /** The reply to a request for a window: the window, its count and three words of framing. */
  function ReplySize(width: nat): nat {
    width + 16
  }

  /** The whole reply fits the buffer if and only if the size of the buffer does not wrap. */
  lemma {:induction false} ReplyFitsIff(width: u32)
    ensures ReplySize(width) <= ReplyRoom(width) <==> width + 4 + 0x8003 < TWO32
  {
  }

  /** A window of 2^32 - 0x8000 bytes gets a buffer of four. */
  lemma {:induction false} ReplyRoomWraps()
    ensures ReplyRoom(0xffff_8000) == 4
  {
  }

  lemma {:induction false} AnswerSize(mem: seq<u8>, msg: seq<u32>, reply: seq<u8>)
    requires Answers(mem, msg, reply)
    ensures |reply| == ReplySize(msg[5])
  {
    hide Put32;
  }

  /**
   sbefifo_mem_get: exactly the bytes of memory at an address of any alignment, or EINVAL before anything is sent. A
   reply that is longer than the buffer loses its end; up to which width that does not happen is `ReplyFitsIff`.
   */
  method MemGet(ctx: Context, addr: nat, size: u32, proc: bool, pba: bool, flags: u32, device: seq<u32> -> seq<u8>,
                ghost mem: seq<u8>)
    returns (rc: int, data: Buffer?)
    requires addr + size + 127 < TWO64 && Serves(mem, device)
      && End(addr, size, if proc then 8 else 128) <= |mem|
    modifies ctx
    ensures (!proc && !pba) || Width(addr, size, proc) >= TWO32 ==> rc == EINVAL
    ensures (proc || pba) && Width(addr, size, proc) < TWO32 ==>
      var a := if proc then 8 else 128;
      && Start(addr, a) < TWO64 && 0 <= End(addr, size, a) - Start(addr, a)
      && var reply, room := device(MemGetRequest(addr, size, a, flags)), ReplyRoom(Width(addr, size, proc));
         rc == ReplyErr(if |reply| > room then reply[..room] else reply, addr, size, a)
    ensures (proc || pba) && Width(addr, size, proc) + 4 + 0x8003 < TWO32 ==>
      && rc == 0 && data != null && data.Valid() && addr + size <= |mem| && size <= |data.bytes|
      && data.bytes[0..size] == mem[addr..addr + size]
  {
    hide Down, Be32, Put32, Answers, ReplyRoom;
    data := null;
    var msg;
    rc, msg := MemGetPush(addr, size, proc, pba, flags);
    if rc != 0 { return; }
    var reply, room := device(msg), ReplyRoom(msg[5]);
    ReplyFitsIff(msg[5]);
    if Answers(mem, msg, reply) { AnswerSize(mem, msg, reply); }
    if |reply| > room { reply := reply[..room]; }
    rc, data := MemGetReply(ctx, addr, size, proc, pba, msg, reply, mem);
  }
}
