/** Unaligned memory access over the ADU, a device that moves aligned blocks through one 64-bit register. */
module Adu {
  import opened Bytes
  import opened Memory

  /**
   A 64-bit register as its eight bytes, the most significant first: lane `k` belongs to addresses that are `k` modulo
   8.
   */
  type Reg = r: seq<u8> | |r| == 8 witness [0, 0, 0, 0, 0, 0, 0, 0]

  function Reversed(s: seq<u8>): (r: seq<u8>)
    ensures |r| == |s| && forall i :: 0 <= i < |s| ==> r[i] == s[|s| - 1 - i]
  {
    seq(|s|, i requires 0 <= i < |s| => s[|s| - 1 - i])
  }

  /** __builtin_bswap64. */
  function Bswap(r: Reg): Reg {
    Reversed(r)
  }

  /** A shift to the right by whole bytes. */
  function Shr(r: Reg, n: nat): (q: Reg)
    requires n <= 8
  {
    seq(n, _ => 0 as u8) + r[..8 - n]
  }

  /** The bytes of a variable as a little-endian host stores them. */
  function HostBytes(r: Reg): (b: seq<u8>)
    ensures |b| == 8
  {
    Reversed(r)
  }

  function FromHost(b: seq<u8>): Reg
    requires |b| == 8
  {
    Reversed(b)
  }

  predicate BlockSize(bs: nat) {
    bs == 1 || bs == 2 || bs == 4 || bs == 8
  }

  /** Addresses where a block begins: addr % bs == 0, written out for the four block sizes. */
  predicate OnBlock(addr: nat, bs: nat) {
    bs == 1 || (bs == 2 && addr % 2 == 0) || (bs == 4 && addr % 4 == 0) || (bs == 8 && addr % 8 == 0)
  }

  /** The register lane of an address. */
  function Lane(addr: nat): (k: nat)
    ensures k < 8
  {
    addr % 8
  }

  lemma {:induction false} Lanes(addr: nat, bs: nat)
    requires OnBlock(addr, bs)
    ensures Lane(addr) + bs <= 8
  {
  }

  /** The start of the block that an address is in: bs * (start / bs), written out for the four block sizes. */
  function BlockOf(start: nat, bs: nat): nat
    requires BlockSize(bs)
  {
    if bs == 1 then start else if bs == 2 then 2 * (start / 2) else if bs == 4 then 4 * (start / 4) else 8 * (start / 8)
  }

  lemma {:induction false} BlockStart(start: nat, bs: nat)
    requires BlockSize(bs)
    ensures var a := BlockOf(start, bs); a <= start < a + bs && OnBlock(a, bs)
  {
    if bs == 1 {
    } else if bs == 2 {
    } else if bs == 4 {
    } else {
    }
  }

  lemma {:induction false} NextBlock(addr: nat, bs: nat)
    requires OnBlock(addr, bs)
    ensures OnBlock(addr + bs, bs)
  {
    if bs == 1 {
    } else if bs == 2 {
    } else if bs == 4 {
    } else {
    }
  }

  class Device {
    const mem: Buffer
    var noise: Reg
    var faulty: set<nat>

    ghost predicate Valid()
      reads this, mem, mem.data
    {
      mem.Valid()
    }

    constructor (mem: Buffer, noise: Reg, faulty: set<nat>)
      ensures this.mem == mem && this.noise == noise && this.faulty == faulty
    {
      this.mem := mem;
      this.noise := noise;
      this.faulty := faulty;
    }

    /** getmem: the block arrives in the lanes of its address; the other lanes hold anything. */
    method GetMem(addr: nat, bs: nat) returns (rc: int, data: Reg)
      requires Valid() && OnBlock(addr, bs) && addr + bs <= |mem.bytes|
      ensures rc == if addr in faulty then -1 else 0
      ensures rc == 0 ==> Lane(addr) + bs <= 8 && data[Lane(addr)..Lane(addr) + bs] == mem.bytes[addr..addr + bs]
    {
      Lanes(addr, bs);
      if addr in faulty { return -1, noise; }
      var block := mem.Load(addr, bs);
      var k := Lane(addr);
      data := noise[..k] + block + noise[k + bs..];
      return 0, data;
    }

    /** putmem: `tsize` bytes are taken from the lanes of the address. */
    method PutMem(addr: nat, data: Reg, tsize: nat)
      requires Valid() && Lane(addr) + tsize <= 8 && addr + tsize <= |mem.bytes|
      modifies mem, mem.data
      ensures Valid() && |mem.bytes| == |old(mem.bytes)|
        && Stored(old(mem.bytes), mem.bytes, addr, data[Lane(addr)..Lane(addr) + tsize])
    {
      mem.Store(addr, data[Lane(addr)..Lane(addr) + tsize]);
    }
  }

  /** After the byte swap and the shift, the block comes first in the variable. */
  lemma {:induction false} ReadLanes(data: Reg, k: nat, bs: nat)
    requires k + bs <= 8
    ensures HostBytes(Shr(Bswap(data), k))[..bs] == data[k..k + bs]
  {
    var b := HostBytes(Shr(Bswap(data), k));
    assert forall i :: 0 <= i < bs ==> b[i] == data[k + i];
  }

  /** What one block gives of [start, start + size): the bytes from `from` up to `to`. */
  lemma {:induction false} OneBlock(m: seq<u8>, block: seq<u8>, addr: nat, bs: nat, o: nat, n: nat)
    requires addr + bs <= |m| && block == m[addr..addr + bs] && o + n <= bs
    ensures block[o..o + n] == m[addr + o..addr + o + n]
  {
    Slice(m, addr, bs, o, o + n);
  }

  lemma {:induction false} MoreOut(m: seq<u8>, b: seq<u8>, b1: seq<u8>, start: nat, done: nat, v: seq<u8>)
    requires start + done + |v| <= |m| && done + |v| <= |b| && v == m[start + done..start + done + |v|]
    requires b[0..done] == m[start..start + done] && Stored(b, b1, done, v)
    ensures |b1| == |b| && b1[0..done + |v|] == m[start..start + done + |v|]
  {
    var n := done + |v|;
    assert b1[0..n] == b1[0..done] + b1[done..n];
    assert m[start..start + n] == m[start..start + done] + m[start + done..start + n];
  }

  /** Some block from `lo` up to `hi` is faulty. */
  ghost predicate Faults(f: set<nat>, lo: nat, hi: nat, bs: nat) {
    exists a :: a in f && lo <= a < hi && OnBlock(a, bs)
  }

  lemma {:induction false} FaultsMore(f: set<nat>, lo: nat, addr: nat, bs: nat)
    requires OnBlock(addr, bs) && !Faults(f, lo, addr, bs) && addr !in f
    ensures !Faults(f, lo, addr + bs, bs)
  {
    forall a | a in f && lo <= a < addr + bs ensures !OnBlock(a, bs) {
      if a < addr {
        assert !OnBlock(a, bs);
      } else {
        BetweenBlocks(addr, a, bs);
      }
    }
  }

  lemma {:induction false} BetweenBlocks(addr: nat, a: nat, bs: nat)
    requires OnBlock(addr, bs) && addr < a < addr + bs
    ensures !OnBlock(a, bs)
  {
    if bs == 1 {
    } else if bs == 2 {
    } else if bs == 4 {
    } else {
    }
  }

  lemma {:induction false} FaultsLess(f: set<nat>, lo: nat, hi: nat, addr: nat, bs: nat)
    ensures !Faults(f, lo, addr, bs) && hi <= addr ==> !Faults(f, lo, hi, bs)
    ensures addr in f && lo <= addr < hi && OnBlock(addr, bs) ==> Faults(f, lo, hi, bs)
  {
    hide OnBlock;
  }

  /** How much of [start, start + size) lies below `addr`. */
  function Got(start: nat, size: nat, addr: nat): (n: nat)
    ensures n <= size
  {
    if addr <= start then 0 else if addr - start <= size then addr - start else size
  }

  /** Which bytes of the block at `addr` are wanted: `n` of them, from `from` on. */
  method Part(start: nat, size: nat, addr: nat, bs: nat) returns (from: nat, n: nat)
    requires start < addr + bs && addr < start + size
    ensures from + n <= bs && addr + from == start + Got(start, size, addr)
      && Got(start, size, addr) + n == Got(start, size, addr + bs)
  {
    if addr < start {
      from := start - addr;
      n := if size <= bs - from then size else bs - from;
    } else if addr + bs > start + size {
      from, n := 0, start + size - addr;
    } else {
      from, n := 0, bs;
    }
  }

  /** One block, as it comes out of the register. */
  method ReadBlock(d: Device, addr: nat, bs: nat) returns (rc: int, block: seq<u8>)
    requires d.Valid() && OnBlock(addr, bs) && addr + bs <= |d.mem.bytes|
    ensures rc == if addr in d.faulty then -1 else 0
    ensures rc == 0 ==> block == d.mem.bytes[addr..addr + bs]
  {
    hide Bswap, Shr, HostBytes, Lane, OnBlock;
    var data;
    rc, data := d.GetMem(addr, bs);
    block := [];
    if rc != 0 { return; }
    ReadLanes(data, Lane(addr), bs);
    block := HostBytes(Shr(Bswap(data), Lane(addr)))[..bs];
  }

  /** The part of a block that was asked for, put behind what the output already holds. */
  method EmitPart(output: Buffer, ghost m: seq<u8>, start: nat, size: nat, addr: nat, bs: nat, block: seq<u8>, out: nat)
    returns (next: nat)
    requires output.Valid() && size <= |output.bytes| && start < addr + bs && addr < start + size
    requires addr + bs <= |m| && block == m[addr..addr + bs] && start + size <= |m|
    requires out == Got(start, size, addr) && output.bytes[0..out] == m[start..start + out]
    modifies output, output.data
    ensures output.Valid() && |output.bytes| == |old(output.bytes)| && next == Got(start, size, addr + bs)
    ensures output.bytes[0..next] == m[start..start + next] && output.bytes[size..] == old(output.bytes)[size..]
  {
    var from, n := Part(start, size, addr, bs);
    OneBlock(m, block, addr, bs, from, n);
    next := Emit(output, m, start, out, block[from..from + n], size);
  }

  /** adu_read: exactly the bytes of memory from `start` on, whatever the alignment. */
  method Read(d: Device, start: nat, output: Buffer, size: nat, blockSize: nat) returns (rc: int)
    requires d.Valid() && output.Valid() && output != d.mem && output.data != d.mem.data && size <= |output.bytes|
    requires blockSize == 0 || BlockSize(blockSize)
    requires start + size + 8 <= |d.mem.bytes| <= 0x1_0000_0000_0000_0000
    modifies output, output.data
    ensures output.Valid() && |output.bytes| == |old(output.bytes)|
    ensures var bs := if blockSize == 0 then 8 else blockSize;
      rc == if Faults(d.faulty, BlockOf(start, bs), start + size, bs) then -1 else 0
    ensures rc == 0 ==> output.bytes[0..size] == d.mem.bytes[start..start + size]
    ensures output.bytes[size..] == old(output.bytes)[size..]
  {
    hide Stored, OnBlock, Faults, BlockOf;
    var bs := if blockSize == 0 then 8 else blockSize;
    BlockStart(start, bs);
    var addr0 := BlockOf(start, bs);
    var addr, out := addr0, 0;
    ghost var m := d.mem.bytes;
    NoFaults(d.faulty, addr0, bs);
    while addr < start + size
      invariant output.Valid() && |output.bytes| == |old(output.bytes)|
      invariant OnBlock(addr, bs) && addr0 <= addr && start < addr + bs && addr < start + size + bs
        && out == Got(start, size, addr)
      invariant output.bytes[0..out] == m[start..start + out] && output.bytes[size..] == old(output.bytes)[size..]
      invariant !Faults(d.faulty, addr0, addr, bs)
      decreases start + size - addr
    {
      FaultsLess(d.faulty, addr0, start + size, addr, bs);
      var err, block := ReadBlock(d, addr, bs);
      if err != 0 { return -1; }
      out := EmitPart(output, m, start, size, addr, bs, block, out);
      NextBlock(addr, bs);
      FaultsMore(d.faulty, addr0, addr, bs);
      addr := addr + bs;
    }
    FaultsLess(d.faulty, addr0, start + size, addr, bs);
    return 0;
  }

  /** More bytes behind those already in the output. */
  method Emit(output: Buffer, ghost m: seq<u8>, ghost start: nat, out: nat, v: seq<u8>, ghost size: nat)
    returns (next: nat)
    requires output.Valid() && start + out + |v| <= |m| && out + |v| <= size <= |output.bytes|
    requires v == m[start + out..start + out + |v|] && output.bytes[0..out] == m[start..start + out]
    modifies output, output.data
    ensures output.Valid() && |output.bytes| == |old(output.bytes)| && next == out + |v|
    ensures output.bytes[0..next] == m[start..start + next] && output.bytes[size..] == old(output.bytes)[size..]
  {
    hide Stored;
    ghost var b := output.bytes;
    output.Store(out, v);
    MoreOut(m, b, output.bytes, start, out, v);
    TailKept(b, output.bytes, out, v, size);
    next := out + |v|;
  }

  lemma {:induction false} NoFaults(f: set<nat>, lo: nat, bs: nat)
    ensures !Faults(f, lo, lo, bs)
  {
  }

  lemma {:induction false} TailKept(b: seq<u8>, b1: seq<u8>, p: nat, v: seq<u8>, size: nat)
    requires Stored(b, b1, p, v) && p + |v| <= size <= |b|
    ensures b1[size..] == b[size..]
  {
    Untouched(b, b1, p, |v|, size, |b|);
    assert b[size..] == b[size..|b|] && b1[size..] == b1[size..|b|];
  }

  /** One putmem request. */
  datatype Request = Request(addr: nat, data: Reg, tsize: nat)

  /** The requests follow one another from `start` to `end`: every address is covered once. */
  ghost predicate Tiles(log: seq<Request>, start: nat, end: nat) {
    if log == [] then start == end
    else
      var last := log[|log| - 1];
      last.addr + last.tsize == end && last.tsize > 0 && start <= last.addr && Tiles(log[..|log| - 1], start, last.addr)
  }

  /** The bytes that a request carries for its addresses. */
  ghost predicate Carries(log: seq<Request>, start: nat, input: seq<u8>) {
    forall i :: 0 <= i < |log| ==>
      var r := log[i];
      && Lane(r.addr) + r.tsize <= 8 && start <= r.addr && r.addr + r.tsize <= start + |input|
      && r.data[Lane(r.addr)..Lane(r.addr) + r.tsize] == input[r.addr - start..r.addr - start + r.tsize]
  }

  /** A single byte put into the lane of its address. */
  function ByteReg(b: u8, lane: nat): (r: Reg)
    requires lane < 8
    ensures r[lane] == b
  {
    seq(lane, _ => 0 as u8) + [b] + seq(7 - lane, _ => 0 as u8)
  }

  /** A block read into the variable, swapped and shifted, is in the lanes of its address. */
  lemma {:induction false} WriteLanes(host: seq<u8>, v: seq<u8>, k: nat)
    requires |host| == 8 && k + |v| <= 8 && host[..|v|] == v
    ensures Shr(Bswap(FromHost(host)), k)[k..k + |v|] == v
  {
    var r := Shr(Bswap(FromHost(host)), k);
    assert forall i :: 0 <= i < |v| ==> r[k + i] == host[i] == v[i];
  }

  lemma {:induction false} MoreTiles(log: seq<Request>, start: nat, addr: nat, r: Request)
    requires Tiles(log, start, addr) && start <= addr && r.addr == addr && r.tsize > 0
    ensures Tiles(log + [r], start, addr + r.tsize)
  {
    assert (log + [r])[..|log|] == log;
  }

  lemma {:induction false} MoreCarries(log: seq<Request>, start: nat, input: seq<u8>, r: Request)
    requires Carries(log, start, input) && Lane(r.addr) + r.tsize <= 8 && start <= r.addr
      && r.addr + r.tsize <= start + |input|
    requires r.data[Lane(r.addr)..Lane(r.addr) + r.tsize] == input[r.addr - start..r.addr - start + r.tsize]
    ensures Carries(log + [r], start, input)
  {
    hide Lane;
  }

  lemma {:induction false} MoreStored(m: seq<u8>, m1: seq<u8>, m2: seq<u8>, start: nat, input: seq<u8>, k: nat, n: nat)
    requires k + n <= |input| && Stored(m, m1, start, input[..k]) && Stored(m1, m2, start + k, input[k..k + n])
    ensures Stored(m, m2, start, input[..k + n])
  {
    var p := start + k;
    Untouched(m1, m2, p, n, start, p);
    Untouched(m1, m2, p, n, 0, start);
    Untouched(m1, m2, p, n, p + n, |m|);
    Untouched(m, m1, start, k, p + n, |m|);
    assert input[..k + n] == input[..k] + input[k..k + n];
    assert m2[start..p + n] == m2[start..p] + m2[p..p + n];
  }

  /** The register for the next request, and how many bytes it takes. */
  method Prepare(addr: nat, input: seq<u8>, k: nat, bs: nat, noise: Reg) returns (data: Reg, tsize: nat)
    requires BlockSize(bs) && k < |input|
    ensures 1 <= tsize <= |input| - k && Lane(addr) + tsize <= 8
      && data[Lane(addr)..Lane(addr) + tsize] == input[k..k + tsize]
    ensures tsize == if OnBlock(addr, bs) && k + bs <= |input| then bs else 1
  {
    hide Bswap, Shr, FromHost, Lane;
    if !OnBlock(addr, bs) || k + bs > |input| {
      tsize := 1;
      data := ByteReg(input[k], Lane(addr));
      assert data[Lane(addr)..Lane(addr) + 1] == [input[k]] == input[k..k + 1];
    } else {
      tsize := bs;
      Lanes(addr, bs);
      var host := input[k..k + bs] + noise[bs..];
      WriteLanes(host, input[k..k + bs], Lane(addr));
      data := Shr(Bswap(FromHost(host)), Lane(addr));
    }
  }

  /** adu_write: requests that cover [start, start + size) once each and store exactly the input there. */
  method Write(d: Device, start: nat, input: seq<u8>, blockSize: nat) returns (ghost log: seq<Request>)
    requires d.Valid() && (blockSize == 0 || BlockSize(blockSize))
    requires start + |input| + 8 <= |d.mem.bytes| <= 0x1_0000_0000_0000_0000
    modifies d.mem, d.mem.data
    ensures d.Valid() && |d.mem.bytes| == |old(d.mem.bytes)| && Stored(old(d.mem.bytes), d.mem.bytes, start, input)
    ensures Tiles(log, start, start + |input|) && Carries(log, start, input)
  {
    hide Stored, Tiles, Lane, OnBlock, Carries;
    var bs := if blockSize == 0 then 8 else blockSize;
    var end, addr := start + |input|, start;
    log := [];
    ghost var m := d.mem.bytes;
    StoredNone(m, start);
    NoTiles(start);
    assert input[..0] == [];
    while addr < end
      invariant d.Valid() && |d.mem.bytes| == |m| && start <= addr <= end
      invariant Stored(m, d.mem.bytes, start, input[..addr - start])
      invariant Tiles(log, start, addr) && Carries(log, start, input)
    {
      var k := addr - start;
      var data, tsize := Prepare(addr, input, k, bs, d.noise);
      ghost var m1 := d.mem.bytes;
      d.PutMem(addr, data, tsize);
      MoreStored(m, m1, d.mem.bytes, start, input, k, tsize);
      MoreTiles(log, start, addr, Request(addr, data, tsize));
      MoreCarries(log, start, input, Request(addr, data, tsize));
      log := log + [Request(addr, data, tsize)];
      addr := addr + tsize;
    }
    assert input[..|input|] == input;
  }

  lemma {:induction false} StoredNone(m: seq<u8>, p: nat)
    requires p <= |m|
    ensures Stored(m, m, p, [])
  {
  }

  lemma {:induction false} NoTiles(start: nat)
    ensures Tiles([], start, start) && forall input: seq<u8> :: Carries([], start, input)
  {
  }

  /** What adu_write wrote, adu_read reads, with any two block sizes. */
  method WriteThenRead(d: Device, start: nat, input: seq<u8>, wbs: nat, output: Buffer, rbs: nat) returns (rc: int)
    requires d.Valid() && output.Valid() && output != d.mem && output.data != d.mem.data && |input| <= |output.bytes|
    requires (wbs == 0 || BlockSize(wbs)) && (rbs == 0 || BlockSize(rbs))
    requires start + |input| + 8 <= |d.mem.bytes| <= 0x1_0000_0000_0000_0000
    modifies d.mem, d.mem.data, output, output.data
    ensures output.Valid() && |output.bytes| == |old(output.bytes)| && (rc == 0 ==> output.bytes[0..|input|] == input)
    ensures d.faulty == {} ==> rc == 0
  {
    ghost var log := Write(d, start, input, wbs);
    rc := Read(d, start, output, |input|, rbs);
  }
}
