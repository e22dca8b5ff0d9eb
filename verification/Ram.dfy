/** Instruction ramming: ram_instructions and the register accesses built on it. */
module Ram {
  import opened Bytes

  const SCR0: nat := 277
  const LR: nat := 8

  /** The instructions that the accesses are made of, by what their opcode says. */
  datatype Insn =
    | MfSpr(reg: nat, spr: nat)
    | MtSpr(spr: nat, reg: nat)
    | MfNia(reg: nat)
    | MtNia
    | MfMsr(reg: nat)
    | MtMsr(reg: nat)

  predicate Fits(i: Insn) {
    match i
    case MfSpr(reg, _) => reg < 32
    case MtSpr(_, reg) => reg < 32
    case MfNia(reg) => reg < 32
    case MtNia => true
    case MfMsr(reg) => reg < 32
    case MtMsr(reg) => reg < 32
  }

  /** A stopped thread. SPR 277 is the scratch register; `niaFromLr` tells where mtnia takes its value from. */
  datatype Machine = Machine(gpr: seq<u64>, spr: map<nat, u64>, scr: u64, nia: u64, msr: u64, niaFromLr: bool)

  predicate Sane(m: Machine) {
    |m.gpr| == 32
  }

  function Spr(m: Machine, spr: nat): u64 {
    if spr == SCR0 then m.scr else if spr in m.spr then m.spr[spr] else 0
  }

  /** What one instruction does. */
  function Exec(m: Machine, i: Insn): (r: Machine)
    requires Sane(m) && Fits(i)
    ensures Sane(r) && r.niaFromLr == m.niaFromLr
  {
    match i
    case MfSpr(reg, spr) => m.(gpr := m.gpr[reg := Spr(m, spr)])
    case MtSpr(spr, reg) => if spr == SCR0 then m.(scr := m.gpr[reg]) else m.(spr := m.spr[spr := m.gpr[reg]])
    case MfNia(reg) => m.(gpr := m.gpr[reg := m.nia])
    case MtNia => m.(nia := if m.niaFromLr then Spr(m, LR) else m.gpr[0])
    case MfMsr(reg) => m.(gpr := m.gpr[reg := m.msr])
    case MtMsr(reg) => m.(msr := m.gpr[reg])
  }

  /** An instruction rammed with a value in the scratch register. */
  function RamOne(m: Machine, i: Insn, scratch: u64): (r: Machine)
    requires Sane(m) && Fits(i)
    ensures Sane(r)
  {
    Exec(m.(scr := scratch), i)
  }

  class Thread {
    var m: Machine

    constructor (m: Machine)
      ensures this.m == m
    {
      this.m := m;
    }

    /** thread->ram_instruction: a fault leaves the thread as it is and something in the scratch value. */
    method RamInstruction(i: Insn, scratch: u64, fault: bool, junk: u64) returns (rc: int, out: u64)
      requires Sane(m) && Fits(i)
      modifies this
      ensures (rc == 0 <==> !fault) && Sane(m)
      ensures m == (if fault then old(m) else RamOne(old(m), i, scratch)) && out == if fault then junk else m.scr
    {
      if fault { return 1, junk; }
      m := Exec(m.(scr := scratch), i);
      return 0, m.scr;
    }
  }

  /** The machine after the first `k` opcodes, each rammed with its input. */
  ghost function After(m: Machine, ops: seq<Insn>, ins: seq<u64>, k: nat): (r: Machine)
    requires Sane(m) && (forall j :: 0 <= j < |ops| ==> Fits(ops[j])) && k <= |ops| == |ins|
    ensures Sane(r)
  {
    if k == 0 then m else RamOne(After(m, ops, ins, k - 1), ops[k - 1], ins[k - 1])
  }

  /** How many opcodes run before one faults; `fails[j + 2]` is for opcode `j`. */
  function Ran(fails: seq<bool>, len: nat, j: nat): (k: nat)
    requires |fails| == len + 4 && j <= len
    ensures j <= k <= len && (forall i :: j + 2 <= i < k + 2 ==> !fails[i]) && (k < len ==> fails[k + 2])
    decreases len - j
  {
    if j == len || fails[j + 2] then j else Ran(fails, len, j + 1)
  }

  /** Saving r1 and r0 only touches the scratch register. */
  function Saved(m: Machine): Machine
    requires Sane(m)
  {
    m.(scr := m.gpr[0])
  }

  function Restored(m: Machine, r0: u64, r1: u64): Machine
    requires Sane(m)
  {
    m.(gpr := m.gpr[0 := r0][1 := r1], scr := r1)
  }

  /** The save and restore steps do not fault. */
  predicate Clean(fails: seq<bool>, len: nat) {
    |fails| == len + 4 && !fails[0] && !fails[1] && !fails[len + 2] && !fails[len + 3]
  }

  /** What is given to ram_instructions, and the state of its loop. */
  datatype Job = Job(m: Machine, ops: seq<Insn>, ins: seq<u64>, fails: seq<bool>)

  datatype Loop = Loop(i: int, m: Machine, r0: u64, r1: u64, exception: int, rs: seq<u64>)

  ghost predicate Legal(j: Job) {
    Sane(j.m) && (forall k :: 0 <= k < |j.ops| ==> Fits(j.ops[k])) && |j.ins| == |j.ops| && |j.fails| == |j.ops| + 4
  }

  /** The opcodes before the `k`-th have run and left their results; the others have left nothing. */
  ghost predicate Done(j: Job, rs: seq<u64>, k: nat, last: int)
    requires Legal(j) && k <= |j.ops|
  {
    && |rs| == |j.ops| && (forall n :: 0 <= n < k ==> rs[n] == After(Saved(j.m), j.ops, j.ins, n + 1).scr)
    && forall n :: k <= n < last ==> n < |rs| && rs[n] == j.ins[n]
  }

  ghost predicate LoopInv(j: Job, x: Loop)
    requires Legal(j)
  {
    var len, k := |j.ops|, Ran(j.fails, |j.ops|, 0);
    var mk := After(Saved(j.m), j.ops, j.ins, k);
    && -2 <= x.i <= len + 2 && Sane(x.m) && 0 <= x.exception <= 1 && |x.rs| == len
    && (x.i < 0 ==> x.exception == 0 && x.rs == j.ins)
    && (x.i == -2 ==> x.m == j.m)
    && (x.i == -1 ==> x.m == j.m.(scr := j.m.gpr[1]) && x.r1 == j.m.gpr[1] && !j.fails[0])
    && (x.i >= 0 ==> x.r0 == j.m.gpr[0] && x.r1 == j.m.gpr[1] && !j.fails[0] && !j.fails[1])
    && (0 <= x.i < len ==>
       x.i <= k && x.exception == 0 && x.m == After(Saved(j.m), j.ops, j.ins, x.i) && Done(j, x.rs, x.i, len))
    && (x.i >= len ==> (x.exception == 0 <==> k == len) && Done(j, x.rs, k, len - 1))
    && (x.i == len ==> x.m == mk)
    && (x.i == len + 1 ==> !j.fails[len + 2] && x.m == mk.(scr := x.r0, gpr := mk.gpr[0 := x.r0]))
    && (x.i == len + 2 ==> !j.fails[len + 2] && !j.fails[len + 3] && x.m == Restored(mk, x.r0, x.r1))
  }

  /** What the loop rams at position `i`. */
  function Opcode(ops: seq<Insn>, i: int): Insn {
    if i == -2 then MtSpr(SCR0, 1)
    else if i == -1 then MtSpr(SCR0, 0)
    else if 0 <= i < |ops| then ops[i]
    else if i == |ops| then MfSpr(0, SCR0)
    else MfSpr(1, SCR0)
  }

  /** One turn at an opcode that runs. */
  lemma {:induction false} TurnOp(j: Job, x: Loop)
    requires Legal(j) && LoopInv(j, x) && 0 <= x.i < |j.ops| && !j.fails[x.i + 2]
    ensures x.rs[x.i] == j.ins[x.i]
    ensures var m := RamOne(x.m, j.ops[x.i], j.ins[x.i]); LoopInv(j, x.(i := x.i + 1, m := m, rs := x.rs[x.i := m.scr]))
  {
    hide RamOne, Ran;
    RanPast(j.fails, |j.ops|, x.i);
  }

  lemma {:induction false} RanPast(fails: seq<bool>, len: nat, i: nat)
    requires |fails| == len + 4 && i < len && i <= Ran(fails, len, 0)
    ensures fails[i + 2] <==> Ran(fails, len, 0) == i
  {
  }

  /** A fault at an opcode: on to the restore steps. */
  lemma {:induction false} TurnFault(j: Job, x: Loop, junk: u64)
    requires Legal(j) && LoopInv(j, x) && 0 <= x.i < |j.ops| && j.fails[x.i + 2]
    ensures var len := |j.ops|; LoopInv(j, x.(i := len, exception := 1, rs := x.rs[len - 1 := junk]))
  {
    hide RamOne, Ran, After;
    RanPast(j.fails, |j.ops|, x.i);
  }

  lemma {:induction false} TurnSave(j: Job, x: Loop)
    requires Legal(j) && LoopInv(j, x) && x.i < 0 && !j.fails[x.i + 2]
    ensures forall scratch :: var m := RamOne(x.m, Opcode(j.ops, x.i), scratch);
      LoopInv(j, if x.i == -2 then x.(i := -1, m := m, r1 := m.scr) else x.(i := 0, m := m, r0 := m.scr))
  {
    hide Ran;
  }

  lemma {:induction false} TurnRestore(j: Job, x: Loop)
    requires Legal(j) && LoopInv(j, x) && |j.ops| <= x.i < |j.ops| + 2 && !j.fails[x.i + 2]
    ensures var m := RamOne(x.m, Opcode(j.ops, x.i), if x.i == |j.ops| then x.r0 else x.r1);
      LoopInv(j, x.(i := x.i + 1, m := m))
  {
    hide Ran, After;
  }

  /**
   ram_instructions. When the save and restore steps succeed, r0 and r1 are as they were, whether all opcodes ran or
   one faulted, and the results of the opcodes before the fault are kept.
   */
  method RamInstructions(t: Thread, ops: seq<Insn>, results: array<u64>, fails: seq<bool>, junk: u64)
    returns (exception: int)
    requires Sane(t.m) && (forall j :: 0 <= j < |ops| ==> Fits(ops[j])) && results.Length == |ops|
      && |fails| == |ops| + 4
    modifies t, results
    ensures Sane(t.m)
    ensures Clean(fails, |ops|) ==>
      var k, m0, ins := Ran(fails, |ops|, 0), old(t.m), old(results[..]);
      && (exception == 0 <==> k == |ops|) && 0 <= exception <= 1
      && t.m == Restored(After(Saved(m0), ops, ins, k), m0.gpr[0], m0.gpr[1])
      && (forall j :: 0 <= j < k ==> results[j] == After(Saved(m0), ops, ins, j + 1).scr)
      && (forall j :: k <= j < |ops| - 1 ==> results[j] == ins[j])
    ensures !Clean(fails, |ops|) ==> exception == 1
  {
    hide RamOne, Ran, After, LoopInv, Restored;
    var len := |ops|;
    var r0: u64, r1: u64, scratch: u64 := 0, 0, 0;
    exception := 0;
    var i := -2;
    ghost var j := Job(t.m, ops, results[..], fails);
    StartInv(j, r0, r1);
    while i < len + 2
      invariant Sane(t.m) && -2 <= i <= len + 2 && LoopInv(j, Loop(i, t.m, r0, r1, exception, results[..]))
    {
      ghost var x := Loop(i, t.m, r0, r1, exception, results[..]);
      if 0 <= i < len {
        scratch := results[i];
      } else if i == len {
        scratch := r0;
      } else if i == len + 1 {
        scratch := r1;
      }
      if 0 <= i < len {
        if fails[i + 2] { TurnFault(j, x, junk); } else { TurnOp(j, x); }
      } else if !fails[i + 2] {
        if i < 0 { TurnSave(j, x); } else { TurnRestore(j, x); }
      }
      var rc;
      rc, scratch := t.RamInstruction(Opcode(ops, i), scratch, fails[i + 2], junk);
      if rc != 0 {
        exception := 1;
        if 0 <= i < len { i := len - 1; } else { break; }
      }
      if i == -2 {
        r1 := scratch;
      } else if i == -1 {
        r0 := scratch;
      } else if i < len {
        results[i] := scratch;
        assert results[..] == x.rs[i := scratch];
      }
      i := i + 1;
    }
    if i == len + 2 { EndInv(j, Loop(i, t.m, r0, r1, exception, results[..])); }
  }

  lemma {:induction false} StartInv(j: Job, r0: u64, r1: u64)
    requires Legal(j)
    ensures LoopInv(j, Loop(-2, j.m, r0, r1, 0, j.ins))
  {
  }

  lemma {:induction false} EndInv(j: Job, x: Loop)
    requires Legal(j) && LoopInv(j, x) && x.i == |j.ops| + 2
    ensures var k := Ran(j.fails, |j.ops|, 0);
      && Clean(j.fails, |j.ops|) && (x.exception == 0 <==> k == |j.ops|) && 0 <= x.exception <= 1
      && x.m == Restored(After(Saved(j.m), j.ops, j.ins, k), j.m.gpr[0], j.m.gpr[1]) && Done(j, x.rs, k, |j.ops| - 1)
  {
    hide After, Restored;
  }

  // ---------- The accesses ----------

  /** A whole ramming that does not fault. */
  ghost function Access(m: Machine, ops: seq<Insn>, ins: seq<u64>, k: nat): (r: Machine)
    requires Sane(m) && (forall j :: 0 <= j < |ops| ==> Fits(ops[j])) && k <= |ops| == |ins|
    ensures Sane(r) && r.gpr[0] == m.gpr[0] && r.gpr[1] == m.gpr[1]
  {
    Restored(After(Saved(m), ops, ins, k), m.gpr[0], m.gpr[1])
  }

  /** Nothing but the scratch register tells two threads apart. */
  ghost predicate SameState(a: Machine, b: Machine) {
    a.gpr == b.gpr && a.nia == b.nia && a.msr == b.msr && forall k :: k != SCR0 ==> Spr(a, k) == Spr(b, k)
  }

  function GetGprOps(g: nat): seq<Insn> { [MtSpr(SCR0, g)] }

  function PutGprOps(g: nat): seq<Insn> { [MfSpr(g, SCR0)] }

  function PutNiaOps(): seq<Insn> { [MfSpr(1, LR), MfSpr(0, SCR0), MtSpr(LR, 0), MtNia, MtSpr(LR, 1)] }

  function GetSprOps(spr: nat): seq<Insn> { [MfSpr(0, spr), MtSpr(SCR0, 0)] }

  function PutSprOps(spr: nat): seq<Insn> { [MfSpr(0, SCR0), MtSpr(spr, 0)] }

  lemma {:induction false} After1(m: Machine, ops: seq<Insn>, ins: seq<u64>, k: nat)
    requires Sane(m) && (forall j :: 0 <= j < |ops| ==> Fits(ops[j])) && k < |ops| == |ins|
    ensures After(m, ops, ins, 0) == m && After(m, ops, ins, k + 1) == RamOne(After(m, ops, ins, k), ops[k], ins[k])
  {
  }

  /** ram_getgpr reads the register as it was on entry, r0 and r1 included, and changes nothing. */
  lemma {:induction false} GetGpr(m: Machine, g: nat)
    requires Sane(m) && g < 32
    ensures After(Saved(m), GetGprOps(g), [0], 1).scr == m.gpr[g] && SameState(Access(m, GetGprOps(g), [0], 1), m)
  {
    hide RamOne;
    After1(Saved(m), GetGprOps(g), [0], 0);
    assert After(Saved(m), GetGprOps(g), [0], 1) == m.(scr := m.gpr[g]) by { StepGet(m, g); }
  }

  lemma {:induction false} StepGet(m: Machine, g: nat)
    requires Sane(m) && g < 32
    ensures RamOne(Saved(m), MtSpr(SCR0, g), 0) == m.(scr := m.gpr[g])
  {
  }

  /** ram_putgpr sets the register, except that r0 and r1 get their old values back. */
  lemma {:induction false} PutGpr(m: Machine, g: nat, v: u64)
    requires Sane(m) && g < 32
    ensures SameState(Access(m, PutGprOps(g), [v], 1), if g < 2 then m else m.(gpr := m.gpr[g := v]))
  {
    After1(Saved(m), PutGprOps(g), [v], 0);
  }

  /** What ram_putgpr put, ram_getgpr gets: exactly for the registers from r2 on, or when the value was there before. */
  lemma {:induction false} PutGetGpr(m: Machine, g: nat, v: u64)
    requires Sane(m) && g < 32
    ensures After(Saved(Access(m, PutGprOps(g), [v], 1)), GetGprOps(g), [0], 1).scr == v <==> g >= 2 || m.gpr[g] == v
  {
    hide Access, After;
    PutGpr(m, g, v);
    GetGpr(Access(m, PutGprOps(g), [v], 1), g);
  }

  lemma {:induction false} PutNiaRun(m: Machine, v: u64)
    requires Sane(m)
    ensures var ops, ins, lr, g := PutNiaOps(), [0, v, 0, 0, 0], Spr(m, LR), m.gpr;
      && After(m, ops, ins, 0) == m
      && After(m, ops, ins, 1) == m.(scr := 0, gpr := g[1 := lr])
      && After(m, ops, ins, 2) == m.(scr := v, gpr := g[1 := lr][0 := v])
      && After(m, ops, ins, 3) == m.(scr := 0, gpr := g[1 := lr][0 := v], spr := m.spr[LR := v])
      && After(m, ops, ins, 4) == m.(scr := 0, gpr := g[1 := lr][0 := v], spr := m.spr[LR := v], nia := v)
      && After(m, ops, ins, 5) == m.(scr := 0, gpr := g[1 := lr][0 := v], spr := m.spr[LR := v][LR := lr], nia := v)
  {
    var ops, ins := PutNiaOps(), [0, v, 0, 0, 0];
    After1(m, ops, ins, 0);
    After1(m, ops, ins, 1);
    After1(m, ops, ins, 2);
    After1(m, ops, ins, 3);
    After1(m, ops, ins, 4);
  }

  /** ram_putnia sets NIA and nothing else, whether mtnia reads r0 or LR. */
  lemma {:induction false} PutNia(m: Machine, v: u64)
    requires Sane(m)
    ensures SameState(Access(m, PutNiaOps(), [0, v, 0, 0, 0], 5), m.(nia := v))
  {
    hide After, PutNiaOps;
    PutNiaRun(Saved(m), v);
  }

  /**
   When the opcode after the first `k` of ram_putnia faults, LR is kept exactly up to the mtlr, or if it held the value.
   */
  lemma {:induction false} PutNiaFault(m: Machine, v: u64, k: nat)
    requires Sane(m) && k <= 5
    ensures Spr(Access(m, PutNiaOps(), [0, v, 0, 0, 0], k), LR) == Spr(m, LR) <==> k <= 2 || k == 5 || v == Spr(m, LR)
  {
    hide After, PutNiaOps;
    PutNiaRun(Saved(m), v);
  }

  /** What ram_putspr put, ram_getspr gets, and no other register changes. */
  lemma {:induction false} PutGetSpr(m: Machine, spr: nat, v: u64)
    requires Sane(m) && spr != SCR0
    ensures var m1 := Access(m, PutSprOps(spr), [v, 0], 2);
      && SameState(m1, m.(spr := m.spr[spr := v]))
      && After(Saved(m1), GetSprOps(spr), [0, 0], 2).scr == v && SameState(Access(m1, GetSprOps(spr), [0, 0], 2), m1)
  {
    var m1 := Access(m, PutSprOps(spr), [v, 0], 2);
    PutSprRun(m, spr, v);
    GetSprRun(m1, spr);
  }

  lemma {:induction false} PutSprRun(m: Machine, spr: nat, v: u64)
    requires Sane(m) && spr != SCR0
    ensures SameState(Access(m, PutSprOps(spr), [v, 0], 2), m.(spr := m.spr[spr := v]))
  {
    After1(Saved(m), PutSprOps(spr), [v, 0], 0);
    After1(Saved(m), PutSprOps(spr), [v, 0], 1);
  }

  lemma {:induction false} GetSprRun(m: Machine, spr: nat)
    requires Sane(m) && spr != SCR0
    ensures After(Saved(m), GetSprOps(spr), [0, 0], 2).scr == Spr(m, spr)
      && SameState(Access(m, GetSprOps(spr), [0, 0], 2), m)
  {
    After1(Saved(m), GetSprOps(spr), [0, 0], 0);
    After1(Saved(m), GetSprOps(spr), [0, 0], 1);
  }
}
