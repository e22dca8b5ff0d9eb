/** Probing and releasing targets: pdbg_target_probe and pdbg_target_release over the target tree. */
module Probe {
  import opened Bytes

  datatype Status = Unknown | Enabled | Disabled | MustExist | NonExistent | Released

  /** A hook that ran, with the statuses of all targets when it did. */
  datatype Event = ProbeHook(target: nat, seen: seq<Status>) | ReleaseHook(target: nat, seen: seq<Status>)

  /** The target tree: each target's parent, or a negative number, and its list of children. */
  datatype Shape = Shape(par: seq<int>, kids: seq<seq<nat>>, hasProbe: seq<bool>, hasRelease: seq<bool>)

  datatype State = State(st: seq<Status>, log: seq<Event>)

  /** Targets are numbered so that parents come before their children. */
  ghost predicate Sound(p: Shape) {
    && |p.kids| == |p.hasProbe| == |p.hasRelease| == |p.par|
    && (forall i :: 0 <= i < |p.par| ==> p.par[i] < i)
    && (forall i, k :: 0 <= i < |p.kids| && 0 <= k < |p.kids[i]| ==> p.kids[i][k] < |p.par| && p.par[p.kids[i][k]] == i)
    && (forall j :: 0 <= j < |p.par| && p.par[j] >= 0 ==> j in p.kids[p.par[j]])
  }

  ghost predicate Fits(p: Shape, x: State) {
    Sound(p) && |x.st| == |p.par|
  }

  predicate Decided(s: Status) {
    s == Disabled || s == NonExistent || s == Enabled
  }

  // ---------- The two operations ----------

  /** The end of pdbg_target_probe: the hook decides. None is a failed assertion. */
  function RunHook(p: Shape, x: State, t: nat, fails: seq<bool>): Option<State>
    requires t < |x.st| == |p.hasProbe| == |fails|
  {
    var log := if p.hasProbe[t] then x.log + [ProbeHook(t, x.st)] else x.log;
    if p.hasProbe[t] && fails[t] then
      if x.st[t] == MustExist then None else Some(State(x.st[t := NonExistent], log))
    else Some(State(x.st[t := Enabled], log))
  }

  /** pdbg_target_probe in a tree without linked virtual targets; `fails` says which hooks find no target. */
  function ProbeTarget(p: Shape, x: State, t: nat, fails: seq<bool>): (r: Option<State>)
    requires Fits(p, x) && t < |x.st| == |fails|
    ensures r.Some? ==> |r.value.st| == |x.st|
    decreases t
  {
    if x.st[t] == Released then None
    else if Decided(x.st[t]) then Some(x)
    else if p.par[t] < 0 then RunHook(p, x, t, fails)
    else
      var up := p.par[t];
      match ProbeTarget(p, x, up, fails)
      case None => None
      case Some(y) =>
        match y.st[up]
        case NonExistent => Some(State(y.st[t := NonExistent], y.log))
        case Disabled => if y.st[t] == MustExist then None else Some(y)
        case Enabled => RunHook(p, y, t, fails)
        case _ => None
  }

  /** pdbg_target_release, and its loop over the children from the `k`-th on. */
  function ReleaseTarget(p: Shape, x: State, t: nat): (y: State)
    requires Fits(p, x) && t < |x.st|
    ensures |y.st| == |x.st|
    decreases |p.par| - t, 0
  {
    if x.st[t] != Enabled then x
    else
      var y := ReleaseKids(p, x, t, 0);
      State(y.st[t := Released], if p.hasRelease[t] then y.log + [ReleaseHook(t, y.st)] else y.log)
  }

  function ReleaseKids(p: Shape, x: State, t: nat, k: nat): (y: State)
    requires Fits(p, x) && t < |x.st| && k <= |p.kids[t]|
    ensures |y.st| == |x.st|
    decreases |p.par| - t - 1, |p.kids[t]| - k + 1
  {
    if k == |p.kids[t]| then x
    else ReleaseKids(p, ReleaseTarget(p, x, p.kids[t][k]), t, k + 1)
  }

  // ---------- What every call keeps ----------

  /** `a` is a proper ancestor of `j`. */
  ghost predicate Under(p: Shape, a: int, j: int)
    requires Sound(p)
    decreases j
  {
    0 <= j < |p.par| && p.par[j] >= 0 && (p.par[j] == a || Under(p, a, p.par[j]))
  }

  /** An enabled target has an enabled parent. */
  ghost predicate Chain(p: Shape, st: seq<Status>)
    requires Sound(p) && |st| == |p.par|
  {
    forall i :: 0 <= i < |st| && st[i] == Enabled && p.par[i] >= 0 ==> st[p.par[i]] == Enabled
  }

  /**
   The probe hook ran below enabled targets only, the release hook above no enabled one; and both have taken effect.
   */
  ghost predicate EventOk(p: Shape, st: seq<Status>, e: Event)
    requires Sound(p) && |st| == |p.par|
  {
    e.target < |st| && |e.seen| == |st| &&
    match e
    case ProbeHook(t, seen) =>
      && st[t] in {Enabled, NonExistent, Released}
      && forall a :: 0 <= a < |st| && Under(p, a, t) ==> seen[a] == Enabled
    case ReleaseHook(t, seen) => st[t] == Released && forall d :: 0 <= d < |st| && Under(p, t, d) ==> seen[d] != Enabled
  }

  predicate SameHook(a: Event, b: Event) {
    a.target == b.target && a.ProbeHook? == b.ProbeHook?
  }

  ghost predicate Inv(p: Shape, x: State) {
    && Fits(p, x) && Chain(p, x.st)
    && (forall k :: 0 <= k < |x.log| ==> EventOk(p, x.st, x.log[k]))
    && (forall j, k :: 0 <= j < k < |x.log| ==> !SameHook(x.log[j], x.log[k]))
  }

  /** How a status may change. */
  predicate Later(a: Status, b: Status) {
    a == b || ((a == Unknown || a == MustExist) && (b == Enabled || b == NonExistent))
      || (a == Enabled && b == Released)
  }

  ghost predicate AllLater(a: seq<Status>, b: seq<Status>) {
    |a| == |b| && forall i :: 0 <= i < |a| ==> Later(a[i], b[i])
  }

  lemma {:induction false} AncestorsEnabled(p: Shape, st: seq<Status>, a: int, i: int)
    requires Sound(p) && |st| == |p.par| && Chain(p, st) && 0 <= i < |st| && 0 <= a < |st| && Under(p, a, i)
    requires p.par[i] >= 0 && st[p.par[i]] == Enabled
    ensures st[a] == Enabled
    decreases i
  {
    if p.par[i] != a { AncestorsEnabled(p, st, a, p.par[i]); }
  }

  lemma {:induction false} NoneBelow(p: Shape, st: seq<Status>, t: int, d: int)
    requires Sound(p) && |st| == |p.par| && Chain(p, st) && 0 <= d < |st| && Under(p, t, d)
    requires forall j :: 0 <= j < |st| && p.par[j] == t ==> st[j] != Enabled
    ensures st[d] != Enabled
    decreases d
  {
    if p.par[d] != t { NoneBelow(p, st, t, p.par[d]); }
  }

  lemma {:induction false} EventLater(p: Shape, a: seq<Status>, b: seq<Status>, e: Event)
    requires Sound(p) && |a| == |p.par| && AllLater(a, b) && EventOk(p, a, e)
    ensures EventOk(p, b, e)
  {
    hide Sound;
  }

  /** One status changed, and perhaps one hook run. */
  lemma {:induction false} InvStep(p: Shape, x: State, t: nat, s: Status, more: seq<Event>)
    requires Inv(p, x) && t < |x.st| && Later(x.st[t], s) && Chain(p, x.st[t := s]) && |more| <= 1
    requires more != [] ==> EventOk(p, x.st[t := s], more[0])
    requires more != [] ==> forall k :: 0 <= k < |x.log| ==> !SameHook(x.log[k], more[0])
    ensures Inv(p, State(x.st[t := s], x.log + more))
  {
    hide Sound, Chain, EventOk;
    var y := State(x.st[t := s], x.log + more);
    forall k | 0 <= k < |y.log| ensures EventOk(p, y.st, y.log[k]) {
      if k < |x.log| { EventLater(p, x.st, y.st, x.log[k]); }
    }
  }

  // ---------- Probing ----------

  lemma {:induction false} HookKeeps(p: Shape, x: State, t: nat, fails: seq<bool>)
    requires Inv(p, x) && t < |x.st| == |fails| && (x.st[t] == Unknown || x.st[t] == MustExist)
    requires p.par[t] >= 0 ==> x.st[p.par[t]] == Enabled
    requires RunHook(p, x, t, fails).Some?
    ensures Inv(p, RunHook(p, x, t, fails).value) && AllLater(x.st, RunHook(p, x, t, fails).value.st)
  {
    var s := if p.hasProbe[t] && fails[t] then NonExistent else Enabled;
    var more := if p.hasProbe[t] then [ProbeHook(t, x.st)] else [];
    forall a | 0 <= a < |x.st| && Under(p, a, t) ensures x.st[a] == Enabled { AncestorsEnabled(p, x.st, a, t); }
    forall k | 0 <= k < |x.log| ensures !SameHook(x.log[k], ProbeHook(t, x.st)) { assert EventOk(p, x.st, x.log[k]); }
    InvStep(p, x, t, s, more);
    assert x.log + [] == x.log;
  }

  /** Every returning probe keeps the invariant and only moves statuses forward, of the target and its ancestors. */
  lemma {:induction false} ProbeKeeps(p: Shape, x: State, t: nat, fails: seq<bool>)
    requires Inv(p, x) && t < |x.st| == |fails| && ProbeTarget(p, x, t, fails).Some?
    ensures var y := ProbeTarget(p, x, t, fails).value;
      && Inv(p, y) && AllLater(x.st, y.st) && forall i :: 0 <= i < |x.st| && i != t && !Under(p, i, t) ==>
         y.st[i] == x.st[i]
    decreases t
  {
    hide EventOk, RunHook;
    if x.st[t] != Released && !Decided(x.st[t]) {
      if p.par[t] < 0 {
        HookKeeps(p, x, t, fails);
        HookFrame(p, x, t, fails);
      } else {
        var up := p.par[t];
        ProbeKeeps(p, x, up, fails);
        var y := ProbeTarget(p, x, up, fails).value;
        NotAbove(p, t, up);
        assert y.st[t] == x.st[t];
        if y.st[up] == Enabled {
          HookKeeps(p, y, t, fails);
          HookFrame(p, y, t, fails);
        } else if y.st[up] == NonExistent {
          InvStep(p, y, t, NonExistent, []);
          assert y.log + [] == y.log;
        }
      }
    }
  }

  lemma {:induction false} HookFrame(p: Shape, x: State, t: nat, fails: seq<bool>)
    requires t < |x.st| == |p.hasProbe| == |fails| && RunHook(p, x, t, fails).Some?
    ensures forall i :: 0 <= i < |x.st| && i != t ==> RunHook(p, x, t, fails).value.st[i] == x.st[i]
  {
  }

  lemma {:induction false} NotAbove(p: Shape, t: int, j: int)
    requires Sound(p) && 0 <= j < |p.par| && j < t
    ensures !Under(p, t, j)
    decreases j
  {
    if p.par[j] >= 0 && p.par[j] != t { NotAbove(p, t, p.par[j]); }
  }

  // ---------- Releasing ----------

  /** Some enabled targets have been released. */
  ghost predicate OnlyReleases(a: seq<Status>, b: seq<Status>) {
    |a| == |b| && forall i :: 0 <= i < |a| ==> b[i] == a[i] || (a[i] == Enabled && b[i] == Released)
  }

  /** Nothing outside the subtree of `t` has changed. */
  ghost predicate OnlyUnder(p: Shape, t: int, a: seq<Status>, b: seq<Status>)
    requires Sound(p)
  {
    |a| == |b| == |p.par| && forall i :: 0 <= i < |a| && !Under(p, t, i) ==> i == t || b[i] == a[i]
  }

  ghost predicate QuietUnder(p: Shape, st: seq<Status>, t: int)
    requires Sound(p) && |st| == |p.par|
  {
    forall d :: 0 <= d < |st| && Under(p, t, d) ==> st[d] != Enabled
  }

  lemma {:induction false} UnderTrans(p: Shape, a: int, b: int, i: int)
    requires Sound(p) && Under(p, a, b) && Under(p, b, i)
    ensures Under(p, a, i)
    decreases i
  {
    if p.par[i] != b { UnderTrans(p, a, b, p.par[i]); }
  }

  lemma {:induction false} NotEnabledBelow(p: Shape, st: seq<Status>, t: int, d: int)
    requires Sound(p) && |st| == |p.par| && Chain(p, st) && 0 <= d < |st| && 0 <= t < |st| && Under(p, t, d)
      && st[t] != Enabled
    ensures st[d] != Enabled
    decreases d
  {
    if p.par[d] != t { NotEnabledBelow(p, st, t, p.par[d]); }
  }

  /** Every release keeps the invariant and leaves nothing enabled at or below the target. */
  lemma {:induction false} ReleaseKeeps(p: Shape, x: State, t: nat)
    requires Inv(p, x) && t < |x.st|
    ensures var y := ReleaseTarget(p, x, t);
      Inv(p, y) && OnlyReleases(x.st, y.st) && OnlyUnder(p, t, x.st, y.st) && y.st[t] != Enabled
        && QuietUnder(p, y.st, t)
    decreases |p.par| - t, 0
  {
    hide EventOk;
    if x.st[t] == Enabled {
      ReleaseKidsKeep(p, x, t, 0);
      var y := ReleaseKids(p, x, t, 0);
      forall d | 0 <= d < |y.st| && Under(p, t, d) ensures y.st[d] != Enabled { NoneBelow(p, y.st, t, d); }
      ReleaseSelf(p, y, t);
    } else {
      forall d | 0 <= d < |x.st| && Under(p, t, d) ensures x.st[d] != Enabled { NotEnabledBelow(p, x.st, t, d); }
    }
  }

  /** The target itself, once nothing below it is enabled. */
  lemma {:induction false} ReleaseSelf(p: Shape, y: State, t: nat)
    requires Inv(p, y) && t < |y.st| && y.st[t] == Enabled && QuietUnder(p, y.st, t)
    ensures Inv(p, State(y.st[t := Released], if p.hasRelease[t] then y.log + [ReleaseHook(t, y.st)] else y.log))
  {
    var more := if p.hasRelease[t] then [ReleaseHook(t, y.st)] else [];
    forall k | 0 <= k < |y.log| ensures !SameHook(y.log[k], ReleaseHook(t, y.st)) { assert EventOk(p, y.st, y.log[k]); }
    forall i | 0 <= i < |y.st| && p.par[i] == t ensures y.st[i] != Enabled { assert Under(p, t, i); }
    InvStep(p, y, t, Released, more);
    assert y.log + [] == y.log;
  }

  lemma {:induction false} ReleaseKidsKeep(p: Shape, x: State, t: nat, k: nat)
    requires Inv(p, x) && t < |x.st| && x.st[t] == Enabled && k <= |p.kids[t]|
    requires forall m :: 0 <= m < k ==> x.st[p.kids[t][m]] != Enabled
    ensures var y := ReleaseKids(p, x, t, k);
      && Inv(p, y) && OnlyReleases(x.st, y.st) && OnlyUnder(p, t, x.st, y.st) && y.st[t] == Enabled
      && forall j :: 0 <= j < |y.st| && p.par[j] == t ==> y.st[j] != Enabled
    decreases |p.par| - t - 1, |p.kids[t]| - k + 1
  {
    hide EventOk, ReleaseTarget;
    if k < |p.kids[t]| {
      var c := p.kids[t][k];
      ReleaseKeeps(p, x, c);
      var y := ReleaseTarget(p, x, c);
      NotAbove(p, c, t);
      OnlyDeeper(p, t, c, x.st, y.st);
      ReleaseKidsKeep(p, y, t, k + 1);
    } else {
      forall j | 0 <= j < |x.st| && p.par[j] == t ensures x.st[j] != Enabled {
        assert j in p.kids[t];
      }
    }
  }

  lemma {:induction false} OnlyDeeper(p: Shape, t: int, c: int, a: seq<Status>, b: seq<Status>)
    requires Sound(p) && Under(p, t, c) && OnlyUnder(p, c, a, b)
    ensures OnlyUnder(p, t, a, b)
  {
    forall i | 0 <= i < |a| && !Under(p, t, i) ensures i == t || b[i] == a[i] {
      if Under(p, c, i) { UnderTrans(p, t, c, i); }
    }
  }

  // ---------- The hooks that run ----------

  /** The hook of target `i` is in a log. */
  ghost predicate HookRan(log: seq<Event>, i: int, probe: bool) {
    exists k :: 0 <= k < |log| && log[k].target == i && log[k].ProbeHook? == probe
  }

  /** Whether a target has the hook. */
  predicate Hooked(p: Shape, i: int, probe: bool)
    requires 0 <= i < |p.hasProbe| == |p.hasRelease|
  {
    if probe then p.hasProbe[i] else p.hasRelease[i]
  }

  /**
   From `x` to `y`, every target that has turned enabled, or released, and has a hook for that has run it, and no
   other hooks have run than such as targets have.
   */
  ghost predicate HooksRun(p: Shape, x: State, y: State, probe: bool)
    requires Fits(p, x)
  {
    var s := if probe then Enabled else Released;
    && |y.st| == |x.st| && x.log <= y.log
    && (forall i :: 0 <= i < |x.st| && y.st[i] == (if probe then Released else Enabled) ==> x.st[i] == y.st[i])
    && (forall i :: 0 <= i < |x.st| && x.st[i] != s && y.st[i] == s && Hooked(p, i, probe) ==>
          HookRan(y.log[|x.log|..], i, probe))
    && (forall k :: |x.log| <= k < |y.log| ==>
          y.log[k].ProbeHook? == probe && y.log[k].target < |x.st| && Hooked(p, y.log[k].target, probe))
  }

  lemma {:induction false} HookRanMore(a: seq<Event>, b: seq<Event>, i: int, probe: bool)
    requires HookRan(a, i, probe) || HookRan(b, i, probe)
    ensures HookRan(a + b, i, probe)
  {
    if HookRan(a, i, probe) {
      var k :| 0 <= k < |a| && a[k].target == i && a[k].ProbeHook? == probe;
      assert (a + b)[k] == a[k];
    } else {
      var k :| 0 <= k < |b| && b[k].target == i && b[k].ProbeHook? == probe;
      assert (a + b)[|a| + k] == b[k];
    }
  }

  lemma {:induction false} HooksTrans(p: Shape, x: State, y: State, z: State, probe: bool)
    requires Fits(p, x) && Fits(p, y) && HooksRun(p, x, y, probe) && HooksRun(p, y, z, probe)
    ensures HooksRun(p, x, z, probe)
  {
    hide HookRan, Sound;
    SoundParts(p);
    var s := if probe then Enabled else Released;
    var a, b, c := y.log[|x.log|..], z.log[|y.log|..], z.log[|x.log|..];
    assert c == a + b;
    forall i | 0 <= i < |x.st| && x.st[i] != s && z.st[i] == s && Hooked(p, i, probe) ensures HookRan(c, i, probe) {
      HookRanMore(a, b, i, probe);
    }
    forall k | |x.log| <= k < |z.log|
      ensures z.log[k].ProbeHook? == probe && z.log[k].target < |x.st| && Hooked(p, z.log[k].target, probe)
    {
      if k < |y.log| { assert z.log[k] == y.log[k]; }
    }
  }

  /** One target turned, and its hook run if it has one. */
  lemma {:induction false} HookOne(p: Shape, x: State, t: nat, s: Status, e: Event)
    requires Fits(p, x) && t < |x.st| && e.target == t && s in {Enabled, NonExistent, Released}
    requires e.ProbeHook? <==> s != Released
    ensures var probe := s != Released;
      HooksRun(p, x, State(x.st[t := s], if Hooked(p, t, probe) then x.log + [e] else x.log), probe)
  {
    hide Sound;
    SoundParts(p);
    var probe := s != Released;
    var y := State(x.st[t := s], if Hooked(p, t, probe) then x.log + [e] else x.log);
    if Hooked(p, t, probe) {
      assert y.log[|x.log|..] == [e] && [e][0] == e;
      assert HookRan(y.log[|x.log|..], t, probe);
    }
  }

  lemma {:induction false} ProbeLogs(p: Shape, x: State, t: nat, fails: seq<bool>)
    requires Fits(p, x) && t < |x.st| == |fails| && ProbeTarget(p, x, t, fails).Some?
    ensures HooksRun(p, x, ProbeTarget(p, x, t, fails).value, true)
    decreases t
  {
    hide HookRan, Sound;
    SoundParts(p);
    if x.st[t] != Released && !Decided(x.st[t]) {
      if p.par[t] < 0 {
        HookOne(p, x, t, if p.hasProbe[t] && fails[t] then NonExistent else Enabled, ProbeHook(t, x.st));
      } else {
        var up := p.par[t];
        ProbeLogs(p, x, up, fails);
        var y := ProbeTarget(p, x, up, fails).value;
        if y.st[up] == Enabled {
          HookOne(p, y, t, if p.hasProbe[t] && fails[t] then NonExistent else Enabled, ProbeHook(t, y.st));
          HooksTrans(p, x, y, ProbeTarget(p, x, t, fails).value, true);
        }
      }
    }
  }

  lemma {:induction false} SoundParts(p: Shape)
    requires Sound(p)
    ensures |p.kids| == |p.hasProbe| == |p.hasRelease| == |p.par| && forall i :: 0 <= i < |p.par| ==> p.par[i] < i
    ensures forall i, k :: 0 <= i < |p.kids| && 0 <= k < |p.kids[i]| ==> i < p.kids[i][k] < |p.par|
  {
  }

  lemma {:induction false} ReleaseLogs(p: Shape, x: State, t: nat)
    requires Fits(p, x) && t < |x.st|
    ensures HooksRun(p, x, ReleaseTarget(p, x, t), false)
    decreases |p.par| - t, 0
  {
    hide HookRan, Sound, ReleaseKids;
    SoundParts(p);
    if x.st[t] == Enabled {
      var y := ReleaseKids(p, x, t, 0);
      ReleaseKidsLog(p, x, t, 0);
      HookOne(p, y, t, Released, ReleaseHook(t, y.st));
      HooksTrans(p, x, y, ReleaseTarget(p, x, t), false);
    }
  }

  lemma {:induction false} ReleaseKidsLog(p: Shape, x: State, t: nat, k: nat)
    requires Fits(p, x) && t < |x.st| && k <= |p.kids[t]|
    ensures HooksRun(p, x, ReleaseKids(p, x, t, k), false)
    decreases |p.par| - t - 1, |p.kids[t]| - k + 1
  {
    hide HookRan, Sound, ReleaseTarget;
    SoundParts(p);
    if k < |p.kids[t]| {
      var y := ReleaseTarget(p, x, p.kids[t][k]);
      ReleaseLogs(p, x, p.kids[t][k]);
      ReleaseKidsLog(p, y, t, k + 1);
      HooksTrans(p, x, y, ReleaseKids(p, x, t, k), false);
    }
  }

  // ---------- Whole runs ----------

  datatype Call = DoProbe(target: nat, fails: seq<bool>) | DoRelease(target: nat)

  /** A run of calls that all return; None when an assertion fails on the way. */
  function Run(p: Shape, x: State, calls: seq<Call>): Option<State>
    requires Fits(p, x) && forall c :: c in calls ==> c.target < |x.st| && (c.DoProbe? ==> |c.fails| == |x.st|)
    decreases |calls|
  {
    if calls == [] then Some(x)
    else
      match calls[0]
      case DoRelease(t) => Run(p, ReleaseTarget(p, x, t), calls[1..])
      case DoProbe(t, fails) =>
        match ProbeTarget(p, x, t, fails) case None => None case Some(y) => Run(p, y, calls[1..])
  }

  /** Nothing probed yet. */
  ghost predicate Fresh(p: Shape, x: State) {
    Fits(p, x) && x.log == [] && forall i :: 0 <= i < |x.st| ==> x.st[i] != Enabled && x.st[i] != Released
  }

  lemma {:induction false} InvFits(p: Shape, x: State)
    requires Inv(p, x)
    ensures Fits(p, x)
  {
  }

  /** Every enabled or released target that has a probe hook has run it, and every released one its release hook. */
  ghost predicate AllRan(p: Shape, x: State)
    requires Fits(p, x)
  {
    forall i :: 0 <= i < |x.st| ==>
      && (p.hasProbe[i] && (x.st[i] == Enabled || x.st[i] == Released) ==> HookRan(x.log, i, true))
      && (p.hasRelease[i] && x.st[i] == Released ==> HookRan(x.log, i, false))
  }

  lemma {:induction false} AllRanStep(p: Shape, x: State, y: State, probe: bool)
    requires Fits(p, x) && Fits(p, y) && AllRan(p, x) && HooksRun(p, x, y, probe) && AllLater(x.st, y.st)
    ensures AllRan(p, y)
  {
    hide HookRan, Sound;
    SoundParts(p);
    var a, b := x.log, y.log[|x.log|..];
    assert y.log == a + b;
    forall i | 0 <= i < |x.st|
      ensures p.hasProbe[i] && (y.st[i] == Enabled || y.st[i] == Released) ==> HookRan(y.log, i, true)
      ensures p.hasRelease[i] && y.st[i] == Released ==> HookRan(y.log, i, false)
    {
      if HookRan(a, i, true) || HookRan(b, i, true) { HookRanMore(a, b, i, true); }
      if HookRan(a, i, false) || HookRan(b, i, false) { HookRanMore(a, b, i, false); }
    }
  }

  lemma {:induction false} RunRan(p: Shape, x: State, calls: seq<Call>)
    requires Inv(p, x) && forall c :: c in calls ==> c.target < |x.st| && (c.DoProbe? ==> |c.fails| == |x.st|)
    requires Run(p, x, calls).Some? && AllRan(p, x)
    ensures Inv(p, Run(p, x, calls).value) && AllRan(p, Run(p, x, calls).value)
    decreases |calls|
  {
    hide Inv, ProbeTarget, ReleaseTarget, AllRan, HooksRun, AllLater;
    if calls != [] {
      InvFits(p, x);
      match calls[0] {
        case DoRelease(t) =>
          var y := ReleaseTarget(p, x, t);
          ReleaseKeeps(p, x, t);
          InvFits(p, y);
          ReleaseLogs(p, x, t);
          OnlyLater(x.st, y.st);
          AllRanStep(p, x, y, false);
          RunRan(p, y, calls[1..]);
        case DoProbe(t, fails) =>
          var y := ProbeTarget(p, x, t, fails).value;
          ProbeKeeps(p, x, t, fails);
          InvFits(p, y);
          ProbeLogs(p, x, t, fails);
          AllRanStep(p, x, y, true);
          RunRan(p, y, calls[1..]);
      }
    }
  }

  lemma {:induction false} OnlyLater(a: seq<Status>, b: seq<Status>)
    requires OnlyReleases(a, b)
    ensures AllLater(a, b)
  {
  }

  /**
   After every run of returning calls: an enabled target has enabled ancestors only, no hook has run twice, probe
   hooks ran below enabled ancestors, release hooks ran when nothing below was enabled any more, and every target that
   is enabled or has been released has run the hooks it has.
   */
  lemma {:induction false} RunsAreSafe(p: Shape, x: State, calls: seq<Call>, i: int, a: int)
    requires Fresh(p, x) && forall c :: c in calls ==> c.target < |x.st| && (c.DoProbe? ==> |c.fails| == |x.st|)
    requires Run(p, x, calls).Some?
    ensures var y := Run(p, x, calls).value;
      && Inv(p, y) && AllRan(p, y)
      && (0 <= i < |y.st| && 0 <= a < |y.st| && Under(p, a, i) && y.st[i] == Enabled ==> y.st[a] == Enabled)
  {
    hide Run, HookRan;
    RunRan(p, x, calls);
    var y := Run(p, x, calls).value;
    if 0 <= i < |y.st| && 0 <= a < |y.st| && Under(p, a, i) && y.st[i] == Enabled { AncestorsEnabled(p, y.st, a, i); }
  }

  // ---------- When a probe does not return ----------

  predicate Undecided(s: Status) {
    s == Unknown || s == MustExist
  }

  /** The first target at or above `t` that has been decided, or a negative number. */
  ghost function Anchor(p: Shape, st: seq<Status>, t: int): (a: int)
    requires Sound(p) && |st| == |p.par| && t < |st|
    ensures a <= t && (a >= 0 ==> !Undecided(st[a]))
    decreases t
  {
    if t < 0 || !Undecided(st[t]) then t else Anchor(p, st, p.par[t])
  }

  /** Some target from `t` up to below the anchor has a hook that finds nothing. */
  ghost predicate Lost(p: Shape, st: seq<Status>, t: int, fails: seq<bool>)
    requires Sound(p) && |fails| == |st| == |p.par| && t < |st|
    decreases t
  {
    t >= 0 && Undecided(st[t]) && ((p.hasProbe[t] && fails[t]) || Lost(p, st, p.par[t], fails))
  }

  /** The topmost such target was marked as one that must exist. */
  ghost predicate MustLost(p: Shape, st: seq<Status>, t: int, fails: seq<bool>)
    requires Sound(p) && |fails| == |st| == |p.par| && t < |st|
    decreases t
  {
    && t >= 0 && Undecided(st[t])
    && if Lost(p, st, p.par[t], fails) then MustLost(p, st, p.par[t], fails)
       else p.hasProbe[t] && fails[t] && st[t] == MustExist
  }

  /** What a caller can look up before probing `t`. */
  ghost predicate Stuck(p: Shape, st: seq<Status>, t: int, fails: seq<bool>)
    requires Sound(p) && |fails| == |st| == |p.par| && 0 <= t < |st|
  {
    var a := Anchor(p, st, t);
    if a < 0 then MustLost(p, st, t, fails)
    else match st[a]
         case Released => true
         case Disabled => a != t && (p.par[t] != a || st[t] == MustExist)
         case Enabled => MustLost(p, st, t, fails)
         case _ => false
  }

  /** The status that a returning probe leaves. */
  ghost function After(p: Shape, st: seq<Status>, t: int, fails: seq<bool>): Status
    requires Sound(p) && |fails| == |st| == |p.par| && 0 <= t < |st|
  {
    var a := Anchor(p, st, t);
    if a == t || (a >= 0 && st[a] == Disabled) then st[t]
    else if a >= 0 && st[a] == NonExistent then NonExistent
    else if Lost(p, st, t, fails) then NonExistent else Enabled
  }

  /**
   A probe fails an assertion exactly when the nearest decided target above is released, or is disabled and not the
   parent of an ordinary target, or the topmost hook that finds nothing is that of a target that must exist.
   */
  lemma {:induction false} ProbeStuck(p: Shape, x: State, t: nat, fails: seq<bool>)
    requires Fits(p, x) && t < |x.st| == |fails|
    ensures ProbeTarget(p, x, t, fails).None? <==> Stuck(p, x.st, t, fails)
    ensures ProbeTarget(p, x, t, fails).Some? ==>
      && ProbeTarget(p, x, t, fails).value.st[t] == After(p, x.st, t, fails)
      && forall i :: t < i < |x.st| ==> ProbeTarget(p, x, t, fails).value.st[i] == x.st[i]
    decreases t
  {
    LostDecided(p, x.st, t, fails);
    if Undecided(x.st[t]) && p.par[t] >= 0 {
      var up := p.par[t];
      ProbeStuck(p, x, up, fails);
      LostDecided(p, x.st, up, fails);
      assert Anchor(p, x.st, t) == Anchor(p, x.st, up);
      if !Stuck(p, x.st, up, fails) {
        var y := ProbeTarget(p, x, up, fails).value;
        assert y.st[up] == After(p, x.st, up, fails) && y.st[t] == x.st[t];
      }
    } else if Undecided(x.st[t]) {
      assert !Lost(p, x.st, p.par[t], fails) && Anchor(p, x.st, t) == p.par[t];
    }
  }

  /**
   A returning probe gives the target and every ancestor up to the nearest decided one the status that a probe of it
   gives, and changes no other target.
   */
  lemma {:induction false} ProbeExact(p: Shape, x: State, t: nat, fails: seq<bool>)
    requires Fits(p, x) && t < |x.st| == |fails| && ProbeTarget(p, x, t, fails).Some?
    ensures forall i :: 0 <= i < |x.st| ==>
      ProbeTarget(p, x, t, fails).value.st[i] ==
        if (i == t || Under(p, i, t)) && i >= Anchor(p, x.st, t) then After(p, x.st, i, fails) else x.st[i]
    decreases t
  {
    hide Stuck, Lost, After, RunHook;
    ProbeStuck(p, x, t, fails);
    if !Undecided(x.st[t]) {
      AfterDecided(p, x.st, t, fails);
      forall i | Under(p, i, t) ensures i < t { AncestorBefore(p, i, t); }
    } else if p.par[t] < 0 {
      HookFrame(p, x, t, fails);
    } else {
      var up := p.par[t];
      ProbeExact(p, x, up, fails);
      var y := ProbeTarget(p, x, up, fails).value;
      if y.st[up] == Enabled { HookFrame(p, y, t, fails); }
    }
  }

  lemma {:induction false} AncestorBefore(p: Shape, a: int, j: int)
    requires Sound(p) && Under(p, a, j)
    ensures a < j
    decreases j
  {
    if p.par[j] != a { AncestorBefore(p, a, p.par[j]); }
  }

  lemma {:induction false} AfterDecided(p: Shape, st: seq<Status>, t: nat, fails: seq<bool>)
    requires Sound(p) && |fails| == |st| == |p.par| && t < |st| && !Undecided(st[t])
    ensures Anchor(p, st, t) == t && After(p, st, t, fails) == st[t]
  {
  }

  lemma {:induction false} LostDecided(p: Shape, st: seq<Status>, t: int, fails: seq<bool>)
    requires Sound(p) && |fails| == |st| == |p.par| && t < |st|
    ensures t >= 0 && !Undecided(st[t]) ==>
      !Lost(p, st, t, fails) && !MustLost(p, st, t, fails) && Anchor(p, st, t) == t
    ensures MustLost(p, st, t, fails) ==> Lost(p, st, t, fails)
    decreases t
  {
    if t >= 0 && Undecided(st[t]) { LostDecided(p, st, p.par[t], fails); }
  }

  // ---------- The target tree in memory ----------

  class Targets {
    const p: Shape
    var status: seq<Status>
    ghost var log: seq<Event>

    ghost predicate Valid()
      reads this
    {
      Fits(p, State(status, log))
    }

    constructor (p: Shape, status: seq<Status>)
      requires Sound(p) && |status| == |p.par|
      ensures Valid() && this.p == p && this.status == status && log == []
    {
      this.p := p;
      this.status := status;
      log := [];
    }

    /** pdbg_target_probe; `ok` is false when an assertion of the source fails. */
    method Probe(t: nat, fails: seq<bool>) returns (ok: bool, r: Status)
      requires Valid() && t < |status| == |fails|
      modifies this
      ensures Valid() && |status| == |old(status)|
      ensures var x := old(State(status, log));
        ok <==> ProbeTarget(p, x, t, fails).Some?
      ensures ok ==> Some(State(status, log)) == ProbeTarget(p, old(State(status, log)), t, fails) && r == status[t]
      ensures ok ==> HooksRun(p, old(State(status, log)), State(status, log), true)
      decreases t
    {
      hide HooksRun;
      if ProbeTarget(p, State(status, log), t, fails).Some? { ProbeLogs(p, State(status, log), t, fails); }
      r := status[t];
      if r == Released { return false, r; }
      if r == Disabled || r == NonExistent || r == Enabled { return true, r; }
      var parent := p.par[t];
      if parent >= 0 {
        var up;
        ok, up := Probe(parent, fails);
        if !ok { return; }
        match status[parent] {
          case NonExistent =>
            status := status[t := NonExistent];
            return true, NonExistent;
          case Disabled => return status[t] != MustExist, status[t];
          case Enabled =>
          case Released => return false, r;
          case MustExist => return false, r;
          case Unknown => return false, r;
        }
      }
      if p.hasProbe[t] {
        log := log + [ProbeHook(t, status)];
        if fails[t] {
          if status[t] == MustExist { return false, MustExist; }
          status := status[t := NonExistent];
          return true, NonExistent;
        }
      }
      status := status[t := Enabled];
      return true, Enabled;
    }

    /** pdbg_target_release. */
    method Release(t: nat)
      requires Valid() && t < |status|
      modifies this
      ensures Valid() && State(status, log) == ReleaseTarget(p, old(State(status, log)), t)
      ensures HooksRun(p, old(State(status, log)), State(status, log), false)
      decreases |p.par| - t, 0
    {
      hide HooksRun;
      ReleaseLogs(p, State(status, log), t);
      if status[t] != Enabled { return; }
      var k := 0;
      while k < |p.kids[t]|
        invariant Valid() && 0 <= k <= |p.kids[t]| && |status| == |old(status)|
        invariant ReleaseKids(p, State(status, log), t, k) == ReleaseKids(p, old(State(status, log)), t, 0)
        decreases |p.kids[t]| - k
      {
        Release(p.kids[t][k]);
        k := k + 1;
      }
      if p.hasRelease[t] { log := log + [ReleaseHook(t, status)]; }
      status := status[t := Released];
    }
  }
}
