/**
 The process supervisor of one application: how the configured cluster bounds are read, and the tick
 loop that keeps enough instances running and scales their number with the load.

 A run is any sequence of ticks.  Between the phases of a tick instances may die, or be asked to
 terminate by the health monitor, and every attempt to start one may fail.
 */
module Autoscaler {
  import opened Common

  datatype Result<+T> = Ok(value: T) | Error

  // ----- configuration -----------------------------------------------------------------------

  /** A cluster bound as configured: nothing, a share of the CPUs in percent, or a number. */
  datatype Spec = Unset | Percent(n: int) | Number(n: int) | Malformed

  /** Division of the source language: it truncates towards zero. */
  function TruncDiv(a: int, b: int): int
    requires 0 < b
  {
    if a < 0 then -(-a / b) else a / b
  }

  /** `upscale` and `downscale` are the thresholds of the CPU usage. */
  datatype Config = Config(clusterN: int, clusterMin: int, autoScale: bool, streak: int, slowStart: bool,
                           upscale: real, downscale: real)

  predicate ConfigOk(c: Config) {
    && 1 <= c.clusterMin <= c.clusterN
    && (!c.autoScale ==> c.clusterMin == c.clusterN)
    && (c.autoScale ==> 2 <= c.clusterN && 1 <= c.streak && 0.0 < c.upscale && c.downscale != 0.0)
  }

  /** Resolves one bound; at least one instance is always meant. */
  method ResolveSpec(spec: Spec, cpus: nat) returns (n: Result<int>)
    ensures n == Error <==> spec == Malformed
    ensures n.Ok? ==> 1 <= n.value
    ensures spec.Number? && 1 <= spec.n ==> n == Ok(spec.n)
    ensures spec.Percent? && 100 <= spec.n * cpus ==>
      n.Ok? && 100 * n.value <= spec.n * cpus < 100 * (n.value + 1)
    ensures spec.Unset? || (spec.Number? && spec.n < 1) || (spec.Percent? && spec.n * cpus < 100) ==> n == Ok(1)
  {
    var v;
    match spec {
      case Unset => v := 1;
      case Percent(k) => v := TruncDiv(k * cpus, 100);
      case Number(k) => v := k;
      case Malformed => return Error;
    }
    n := Ok(if v < 1 then 1 else v);
  }

  /** Every accepted configuration has sane bounds, and keeps the configured ones when it can. */
  method Prepare(cluster: Spec, clusterMin: Spec, cpus: nat, autoScale: bool, streak: int, slowStart: bool,
                 upscale: real, downscale: real)
    returns (r: Result<Config>)
    ensures r == Error <==> cluster == Malformed || clusterMin == Malformed
    ensures r.Ok? ==> ConfigOk(r.value) && r.value.slowStart == slowStart
    ensures r.Ok? ==> (r.value.autoScale <==> autoScale && 2 <= r.value.clusterN)
    ensures r.Ok? && r.value.autoScale ==> r.value.streak == if streak <= 0 then 30 else streak
    ensures r.Ok? && r.value.autoScale ==> r.value.upscale == if upscale <= 0.0 then 0.8 else upscale
    ensures r.Ok? && r.value.autoScale ==> r.value.downscale == if downscale == 0.0 then 0.02 else downscale
    ensures r.Ok? && cluster.Number? && clusterMin.Number? && 1 <= clusterMin.n <= cluster.n ==>
      r.value.clusterN == cluster.n && (r.value.autoScale ==> r.value.clusterMin == clusterMin.n)
  {
    var n := ResolveSpec(cluster, cpus);
    if n.Error? {
      return Error;
    }
    var m := ResolveSpec(clusterMin, cpus);
    if m.Error? {
      return Error;
    }
    var hi, lo, scale, streak' := n.value, m.value, autoScale, streak;
    var upscale', downscale' := upscale, downscale;
    if hi < lo {
      hi := lo;
    }
    if scale {
      if hi == 1 {
        scale := false;
      } else {
        if streak' <= 0 {
          streak' := 30;
        }
        if upscale' <= 0.0 {
          upscale' := 0.8;
        }
        if downscale' == 0.0 {
          downscale' := 0.02;
        }
      }
    } else {
      lo := hi;
    }
    r := Ok(Config(hi, lo, scale, streak', slowStart, upscale', downscale'));
  }

  // ----- instances ---------------------------------------------------------------------------

  type Share = x: real | 0.0 <= x

  /** What a tick sees of an instance: it is too young to look at, or this much of a CPU is in use. */
  datatype Usage = Young | Usage(share: Share)

  /** What the tick makes of it: too young, over the upper threshold, under the lower one, or neither. */
  datatype Reading = Recent | Over | Under | Between

  /** A negative lower threshold means that no usage counts as low. */
  function Judge(c: Config, u: Usage): Reading {
    match u
    case Young => Recent
    case Usage(x) => if x > c.upscale then Over else if x < c.downscale && c.downscale >= 0.0 then Under else Between
  }

  function Judged(c: Config, usage: map<nat, Usage>): map<nat, Reading> {
    map i | i in usage :: Judge(c, usage[i])
  }

  /** `readings` is every reading taken of the instance. */
  datatype Proc = Proc(id: nat, dead: bool, terminating: bool, downTicks: int, readings: seq<Reading>)

  predicate IsActive(p: Proc) {
    !p.dead && !p.terminating
  }

  function Active(ps: seq<Proc>): (n: nat)
    ensures n <= |ps|
  {
    if ps == [] then 0 else Active(ps[..|ps| - 1]) + (if IsActive(ps[|ps| - 1]) then 1 else 0)
  }

  /** The 32-bit counter of a process wraps around. */
  function Wrap32(x: int): int {
    (x + 0x8000_0000) % 0x1_0000_0000 - 0x8000_0000
  }

  function TrailingUnder(rs: seq<Reading>): (n: nat)
    ensures n <= |rs|
  {
    if rs == [] || rs[|rs| - 1] != Under then 0 else 1 + TrailingUnder(rs[..|rs| - 1])
  }

  // ----- the phases of a tick, as functions ----------------------------------------------------

  datatype Spawn = NotStarted | Started | StartedThenDied

  /** What happens outside the loop between two phases. */
  datatype Disturbance = Disturbance(died: set<nat>, terminated: set<nat>)

  const CALM := Disturbance({}, {})

  datatype Input = Input(
    first: Spawn, fill: seq<Spawn>, extra: Spawn,
    overMemory: set<nat>, usage: map<nat, Usage>,
    before: Disturbance, beforeMemory: Disturbance, beforeFill: Disturbance, beforeRead: Disturbance,
    beforeScale: Disturbance)

  datatype Server = Server(processes: seq<Proc>, upTicks: nat, nextId: nat)

  function DisturbProc(p: Proc, d: Disturbance): Proc {
    p.(dead := p.dead || p.id in d.died, terminating := p.terminating || p.id in d.terminated)
  }

  function Disturb(ps: seq<Proc>, d: Disturbance): seq<Proc> {
    seq(|ps|, i requires 0 <= i < |ps| => DisturbProc(ps[i], d))
  }

  /** Terminating a dead instance is a no-op. */
  function Terminate(p: Proc): Proc {
    if p.dead then p else p.(terminating := true)
  }

  function Alive(ps: seq<Proc>): (r: seq<Proc>)
    ensures forall i :: 0 <= i < |r| ==> !r[i].dead
    ensures |r| <= |ps|
  {
    if ps == [] then []
    else Alive(ps[..|ps| - 1]) + (if ps[|ps| - 1].dead then [] else [ps[|ps| - 1]])
  }

  function Fresh(s: Server, dead: bool): Proc {
    Proc(s.nextId, dead, false, 0, [])
  }

  function SpawnStep(s: Server, o: Spawn): Server {
    if o.NotStarted? then s
    else s.(processes := s.processes + [Fresh(s, o.StartedThenDied?)], nextId := s.nextId + 1)
  }

  function MemoryPhase(ps: seq<Proc>, over: set<nat>): seq<Proc> {
    seq(|ps|, i requires 0 <= i < |ps| => if ps[i].id in over then Terminate(ps[i]) else ps[i])
  }

  /** Starts up to `missing` instances, stopping at the first failure; a slow start makes one and
      ends the tick. */
  function Fill(s: Server, missing: nat, outcomes: seq<Spawn>, slow: bool): (Server, bool)
    decreases missing
  {
    if missing == 0 || outcomes == [] then (s, false)
    else
      var s' := SpawnStep(s, outcomes[0]);
      if !outcomes[0].Started? then (s', false)
      else if slow then (s', true)
      else Fill(s', missing - 1, outcomes[1..], slow)
  }

  function ReadingOf(p: Proc, readings: map<nat, Reading>): Reading {
    if p.id in readings then readings[p.id] else Recent
  }

  function ReadProc(p: Proc, r: Reading): Proc {
    if p.terminating then p
    else
      match r
      case Recent => p
      case Under => p.(downTicks := Wrap32(p.downTicks + 1), readings := p.readings + [r])
      case _ => p.(downTicks := 0, readings := p.readings + [r])
  }

  /** The first `n` processes are the ones the tick listed. */
  function ReadPhase(ps: seq<Proc>, n: nat, readings: map<nat, Reading>): seq<Proc> {
    seq(|ps|, i requires 0 <= i < |ps| => if i < n then ReadProc(ps[i], ReadingOf(ps[i], readings)) else ps[i])
  }

  function Tally(ps: seq<Proc>, n: nat, readings: map<nat, Reading>, r: Reading): (k: nat)
    requires n <= |ps|
    ensures k <= n
  {
    if n == 0 then 0
    else
      Tally(ps, n - 1, readings, r)
      + (if !ps[n - 1].terminating && ReadingOf(ps[n - 1], readings) == r then 1 else 0)
  }

  predicate Candidate(p: Proc, streak: int) {
    !p.terminating && Wrap32(streak) <= p.downTicks
  }

  function FirstCandidate(ps: seq<Proc>, n: nat, streak: int): (i: nat)
    requires n <= |ps|
    ensures i <= n
    ensures i < n ==> Candidate(ps[i], streak)
    ensures forall j :: 0 <= j < i ==> !Candidate(ps[j], streak)
    decreases n
  {
    if n == 0 then 0
    else
      var i := FirstCandidate(ps, n - 1, streak);
      if i < n - 1 || Candidate(ps[n - 1], streak) then i else n
  }

  function Downscale(ps: seq<Proc>, n: nat, streak: int): seq<Proc>
    requires n <= |ps|
  {
    var i := FirstCandidate(ps, n, streak);
    if i < n then ps[i := Terminate(ps[i])] else ps
  }

  /** The scaling decision: `n` instances were listed, of which `up`, `down` and `neutral` were counted. */
  function ScalePhase(c: Config, s: Server, n: nat, up: nat, down: nat, neutral: nat, input: Input): Server
    requires n <= |s.processes|
  {
    var upTicks := if down == 0 && up > neutral then s.upTicks + 1 else 0;
    var total := up + down + neutral;
    var ps := Disturb(s.processes, input.beforeScale);
    if upTicks >= c.streak && total < c.clusterN then
      SpawnStep(s.(processes := ps, upTicks := upTicks), input.extra)
    else if total > c.clusterMin && down > neutral && up == 0 then
      s.(processes := Downscale(ps, n, c.streak), upTicks := upTicks)
    else
      s.(processes := ps, upTicks := upTicks)
  }

  function Readings(c: Config, input: Input): map<nat, Reading> {
    Judged(c, input.usage)
  }

  function AutoScalePhase(c: Config, s: Server, n: nat, input: Input): Server
    requires n <= |s.processes|
  {
    var ps := Disturb(s.processes, input.beforeRead);
    ScalePhase(c, s.(processes := ReadPhase(ps, n, Readings(c, input))), n,
               Tally(ps, n, Readings(c, input), Over),
               Tally(ps, n, Readings(c, input), Under),
               Tally(ps, n, Readings(c, input), Recent) + Tally(ps, n, Readings(c, input), Between), input)
  }

  predicate AnyRunning(ps: seq<Proc>) {
    exists i :: 0 <= i < |ps| && !ps[i].terminating
  }

  function Missing(c: Config, n: nat): nat {
    if n < c.clusterMin then c.clusterMin - n else 0
  }

  /** The phases before the scaling decision only terminate instances and fill up to the minimum. */
  function Checked(ps: seq<Proc>, input: Input): seq<Proc> {
    Disturb(MemoryPhase(Disturb(ps, input.beforeMemory), input.overMemory), input.beforeFill)
  }

  function Filled(c: Config, s: Server, n: nat, input: Input): (r: (Server, bool))
    requires n <= |s.processes|
    ensures n <= |r.0.processes|
  {
    FillGrows(s, Missing(c, n), input.fill, c.slowStart);
    Fill(s, Missing(c, n), input.fill, c.slowStart)
  }

  function ListedTick(c: Config, s: Server, input: Input): Server {
    var n := |s.processes|;
    if !AnyRunning(s.processes) then
      if n != 0 then s else SpawnStep(s, input.first)
    else
      var (s', ended) := Filled(c, s.(processes := Checked(s.processes, input)), n, input);
      if ended || !c.autoScale then s' else AutoScalePhase(c, s', n, input)
  }

  function Tick(c: Config, s: Server, input: Input): Server {
    ListedTick(c, s.(processes := Alive(Disturb(s.processes, input.before))), input)
  }

  /** `init` starts the first instance before the loop runs. */
  function Run(c: Config, inputs: seq<Input>): Server {
    if inputs == [] then SpawnStep(Server([], 0, 0), Started)
    else Tick(c, Run(c, inputs[..|inputs| - 1]), inputs[|inputs| - 1])
  }

  lemma {:induction false} FillGrows(s: Server, missing: nat, outcomes: seq<Spawn>, slow: bool)
    ensures
      var (s', ended) := Fill(s, missing, outcomes, slow);
      && |s.processes| <= |s'.processes| <= |s.processes| + missing
      && s'.processes[..|s.processes|] == s.processes
      && s'.upTicks == s.upTicks
      && (slow ==> |s'.processes| <= |s.processes| + 1)
      && (ended ==> slow)
    decreases missing
  {
    if 0 < missing && outcomes != [] && outcomes[0].Started? && !slow {
      FillGrows(SpawnStep(s, outcomes[0]), missing - 1, outcomes[1..], slow);
    }
  }

  lemma {:induction false} FillActive(s: Server, missing: nat, outcomes: seq<Spawn>, slow: bool)
    ensures
      var (s', ended) := Fill(s, missing, outcomes, slow);
      && Active(s'.processes) <= Active(s.processes) + missing
      && (slow && !ended ==> Active(s'.processes) <= Active(s.processes))
    decreases missing
  {
    if 0 < missing && outcomes != [] {
      SpawnActive(s, outcomes[0]);
      if outcomes[0].Started? && !slow {
        FillActive(SpawnStep(s, outcomes[0]), missing - 1, outcomes[1..], slow);
      }
    }
  }

  // ----- how many instances are active -------------------------------------------------------

  /** What a run of ticks can reach: the loop may start one instance more than it counted missing. */
  function Bound(c: Config): int {
    if c.autoScale && !c.slowStart && c.clusterN <= c.clusterMin then c.clusterMin + 1 else c.clusterN
  }

  lemma {:induction false} ActivePointwise(ps: seq<Proc>, qs: seq<Proc>)
    requires |ps| == |qs|
    requires forall i :: 0 <= i < |ps| && IsActive(qs[i]) ==> IsActive(ps[i])
    ensures Active(qs) <= Active(ps)
  {
    if ps == [] {
    } else {
      ActivePointwise(ps[..|ps| - 1], qs[..|qs| - 1]);
    }
  }

  lemma {:induction false} ActiveSplit(ps: seq<Proc>, n: nat)
    requires n <= |ps|
    ensures Active(ps[..n]) <= Active(ps) <= Active(ps[..n]) + |ps| - n
    decreases |ps| - n
  {
    if n == |ps| {
      assert ps[..n] == ps;
    } else {
      ActiveSplit(ps, n + 1);
      assert ps[..n + 1][..n] == ps[..n];
    }
  }

  lemma {:induction false} AliveKeepsActive(ps: seq<Proc>)
    ensures Active(Alive(ps)) == Active(ps)
  {
    if ps == [] {
    } else {
      AliveKeepsActive(ps[..|ps| - 1]);
      var last := ps[|ps| - 1];
      if !last.dead {
        assert Alive(ps)[..|Alive(ps)| - 1] == Alive(ps[..|ps| - 1]);
      } else {
        assert Alive(ps) == Alive(ps[..|ps| - 1]);
      }
    }
  }

  lemma SpawnActive(s: Server, o: Spawn)
    ensures Active(SpawnStep(s, o).processes) == Active(s.processes) + (if o.Started? then 1 else 0)
  {
  }

  /** The three counters add up to the listed instances that were not terminating. */
  lemma {:induction false} TallyCountsActive(ps: seq<Proc>, n: nat, readings: map<nat, Reading>)
    requires n <= |ps|
    ensures
      var total := Tally(ps, n, readings, Over) + Tally(ps, n, readings, Under)
                   + (Tally(ps, n, readings, Recent) + Tally(ps, n, readings, Between));
      && Active(ps[..n]) <= total
      && ((forall i :: 0 <= i < n ==> !ps[i].dead) ==> Active(ps[..n]) == total)
  {
    if n == 0 {
    } else {
      TallyCountsActive(ps, n - 1, readings);
      assert ps[..n][..n - 1] == ps[..n - 1];
      assert ps[..n][n - 1] == ps[n - 1];
    }
  }

  lemma DownscaleActive(ps: seq<Proc>, n: nat, streak: int)
    requires n <= |ps|
    ensures |Downscale(ps, n, streak)| == |ps|
    ensures Active(Downscale(ps, n, streak)) <= Active(ps) <= Active(Downscale(ps, n, streak)) + 1
  {
    var i := FirstCandidate(ps, n, streak);
    if i < n {
      UpdateActive(ps, i, Terminate(ps[i]));
    }
  }

  lemma {:induction false} UpdateActive(ps: seq<Proc>, i: nat, p: Proc)
    requires i < |ps| && (IsActive(p) ==> IsActive(ps[i]))
    ensures Active(ps[i := p]) <= Active(ps) <= Active(ps[i := p]) + 1
  {
    var last := |ps| - 1;
    if i == last {
      assert ps[i := p][..last] == ps[..last];
    } else {
      UpdateActive(ps[..last], i, p);
      assert ps[i := p][..last] == ps[..last][i := p];
    }
  }

  lemma ScaleBound(c: Config, s: Server, n: nat, up: nat, down: nat, neutral: nat, input: Input)
    requires ConfigOk(c) && n <= |s.processes|
    ensures
      var after := Active(ScalePhase(c, s, n, up, down, neutral, input).processes);
      after <= Active(s.processes) + (if up + down + neutral < c.clusterN then 1 else 0)
  {
    var ps := Disturb(s.processes, input.beforeScale);
    ActivePointwise(s.processes, ps);
    SpawnActive(s.(processes := ps), input.extra);
    DownscaleActive(ps, n, c.streak);
  }

  lemma ListedBound(c: Config, n: nat, total: nat, active: nat, before: nat, after: nat)
    requires ConfigOk(c) && active <= before
    requires n < c.clusterMin ==> before <= if c.slowStart then n else c.clusterMin
    requires c.clusterMin <= n ==> active <= total
    requires after <= active + (if c.autoScale && total < c.clusterN then 1 else 0)
    ensures after <= if before < Bound(c) then Bound(c) else before
  {
  }

  lemma AutoScaleBound(c: Config, s: Server, n: nat, input: Input)
    requires ConfigOk(c) && c.autoScale && n <= |s.processes|
    requires n < c.clusterMin ==> Active(s.processes) <= if c.slowStart then n else c.clusterMin
    requires c.clusterMin <= n ==> |s.processes| == n
    ensures Active(AutoScalePhase(c, s, n, input).processes)
            <= if Active(s.processes) < Bound(c) then Bound(c) else Active(s.processes)
  {
    hide Disturb, ReadPhase, Tally, Active, Bound, ScalePhase;
    var ps := Disturb(s.processes, input.beforeRead);
    var qs := ReadPhase(ps, n, Readings(c, input));
    ReadActive(c, s.processes, n, input);
    var up, down := Tally(ps, n, Readings(c, input), Over), Tally(ps, n, Readings(c, input), Under);
    var neutral := Tally(ps, n, Readings(c, input), Recent) + Tally(ps, n, Readings(c, input), Between);
    CountsActive(c, s.processes, n, input);
    ScaleBound(c, s.(processes := qs), n, up, down, neutral, input);
    ListedBound(c, n, up + down + neutral, Active(qs), Active(s.processes),
                Active(AutoScalePhase(c, s, n, input).processes));
  }

  lemma ReadActive(c: Config, ps: seq<Proc>, n: nat, input: Input)
    requires n <= |ps|
    ensures |Disturb(ps, input.beforeRead)| == |ReadPhase(Disturb(ps, input.beforeRead), n, Readings(c, input))| == |ps|
    ensures Active(ReadPhase(Disturb(ps, input.beforeRead), n, Readings(c, input)))
            <= Active(Disturb(ps, input.beforeRead)) <= Active(ps)
  {
    var qs := Disturb(ps, input.beforeRead);
    ActivePointwise(ps, qs);
    ActivePointwise(qs, ReadPhase(qs, n, Readings(c, input)));
  }

  lemma CountsActive(c: Config, ps: seq<Proc>, n: nat, input: Input)
    requires n <= |ps|
    ensures
      var qs := Disturb(ps, input.beforeRead);
      n == |ps| ==>
        Active(qs) <= Tally(qs, n, Readings(c, input), Over) + Tally(qs, n, Readings(c, input), Under)
                      + (Tally(qs, n, Readings(c, input), Recent) + Tally(qs, n, Readings(c, input), Between))
  {
    var qs := Disturb(ps, input.beforeRead);
    TallyCountsActive(qs, n, Readings(c, input));
    if n == |ps| {
      assert qs[..n] == qs;
    }
  }

  lemma CheckedActive(ps: seq<Proc>, input: Input)
    ensures Active(Checked(ps, input)) <= Active(ps)
  {
    var d := Disturb(ps, input.beforeMemory);
    ActivePointwise(ps, d);
    ActivePointwise(d, MemoryPhase(d, input.overMemory));
    ActivePointwise(MemoryPhase(d, input.overMemory), Checked(ps, input));
  }

  lemma ListedTickBound(c: Config, s: Server, input: Input)
    requires ConfigOk(c)
    ensures Active(ListedTick(c, s, input).processes)
            <= if Active(s.processes) < Bound(c) then Bound(c) else Active(s.processes)
  {
    var n := |s.processes|;
    if !AnyRunning(s.processes) {
      SpawnActive(s, input.first);
    } else {
      CheckedActive(s.processes, input);
      var s2 := s.(processes := Checked(s.processes, input));
      FillActive(s2, Missing(c, n), input.fill, c.slowStart);
      var (s3, ended) := Filled(c, s2, n, input);
      if !ended && c.autoScale {
        AutoScaleBound(c, s3, n, input);
      }
    }
  }

  /** A tick never pushes the number of active instances above the bound. */
  lemma TickBound(c: Config, s: Server, input: Input)
    requires ConfigOk(c)
    ensures Active(Tick(c, s, input).processes)
            <= if Active(s.processes) < Bound(c) then Bound(c) else Active(s.processes)
  {
    var d := Disturb(s.processes, input.before);
    ActivePointwise(s.processes, d);
    AliveKeepsActive(d);
    ListedTickBound(c, s.(processes := Alive(d)), input);
  }

  /** Over every run of ticks, whatever dies and whatever fails to start, the active instances never
      exceed the bound. */
  lemma {:induction false} RunBound(c: Config, inputs: seq<Input>)
    requires ConfigOk(c)
    ensures Active(Run(c, inputs).processes) <= Bound(c)
  {
    if inputs == [] {
      SpawnActive(Server([], 0, 0), Started);
    } else {
      RunBound(c, inputs[..|inputs| - 1]);
      TickBound(c, Run(c, inputs[..|inputs| - 1]), inputs[|inputs| - 1]);
    }
  }

  lemma {:induction false} TallyPointwise(ps: seq<Proc>, qs: seq<Proc>, n: nat, readings: map<nat, Reading>, r: Reading)
    requires n <= |ps| && n <= |qs|
    requires forall i :: 0 <= i < n ==> qs[i].id == ps[i].id && (ps[i].terminating ==> qs[i].terminating)
    ensures Tally(qs, n, readings, r) <= Tally(ps, n, readings, r)
  {
    if n > 0 {
      TallyPointwise(ps, qs, n - 1, readings, r);
    }
  }

  /** The same instances, of which none that was terminating is so no more. */
  predicate Follows(qs: seq<Proc>, ps: seq<Proc>) {
    |ps| <= |qs|
    && forall i :: 0 <= i < |ps| ==> qs[i].id == ps[i].id && (ps[i].terminating ==> qs[i].terminating)
  }

  /** A tick counts no more instances than were active when it listed them. */
  lemma TallyFollows(listed: seq<Proc>, ps: seq<Proc>, n: nat, readings: map<nat, Reading>)
    requires |listed| == n && Follows(ps, listed) && forall i :: 0 <= i < n ==> !listed[i].dead
    ensures Tally(ps, n, readings, Over) + Tally(ps, n, readings, Under)
            + (Tally(ps, n, readings, Recent) + Tally(ps, n, readings, Between)) <= Active(listed)
  {
    assert listed[..n] == listed;
    TallyCountsActive(listed, n, readings);
    TallyPointwise(listed, ps, n, readings, Over);
    TallyPointwise(listed, ps, n, readings, Under);
    TallyPointwise(listed, ps, n, readings, Recent);
    TallyPointwise(listed, ps, n, readings, Between);
  }

  lemma CheckedFollows(c: Config, s: Server, input: Input)
    ensures
      var s2 := s.(processes := Checked(s.processes, input));
      var s3 := Filled(c, s2, |s.processes|, input).0;
      Follows(s3.processes, s.processes)
  {
    var s2 := s.(processes := Checked(s.processes, input));
    FillGrows(s2, Missing(c, |s.processes|), input.fill, c.slowStart);
    var s3 := Filled(c, s2, |s.processes|, input).0;
    forall i | 0 <= i < |s.processes| ensures s3.processes[i] == s2.processes[i] {
      assert s3.processes[..|s2.processes|][i] == s3.processes[i];
    }
  }

  // ----- the minimum is kept -------------------------------------------------------------------

  predicate DistinctIds(ps: seq<Proc>) {
    forall i, j :: 0 <= i < j < |ps| ==> ps[i].id != ps[j].id
  }

  predicate IdsBelow(ps: seq<Proc>, n: nat) {
    forall i :: 0 <= i < |ps| ==> ps[i].id < n
  }

  /** Every process has a number of its own. */
  predicate IdsOk(s: Server) {
    DistinctIds(s.processes) && IdsBelow(s.processes, s.nextId)
  }

  predicate SameIds(ps: seq<Proc>, qs: seq<Proc>) {
    |ps| == |qs| && forall i :: 0 <= i < |ps| ==> ps[i].id == qs[i].id
  }

  /** The instances that a list loses when each keeps its place are among `lost`. */
  lemma {:induction false} LossIsBounded(ps: seq<Proc>, qs: seq<Proc>, lost: set<nat>)
    requires SameIds(ps, qs) && DistinctIds(ps)
    requires forall i :: 0 <= i < |ps| && IsActive(ps[i]) && !IsActive(qs[i]) ==> ps[i].id in lost
    ensures Active(ps) <= Active(qs) + |lost|
  {
    if ps != [] {
      var last := |ps| - 1;
      if IsActive(ps[last]) && !IsActive(qs[last]) {
        LossIsBounded(ps[..last], qs[..last], lost - {ps[last].id});
      } else {
        LossIsBounded(ps[..last], qs[..last], lost);
      }
    }
  }

  /** How many instances a disturbance can take away. */
  function Hits(d: Disturbance): nat {
    |d.died| + |d.terminated|
  }

  lemma DisturbLoses(ps: seq<Proc>, d: Disturbance)
    requires DistinctIds(ps)
    ensures Active(ps) <= Active(Disturb(ps, d)) + Hits(d) && SameIds(ps, Disturb(ps, d))
  {
    LossIsBounded(ps, Disturb(ps, d), d.died + d.terminated);
    assert d.died + d.terminated == d.died + (d.terminated - d.died);
    SubsetIsSmaller(d.terminated - d.died, d.terminated);
  }

  lemma MemoryLoses(ps: seq<Proc>, over: set<nat>)
    requires DistinctIds(ps)
    ensures Active(ps) <= Active(MemoryPhase(ps, over)) + |over| && SameIds(ps, MemoryPhase(ps, over))
  {
    LossIsBounded(ps, MemoryPhase(ps, over), over);
  }

  /** What outside events and the memory limit can take away before the scaling decision, and during it. */
  function EarlyLosses(input: Input): nat {
    Hits(input.beforeMemory) + |input.overMemory| + Hits(input.beforeFill)
  }

  function LateLosses(input: Input): nat {
    Hits(input.beforeRead) + Hits(input.beforeScale)
  }

  function Losses(input: Input): nat {
    Hits(input.before) + EarlyLosses(input) + LateLosses(input)
  }

  lemma CheckedLoses(ps: seq<Proc>, input: Input)
    requires DistinctIds(ps)
    ensures Active(ps) <= Active(Checked(ps, input)) + EarlyLosses(input) && SameIds(ps, Checked(ps, input))
  {
    var d := Disturb(ps, input.beforeMemory);
    DisturbLoses(ps, input.beforeMemory);
    MemoryLoses(d, input.overMemory);
    DisturbLoses(MemoryPhase(d, input.overMemory), input.beforeFill);
  }

  /** A scaling decision takes away one instance at most, and only when it counted more than the minimum. */
  lemma ScaleLoses(c: Config, s: Server, n: nat, up: nat, down: nat, neutral: nat, input: Input)
    requires n <= |s.processes| && DistinctIds(s.processes)
    ensures
      var after := Active(ScalePhase(c, s, n, up, down, neutral, input).processes);
      after + Hits(input.beforeScale) + (if up + down + neutral > c.clusterMin then 1 else 0) >= Active(s.processes)
  {
    var ps := Disturb(s.processes, input.beforeScale);
    DisturbLoses(s.processes, input.beforeScale);
    SpawnActive(s.(processes := ps), input.extra);
    DownscaleActive(ps, n, c.streak);
  }

  /** The instances that a tick counts and that were active when it listed them: all of them, less those that
      died since. */
  lemma CountedAreActive(listed: seq<Proc>, ps: seq<Proc>, n: nat, readings: map<nat, Reading>, lost: nat)
    requires |listed| == n && Follows(ps, listed) && forall i :: 0 <= i < n ==> !listed[i].dead
    requires Active(listed) <= Active(ps) + lost
    ensures Tally(ps, n, readings, Over) + Tally(ps, n, readings, Under)
            + (Tally(ps, n, readings, Recent) + Tally(ps, n, readings, Between)) <= Active(ps) + lost
  {
    TallyFollows(listed, ps, n, readings);
  }

  /** The phases after the listing, against the list. */
  lemma AutoScaleLoses(c: Config, s: Server, listed: seq<Proc>, input: Input, lost: nat)
    requires DistinctIds(s.processes) && Follows(s.processes, listed)
    requires forall i :: 0 <= i < |listed| ==> !listed[i].dead
    requires Active(listed) <= Active(s.processes) + lost
    ensures
      var after := Active(AutoScalePhase(c, s, |listed|, input).processes) + lost + LateLosses(input);
      after >= Active(listed) || after >= c.clusterMin
  {
    hide Tally, Active, ScalePhase, Disturb, ReadPhase, Follows;
    var n := |listed|;
    var ps := Disturb(s.processes, input.beforeRead);
    DisturbLoses(s.processes, input.beforeRead);
    SameKeepsIds(s.processes, ps, 0);
    DisturbFollows(s.processes, input.beforeRead, listed);
    CountedAreActive(listed, ps, n, Readings(c, input), lost + Hits(input.beforeRead));
    var qs := ReadPhase(ps, n, Readings(c, input));
    ReadKeepsActive(ps, n, Readings(c, input));
    SameKeepsIds(ps, qs, 0);
    var readings := Readings(c, input);
    ScaleLoses(c, s.(processes := qs), n, Tally(ps, n, readings, Over), Tally(ps, n, readings, Under),
               Tally(ps, n, readings, Recent) + Tally(ps, n, readings, Between), input);
  }

  lemma DisturbFollows(ps: seq<Proc>, d: Disturbance, listed: seq<Proc>)
    requires Follows(ps, listed)
    ensures Follows(Disturb(ps, d), listed) && |listed| <= |ps| == |Disturb(ps, d)|
  {
  }

  lemma ReadKeepsActive(ps: seq<Proc>, n: nat, readings: map<nat, Reading>)
    requires n <= |ps|
    ensures Active(ps) <= Active(ReadPhase(ps, n, readings)) && SameIds(ps, ReadPhase(ps, n, readings))
  {
    hide ReadProc, IsActive, Active;
    forall i | 0 <= i < |ps|
      ensures ReadPhase(ps, n, readings)[i].id == ps[i].id
      ensures IsActive(ReadPhase(ps, n, readings)[i]) == IsActive(ps[i])
    {
      ReadingKeeps(ps[i], ReadingOf(ps[i], readings));
    }
    ActivePointwise(ReadPhase(ps, n, readings), ps);
  }

  lemma ReadingKeeps(p: Proc, r: Reading)
    ensures ReadProc(p, r).id == p.id && IsActive(ReadProc(p, r)) == IsActive(p)
  {
  }

  lemma {:induction false} FillKeepsIds(s: Server, missing: nat, outcomes: seq<Spawn>, slow: bool)
    requires IdsOk(s)
    ensures IdsOk(Fill(s, missing, outcomes, slow).0)
    ensures Active(s.processes) <= Active(Fill(s, missing, outcomes, slow).0.processes)
    decreases missing
  {
    hide DistinctIds, IdsBelow, Active;
    if missing > 0 && outcomes != [] {
      SpawnActive(s, outcomes[0]);
      SpawnKeepsIds(s, outcomes[0]);
      if outcomes[0].Started? && !slow {
        FillKeepsIds(SpawnStep(s, outcomes[0]), missing - 1, outcomes[1..], slow);
      }
    }
  }

  lemma SameKeepsIds(ps: seq<Proc>, qs: seq<Proc>, n: nat)
    requires SameIds(ps, qs)
    ensures DistinctIds(ps) ==> DistinctIds(qs)
    ensures IdsBelow(ps, n) ==> IdsBelow(qs, n)
  {
  }

  lemma {:induction false} AliveIn(ps: seq<Proc>)
    ensures forall i :: 0 <= i < |Alive(ps)| ==> Alive(ps)[i] in ps
  {
    if ps != [] {
      AliveIn(ps[..|ps| - 1]);
    }
  }

  lemma {:induction false} AliveKeepsIds(ps: seq<Proc>, n: nat)
    requires DistinctIds(ps) && IdsBelow(ps, n)
    ensures DistinctIds(Alive(ps)) && IdsBelow(Alive(ps), n)
  {
    if ps != [] {
      AliveKeepsIds(ps[..|ps| - 1], n);
      AliveIn(ps[..|ps| - 1]);
    }
  }

  lemma AutoScaleKeepsIds(c: Config, s: Server, n: nat, input: Input)
    requires n <= |s.processes| && IdsOk(s)
    ensures IdsOk(AutoScalePhase(c, s, n, input))
  {
    hide DistinctIds, IdsBelow, Downscale, AutoScalePhase;
    var ps := Disturb(s.processes, input.beforeRead);
    var qs := ReadPhase(ps, n, Readings(c, input));
    var rs := Disturb(qs, input.beforeScale);
    SameKeepsIds(s.processes, rs, s.nextId);
    DownscaleSameIds(rs, n, c.streak);
    SameKeepsIds(rs, Downscale(rs, n, c.streak), s.nextId);
    SpawnKeepsIds(s.(processes := rs), input.extra);
    AutoScaleCases(c, s, n, input);
  }

  lemma DownscaleSameIds(ps: seq<Proc>, n: nat, streak: int)
    requires n <= |ps|
    ensures SameIds(ps, Downscale(ps, n, streak))
  {
  }

  lemma SpawnKeepsIds(s: Server, o: Spawn)
    requires IdsOk(s)
    ensures IdsOk(SpawnStep(s, o))
  {
  }

  /** What the scaling decision makes of the list: nothing, one instance less, or one more. */
  lemma AutoScaleCases(c: Config, s: Server, n: nat, input: Input)
    requires n <= |s.processes|
    ensures
      var rs := Disturb(ReadPhase(Disturb(s.processes, input.beforeRead), n, Readings(c, input)), input.beforeScale);
      AutoScalePhase(c, s, n, input).(upTicks := s.upTicks)
      in {s.(processes := rs), s.(processes := Downscale(rs, n, c.streak)),
          SpawnStep(s.(processes := rs), input.extra)}
  {
  }

  lemma ListedKeepsIds(c: Config, s: Server, input: Input)
    requires IdsOk(s)
    ensures IdsOk(ListedTick(c, s, input))
  {
    hide AutoScalePhase, Checked;
    var n := |s.processes|;
    if AnyRunning(s.processes) {
      CheckedLoses(s.processes, input);
      SameKeepsIds(s.processes, Checked(s.processes, input), s.nextId);
      var s2 := s.(processes := Checked(s.processes, input));
      FillKeepsIds(s2, Missing(c, n), input.fill, c.slowStart);
      AutoScaleKeepsIds(c, Filled(c, s2, n, input).0, n, input);
    }
  }

  lemma {:induction false} RunKeepsIds(c: Config, inputs: seq<Input>)
    ensures IdsOk(Run(c, inputs))
  {
    if inputs != [] {
      hide ListedTick;
      var s, input := Run(c, inputs[..|inputs| - 1]), inputs[|inputs| - 1];
      RunKeepsIds(c, inputs[..|inputs| - 1]);
      SameKeepsIds(s.processes, Disturb(s.processes, input.before), s.nextId);
      AliveKeepsIds(Disturb(s.processes, input.before), s.nextId);
      ListedKeepsIds(c, s.(processes := Alive(Disturb(s.processes, input.before))), input);
    }
  }

  lemma ListedLoses(c: Config, s: Server, input: Input)
    requires IdsOk(s) && forall i :: 0 <= i < |s.processes| ==> !s.processes[i].dead
    ensures
      var after := Active(ListedTick(c, s, input).processes) + EarlyLosses(input) + LateLosses(input);
      after >= Active(s.processes) || after >= c.clusterMin
  {
    hide AutoScalePhase, Checked, Active;
    var n := |s.processes|;
    SpawnActive(s, input.first);
    if AnyRunning(s.processes) {
      CheckedLoses(s.processes, input);
      SameKeepsIds(s.processes, Checked(s.processes, input), s.nextId);
      var s2 := s.(processes := Checked(s.processes, input));
      FillKeepsIds(s2, Missing(c, n), input.fill, c.slowStart);
      CheckedFollows(c, s, input);
      AutoScaleLoses(c, Filled(c, s2, n, input).0, s.processes, input, EarlyLosses(input));
    }
  }

  /** In a tick the active instances do not fall below what they were or the configured minimum, whichever is
      less, except by instances that die or are asked from outside, or for their memory, to terminate during
      the tick. */
  lemma TickKeepsMinimum(c: Config, s: Server, input: Input)
    requires IdsOk(s)
    ensures
      var after := Active(Tick(c, s, input).processes) + Losses(input);
      after >= Active(s.processes) || after >= c.clusterMin
  {
    hide ListedTick;
    var ps := Disturb(s.processes, input.before);
    DisturbLoses(s.processes, input.before);
    SameKeepsIds(s.processes, ps, s.nextId);
    AliveKeepsActive(ps);
    AliveKeepsIds(ps, s.nextId);
    ListedLoses(c, s.(processes := Alive(ps)), input);
  }

  lemma NoDisturbance(ps: seq<Proc>)
    ensures Disturb(ps, Disturbance({}, {})) == ps
    ensures MemoryPhase(ps, {}) == ps
  {
  }

  // ----- what a tick brings back -----------------------------------------------------------------

  /** Nobody is left when the tick lists its instances. */
  predicate NobodyLeft(ps: seq<Proc>, d: Disturbance) {
    forall i :: 0 <= i < |ps| ==> ps[i].dead || ps[i].id in d.died
  }

  lemma {:induction false} NobodyAlive(ps: seq<Proc>)
    ensures Alive(ps) == [] <==> forall i :: 0 <= i < |ps| ==> ps[i].dead
  {
    if ps != [] {
      var last := |ps| - 1;
      NobodyAlive(ps[..last]);
      assert (forall i :: 0 <= i < last ==> ps[..last][i].dead) <==> forall i :: 0 <= i < last ==> ps[i].dead;
    }
  }

  lemma AloneRestarts(c: Config, s: Server, input: Input)
    requires s.processes == []
    ensures ListedTick(c, s, input) == SpawnStep(s, input.first) && Active(s.processes) == 0
  {
  }

  lemma AllTerminatingWait(c: Config, s: Server, input: Input)
    requires s.processes != [] && forall i :: 0 <= i < |s.processes| ==> s.processes[i].terminating
    ensures ListedTick(c, s, input) == s
  {
  }

  /** A tick that finds no instance left starts one, and no other; while somebody is left and all of them are
      terminating, it waits. */
  lemma TickRestarts(c: Config, s: Server, input: Input)
    ensures NobodyLeft(s.processes, input.before) ==>
      var s' := Tick(c, s, input);
      && Active(s'.processes) == (if input.first.Started? then 1 else 0)
      && |s'.processes| == (if input.first.NotStarted? then 0 else 1)
      && s'.upTicks == s.upTicks
    ensures
      var listed := Alive(Disturb(s.processes, input.before));
      listed != [] && (forall i :: 0 <= i < |listed| ==> listed[i].terminating)
      ==> Tick(c, s, input) == s.(processes := listed)
  {
    hide Active, Alive, ListedTick;
    var ps := Disturb(s.processes, input.before);
    var listed := s.(processes := Alive(ps));
    NobodyAlive(ps);
    if listed.processes == [] {
      AloneRestarts(c, listed, input);
      SpawnActive(listed, input.first);
    } else if forall i :: 0 <= i < |listed.processes| ==> listed.processes[i].terminating {
      AllTerminatingWait(c, listed, input);
    }
  }

  lemma {:induction false} FillFills(s: Server, missing: nat, outcomes: seq<Spawn>, slow: bool)
    requires missing <= |outcomes| && forall i :: 0 <= i < |outcomes| ==> outcomes[i].Started?
    ensures
      var (s', ended) := Fill(s, missing, outcomes, slow);
      var started := if slow && 0 < missing then 1 else missing;
      && |s'.processes| == |s.processes| + started && Active(s'.processes) == Active(s.processes) + started
      && (ended <==> slow && 0 < missing)
    decreases missing
  {
    if 0 < missing {
      SpawnActive(s, outcomes[0]);
      if !slow {
        FillFills(SpawnStep(s, outcomes[0]), missing - 1, outcomes[1..], slow);
      }
    }
  }

  lemma AutoScaleKeepsLength(c: Config, s: Server, n: nat, input: Input)
    requires n <= |s.processes|
    ensures |s.processes| <= |AutoScalePhase(c, s, n, input).processes| <= |s.processes| + 1
  {
    hide Tally, ReadPhase, Downscale;
    var ps := Disturb(s.processes, input.beforeRead);
    var qs := Disturb(ReadPhase(ps, n, Readings(c, input)), input.beforeScale);
    ReadKeepsLength(ps, n, Readings(c, input));
    DownscaleActive(qs, n, c.streak);
  }

  lemma ReadKeepsLength(ps: seq<Proc>, n: nat, readings: map<nat, Reading>)
    ensures |ReadPhase(ps, n, readings)| == |ps|
  {
  }

  /** As long as somebody is running and no start fails, a tick fills the list up to the minimum, or adds one to it
      with a slow start. */
  lemma TickFillsUp(c: Config, s: Server, input: Input)
    requires AnyRunning(Alive(Disturb(s.processes, input.before)))
    requires Missing(c, |Alive(Disturb(s.processes, input.before))|) <= |input.fill|
    requires forall i :: 0 <= i < |input.fill| ==> input.fill[i].Started?
    ensures
      var n := |Alive(Disturb(s.processes, input.before))|;
      var m := |Tick(c, s, input).processes|;
      && n <= m
      && (!c.slowStart ==> c.clusterMin <= m)
      && (c.slowStart && n < c.clusterMin ==> m == n + 1)
  {
    hide Disturb, Alive, AnyRunning, AutoScalePhase, Fill, Checked;
    var listed := Alive(Disturb(s.processes, input.before));
    var n := |listed|;
    var s2 := s.(processes := Checked(listed, input));
    CheckedKeepsLength(listed, input);
    FillFills(s2, Missing(c, n), input.fill, c.slowStart);
    AutoScaleKeepsLength(c, Filled(c, s2, n, input).0, n, input);
  }

  lemma CheckedKeepsLength(ps: seq<Proc>, input: Input)
    ensures |Checked(ps, input)| == |ps|
  {
  }

  /** Nothing dies, and nobody is asked from outside to terminate, or for its memory. */
  predicate Undisturbed(input: Input) {
    input.before == input.beforeMemory == input.beforeFill == input.beforeRead == input.beforeScale == CALM
    && input.overMemory == {}
  }

  /** An undisturbed tick that finds only active instances, at least one, and whose starts succeed leaves at least
      the minimum active: what was missing is started, and scaling down never goes below the minimum. */
  lemma TickReachesMinimum(c: Config, s: Server, input: Input)
    requires ConfigOk(c) && IdsOk(s) && s.processes != [] && Undisturbed(input) && !c.slowStart
    requires forall i :: 0 <= i < |s.processes| ==> IsActive(s.processes[i])
    requires Missing(c, |s.processes|) <= |input.fill| && forall i :: 0 <= i < |input.fill| ==> input.fill[i].Started?
    ensures c.clusterMin <= Active(Tick(c, s, input).processes)
  {
    hide AutoScalePhase, Fill, Checked, DistinctIds, IdsBelow;
    var n := |s.processes|;
    NoDisturbance(s.processes);
    AllActive(s.processes);
    UndisturbedChecked(s.processes, input);
    assert s.(processes := Alive(Disturb(s.processes, CALM))) == s;
    assert !s.processes[0].terminating;
    FillFills(s, Missing(c, n), input.fill, c.slowStart);
    FillKeepsIds(s, Missing(c, n), input.fill, c.slowStart);
    if c.autoScale {
      CalmScaleKeepsMinimum(c, Filled(c, s, n, input).0, n, input);
    }
  }

  lemma UndisturbedChecked(ps: seq<Proc>, input: Input)
    requires Undisturbed(input)
    ensures Checked(ps, input) == ps
  {
    NoDisturbance(ps);
  }

  lemma {:induction false} AllActive(ps: seq<Proc>)
    requires forall i :: 0 <= i < |ps| ==> IsActive(ps[i])
    ensures Alive(ps) == ps && Active(ps) == |ps|
  {
    if ps != [] {
      AllActive(ps[..|ps| - 1]);
    }
  }

  lemma {:induction false} TallyAtMost(ps: seq<Proc>, n: nat, readings: map<nat, Reading>)
    requires n <= |ps|
    ensures Tally(ps, n, readings, Over) + Tally(ps, n, readings, Under)
            + (Tally(ps, n, readings, Recent) + Tally(ps, n, readings, Between)) <= n
  {
    if 0 < n {
      TallyAtMost(ps, n - 1, readings);
    }
  }

  lemma CalmScaleKeepsMinimum(c: Config, s: Server, n: nat, input: Input)
    requires IdsOk(s) && n <= |s.processes| && Undisturbed(input)
    requires c.clusterMin <= Active(s.processes) && (c.clusterMin < n ==> c.clusterMin < Active(s.processes))
    ensures c.clusterMin <= Active(AutoScalePhase(c, s, n, input).processes)
  {
    hide Tally, Active, ScalePhase, ReadPhase, Disturb, DistinctIds, IdsBelow;
    var readings := Readings(c, input);
    var qs := ReadPhase(s.processes, n, readings);
    NoDisturbance(s.processes);
    TallyAtMost(s.processes, n, readings);
    ReadKeepsActive(s.processes, n, readings);
    SameKeepsIds(s.processes, qs, 0);
    ScaleLoses(c, s.(processes := qs), n, Tally(s.processes, n, readings, Over), Tally(s.processes, n, readings, Under),
               Tally(s.processes, n, readings, Recent) + Tally(s.processes, n, readings, Between), input);
  }

  /** Whoever is over the memory limit when the tick looks is asked to terminate, unless it is dead. */
  lemma OverMemoryEnds(c: Config, s: Server, input: Input, i: nat)
    requires AnyRunning(Alive(Disturb(s.processes, input.before))) && i < |Alive(Disturb(s.processes, input.before))|
    ensures
      var p := Alive(Disturb(s.processes, input.before))[i];
      var s' := Tick(c, s, input);
      p.id in input.overMemory && p.id !in input.beforeMemory.died
      ==> i < |s'.processes| && s'.processes[i].id == p.id && s'.processes[i].terminating
  {
    hide Disturb, Alive, AnyRunning, AutoScalePhase, Fill;
    var listed := Alive(Disturb(s.processes, input.before));
    var s1 := s.(processes := listed);
    var s2 := s1.(processes := Checked(listed, input));
    CheckedEnds(listed, input, i);
    FillGrows(s2, Missing(c, |listed|), input.fill, c.slowStart);
    var s3 := Filled(c, s2, |listed|, input).0;
    assert s3.processes[..|s2.processes|][i] == s3.processes[i];
    AutoScaleKeepsTerminating(c, s3, |listed|, input, i);
  }

  lemma CheckedEnds(ps: seq<Proc>, input: Input, i: nat)
    requires i < |ps|
    ensures |Checked(ps, input)| == |ps| && Checked(ps, input)[i].id == ps[i].id
    ensures !ps[i].dead && ps[i].id in input.overMemory && ps[i].id !in input.beforeMemory.died
            ==> Checked(ps, input)[i].terminating
  {
  }

  lemma AutoScaleKeepsTerminating(c: Config, s: Server, n: nat, input: Input, i: nat)
    requires n <= |s.processes| && i < |s.processes|
    ensures
      var s' := AutoScalePhase(c, s, n, input);
      && i < |s'.processes| && s'.processes[i].id == s.processes[i].id
      && (s.processes[i].terminating ==> s'.processes[i].terminating)
  {
    hide Tally;
  }

  // ----- when a tick scales ------------------------------------------------------------------------

  /** Which of the first n instances are not terminating, and which of those give the reading. */
  function Running(ps: seq<Proc>, n: nat): (s: set<nat>)
    requires n <= |ps|
    ensures forall i: nat :: i in s <==> i < n && !ps[i].terminating
  {
    if n == 0 then {} else if ps[n - 1].terminating then Running(ps, n - 1) else Running(ps, n - 1) + {n - 1}
  }

  function Reads(ps: seq<Proc>, n: nat, readings: map<nat, Reading>, r: Reading): (s: set<nat>)
    requires n <= |ps|
    ensures forall i: nat :: i in s <==> i < n && !ps[i].terminating && ReadingOf(ps[i], readings) == r
  {
    if n == 0 then {}
    else
      var s := Reads(ps, n - 1, readings, r);
      if !ps[n - 1].terminating && ReadingOf(ps[n - 1], readings) == r then s + {n - 1} else s
  }

  function Counts(b: bool): nat {
    if b then 1 else 0
  }

  lemma TallyStep(ps: seq<Proc>, n: nat, readings: map<nat, Reading>, r: Reading)
    requires n <= |ps|
    ensures Tally(ps, n, readings, r) == if n == 0 then 0 else
              Tally(ps, n - 1, readings, r) + Counts(!ps[n - 1].terminating && ReadingOf(ps[n - 1], readings) == r)
  {
  }

  lemma ReadsStep(ps: seq<Proc>, n: nat, readings: map<nat, Reading>, r: Reading)
    requires n <= |ps|
    ensures |Reads(ps, n, readings, r)| == if n == 0 then 0 else
              |Reads(ps, n - 1, readings, r)| + Counts(!ps[n - 1].terminating && ReadingOf(ps[n - 1], readings) == r)
  {
    hide ReadingOf;
  }

  lemma {:induction false} TallyCounts(ps: seq<Proc>, n: nat, readings: map<nat, Reading>, r: Reading)
    requires n <= |ps|
    ensures Tally(ps, n, readings, r) == |Reads(ps, n, readings, r)|
  {
    hide ReadingOf, Tally, Reads;
    TallyStep(ps, n, readings, r);
    ReadsStep(ps, n, readings, r);
    if 0 < n {
      TallyCounts(ps, n - 1, readings, r);
    }
  }

  lemma RunningStep(ps: seq<Proc>, n: nat)
    requires n <= |ps|
    ensures |Running(ps, n)| == if n == 0 then 0 else |Running(ps, n - 1)| + Counts(!ps[n - 1].terminating)
  {
  }

  lemma {:induction false} TalliesSplit(ps: seq<Proc>, n: nat, readings: map<nat, Reading>)
    requires n <= |ps|
    ensures Tally(ps, n, readings, Over) + Tally(ps, n, readings, Under)
            + (Tally(ps, n, readings, Recent) + Tally(ps, n, readings, Between)) == |Running(ps, n)|
  {
    hide ReadingOf, Tally, Running;
    RunningStep(ps, n);
    TallyStep(ps, n, readings, Over);
    TallyStep(ps, n, readings, Under);
    TallyStep(ps, n, readings, Recent);
    TallyStep(ps, n, readings, Between);
    if 0 < n {
      TalliesSplit(ps, n - 1, readings);
    }
  }

  /** The decision by majorities of the instances that run: a tick is busy when most of them are over the upper
      threshold and none is under the lower.  After enough busy ticks in a row one is started below the maximum;
      else, above the minimum, when most are under the lower threshold and none is over the upper, the first
      that has been so long enough is asked to terminate. */
  lemma ScalesByMajority(c: Config, s: Server, n: nat, input: Input)
    requires n <= |s.processes|
    ensures
      var ps := Disturb(s.processes, input.beforeRead);
      var readings := Readings(c, input);
      var running, busy := |Running(ps, n)|, |Reads(ps, n, readings, Over)|;
      var idle := |Reads(ps, n, readings, Under)|;
      var upTicks := if idle == 0 && running < 2 * busy then s.upTicks + 1 else 0;
      var after := s.(processes := Disturb(ReadPhase(ps, n, readings), input.beforeScale), upTicks := upTicks);
      && |after.processes| == |s.processes|
      && AutoScalePhase(c, s, n, input) ==
         if c.streak <= upTicks && running < c.clusterN then SpawnStep(after, input.extra)
         else if c.clusterMin < running < 2 * idle && busy == 0
         then after.(processes := Downscale(after.processes, n, c.streak))
         else after
  {
    hide Tally, Downscale, ReadPhase;
    var ps := Disturb(s.processes, input.beforeRead);
    var readings := Readings(c, input);
    ReadKeepsLength(ps, n, readings);
    TallyCounts(ps, n, readings, Over);
    TallyCounts(ps, n, readings, Under);
    TalliesSplit(ps, n, readings);
  }

  /** How a usage counts, in terms of the thresholds. */
  lemma ReadingIs(c: Config, p: Proc, usage: map<nat, Usage>)
    ensures
      var r := ReadingOf(p, Judged(c, usage));
      if p.id !in usage || usage[p.id].Young? then r == Recent
      else
        && (r == Over <==> usage[p.id].share > c.upscale)
        && (r == Under <==> usage[p.id].share <= c.upscale && 0.0 <= c.downscale && usage[p.id].share < c.downscale)
        && r != Recent
  {
  }

  // ----- who is scaled down --------------------------------------------------------------------

  /** The tick counter of a process is its current streak of readings under the threshold. */
  predicate CounterOk(p: Proc) {
    p.downTicks == Wrap32(TrailingUnder(p.readings))
  }

  predicate CountersOk(ps: seq<Proc>) {
    forall i :: 0 <= i < |ps| ==> CounterOk(ps[i])
  }

  lemma Wrap32Succ(x: int)
    ensures Wrap32(Wrap32(x) + 1) == Wrap32(x + 1)
  {
  }

  lemma TrailingAppend(rs: seq<Reading>, r: Reading)
    ensures TrailingUnder(rs + [r]) == if r.Under? then TrailingUnder(rs) + 1 else 0
  {
    assert (rs + [r])[..|rs|] == rs;
  }

  lemma ReadProcCounter(p: Proc, r: Reading)
    requires CounterOk(p)
    ensures CounterOk(ReadProc(p, r))
  {
    hide TrailingUnder, Wrap32;
    TrailingAppend(p.readings, r);
    Wrap32Succ(TrailingUnder(p.readings));
    Wrap32Zero();
  }

  lemma Wrap32Zero()
    ensures Wrap32(0) == 0
  {
  }

  lemma ReadPhaseCounters(ps: seq<Proc>, n: nat, readings: map<nat, Reading>)
    requires CountersOk(ps)
    ensures CountersOk(ReadPhase(ps, n, readings))
  {
    forall i | 0 <= i < |ps| ensures CounterOk(ReadPhase(ps, n, readings)[i]) {
      if i < n {
        ReadProcCounter(ps[i], ReadingOf(ps[i], readings));
      }
    }
  }

  lemma {:induction false} AliveCounters(ps: seq<Proc>)
    requires CountersOk(ps)
    ensures CountersOk(Alive(ps))
  {
    if ps == [] {
    } else {
      AliveCounters(ps[..|ps| - 1]);
    }
  }

  lemma {:induction false} FillCounters(s: Server, missing: nat, outcomes: seq<Spawn>, slow: bool)
    requires CountersOk(s.processes)
    ensures CountersOk(Fill(s, missing, outcomes, slow).0.processes)
    decreases missing
  {
    if missing == 0 || outcomes == [] {
    } else if outcomes[0].Started? && !slow {
      FillCounters(SpawnStep(s, outcomes[0]), missing - 1, outcomes[1..], slow);
    }
  }

  lemma DisturbCounters(ps: seq<Proc>, d: Disturbance, over: set<nat>)
    requires CountersOk(ps)
    ensures CountersOk(Disturb(ps, d)) && CountersOk(MemoryPhase(ps, over))
  {
  }

  lemma AutoScaleCounters(c: Config, s: Server, n: nat, input: Input)
    requires CountersOk(s.processes) && n <= |s.processes|
    ensures CountersOk(AutoScalePhase(c, s, n, input).processes)
  {
    var ps := Disturb(s.processes, input.beforeRead);
    DisturbCounters(s.processes, input.beforeRead, {});
    var qs := ReadPhase(ps, n, Readings(c, input));
    ReadPhaseCounters(ps, n, Readings(c, input));
    DisturbCounters(qs, input.beforeScale, {});
  }

  lemma TickCounters(c: Config, s0: Server, input: Input)
    requires CountersOk(s0.processes)
    ensures CountersOk(Tick(c, s0, input).processes)
  {
    DisturbCounters(s0.processes, input.before, {});
    AliveCounters(Disturb(s0.processes, input.before));
    var listed := Alive(Disturb(s0.processes, input.before));
    var n := |listed|;
    if AnyRunning(listed) {
      DisturbCounters(listed, input.beforeMemory, {});
      DisturbCounters(Disturb(listed, input.beforeMemory), CALM, input.overMemory);
      DisturbCounters(MemoryPhase(Disturb(listed, input.beforeMemory), input.overMemory), input.beforeFill, {});
      var s2 := s0.(processes := Checked(listed, input));
      FillCounters(s2, Missing(c, n), input.fill, c.slowStart);
      AutoScaleCounters(c, Filled(c, s2, n, input).0, n, input);
    }
  }

  lemma {:induction false} RunCounters(c: Config, inputs: seq<Input>)
    ensures CountersOk(Run(c, inputs).processes)
  {
    if inputs == [] {
    } else {
      RunCounters(c, inputs[..|inputs| - 1]);
      TickCounters(c, Run(c, inputs[..|inputs| - 1]), inputs[|inputs| - 1]);
    }
  }

  predicate AllUnder(rs: seq<Reading>, from: nat) {
    forall k :: from <= k < |rs| ==> rs[k] == Under
  }

  lemma {:induction false} TrailingAreUnder(rs: seq<Reading>)
    ensures AllUnder(rs, |rs| - TrailingUnder(rs))
  {
    if TrailingUnder(rs) > 0 {
      TrailingAreUnder(rs[..|rs| - 1]);
    }
  }

  /** Everybody who is asked from outside the loop to terminate during a tick, or for its memory. */
  function Outside(input: Input): set<nat> {
    input.before.terminated + input.beforeMemory.terminated + input.beforeFill.terminated
    + input.beforeRead.terminated + input.beforeScale.terminated + input.overMemory
  }

  /** If the instance is terminating, it was so before the tick or was asked from outside. */
  predicate Explained(p: Proc, before: seq<Proc>, input: Input) {
    p.terminating ==> p.id in Outside(input) || exists q :: q in before && q.id == p.id && q.terminating
  }

  predicate AllExplained(ps: seq<Proc>, before: seq<Proc>, input: Input) {
    forall i :: 0 <= i < |ps| ==> Explained(ps[i], before, input)
  }

  lemma DisturbExplained(ps: seq<Proc>, d: Disturbance, before: seq<Proc>, input: Input)
    requires AllExplained(ps, before, input) && d.terminated <= Outside(input)
    ensures AllExplained(Disturb(ps, d), before, input)
  {
    forall i | 0 <= i < |ps| ensures Explained(Disturb(ps, d)[i], before, input) {
      assert Explained(ps[i], before, input);
    }
  }

  lemma MemoryExplained(ps: seq<Proc>, before: seq<Proc>, input: Input)
    requires AllExplained(ps, before, input)
    ensures AllExplained(MemoryPhase(ps, input.overMemory), before, input)
  {
    forall i | 0 <= i < |ps| ensures Explained(MemoryPhase(ps, input.overMemory)[i], before, input) {
      assert Explained(ps[i], before, input);
    }
  }

  lemma {:induction false} AliveExplained(ps: seq<Proc>, before: seq<Proc>, input: Input)
    requires AllExplained(ps, before, input)
    ensures AllExplained(Alive(ps), before, input)
  {
    hide Explained;
    if ps != [] {
      AliveExplained(ps[..|ps| - 1], before, input);
    }
  }

  lemma {:induction false} FillExplained(
    s: Server, missing: nat, outcomes: seq<Spawn>, slow: bool, before: seq<Proc>, input: Input)
    requires AllExplained(s.processes, before, input)
    ensures AllExplained(Fill(s, missing, outcomes, slow).0.processes, before, input)
    decreases missing
  {
    if missing > 0 && outcomes != [] && outcomes[0].Started? && !slow {
      FillExplained(SpawnStep(s, outcomes[0]), missing - 1, outcomes[1..], slow, before, input);
    }
  }

  lemma ReadExplained(c: Config, ps: seq<Proc>, n: nat, before: seq<Proc>, input: Input)
    requires AllExplained(ps, before, input)
    ensures AllExplained(ReadPhase(ps, n, Readings(c, input)), before, input)
  {
    forall i | 0 <= i < |ps| ensures Explained(ReadPhase(ps, n, Readings(c, input))[i], before, input) {
      assert Explained(ps[i], before, input);
    }
  }

  /** At most one instance is terminating without explanation, and that one passed the test of the tick. */
  ghost predicate HitsOne(ps: seq<Proc>, streak: int, before: seq<Proc>, input: Input) {
    exists i: nat :: HitsOnly(ps, i, streak, before, input)
  }

  predicate HitsOnly(ps: seq<Proc>, i: nat, streak: int, before: seq<Proc>, input: Input) {
    forall j :: 0 <= j < |ps| && !Explained(ps[j], before, input) ==>
      j == i && CounterOk(ps[j]) && Wrap32(streak) <= ps[j].downTicks
  }

  lemma ExplainedHitsOne(ps: seq<Proc>, streak: int, before: seq<Proc>, input: Input)
    requires AllExplained(ps, before, input)
    ensures HitsOne(ps, streak, before, input)
  {
    assert HitsOnly(ps, 0, streak, before, input);
  }

  lemma DownscaleHitsOne(ps: seq<Proc>, n: nat, streak: int, before: seq<Proc>, input: Input)
    requires n <= |ps| && AllExplained(ps, before, input) && CountersOk(ps)
    ensures HitsOne(Downscale(ps, n, streak), streak, before, input)
  {
    hide Explained;
    assert HitsOnly(Downscale(ps, n, streak), FirstCandidate(ps, n, streak), streak, before, input);
  }

  lemma AutoScaleHitsOne(c: Config, s: Server, n: nat, before: seq<Proc>, input: Input)
    requires n <= |s.processes| && AllExplained(s.processes, before, input) && CountersOk(s.processes)
    ensures HitsOne(AutoScalePhase(c, s, n, input).processes, c.streak, before, input)
  {
    hide HitsOne, Downscale, AutoScalePhase;
    var ps := Disturb(s.processes, input.beforeRead);
    DisturbCounters(s.processes, input.beforeRead, {});
    DisturbExplained(s.processes, input.beforeRead, before, input);
    var qs := ReadPhase(ps, n, Readings(c, input));
    ReadPhaseCounters(ps, n, Readings(c, input));
    ReadExplained(c, ps, n, before, input);
    var rs := Disturb(qs, input.beforeScale);
    DisturbCounters(qs, input.beforeScale, {});
    DisturbExplained(qs, input.beforeScale, before, input);
    DownscaleHitsOne(rs, n, c.streak, before, input);
    ExplainedHitsOne(rs, c.streak, before, input);
    SpawnExplained(s.(processes := rs), input.extra, before, input);
    ExplainedHitsOne(SpawnStep(s.(processes := rs), input.extra).processes, c.streak, before, input);
    AutoScaleCases(c, s, n, input);
  }

  lemma SpawnExplained(s: Server, o: Spawn, before: seq<Proc>, input: Input)
    requires AllExplained(s.processes, before, input)
    ensures AllExplained(SpawnStep(s, o).processes, before, input)
  {
  }

  lemma CheckedExplained(ps: seq<Proc>, before: seq<Proc>, input: Input)
    requires AllExplained(ps, before, input)
    ensures AllExplained(Checked(ps, input), before, input) && |Checked(ps, input)| == |ps|
  {
    var d := Disturb(ps, input.beforeMemory);
    DisturbExplained(ps, input.beforeMemory, before, input);
    MemoryExplained(d, before, input);
    DisturbExplained(MemoryPhase(d, input.overMemory), input.beforeFill, before, input);
  }

  lemma CheckedCounters(ps: seq<Proc>, input: Input)
    requires CountersOk(ps)
    ensures CountersOk(Checked(ps, input))
  {
    DisturbCounters(ps, input.beforeMemory, {});
    DisturbCounters(Disturb(ps, input.beforeMemory), CALM, input.overMemory);
    DisturbCounters(MemoryPhase(Disturb(ps, input.beforeMemory), input.overMemory), input.beforeFill, {});
  }

  lemma ListedHitsOne(c: Config, s: Server, before: seq<Proc>, input: Input)
    requires AllExplained(s.processes, before, input) && CountersOk(s.processes)
    ensures HitsOne(ListedTick(c, s, input).processes, c.streak, before, input)
  {
    hide HitsOne, AllExplained, CountersOk, Checked, AutoScalePhase;
    var n := |s.processes|;
    ExplainedHitsOne(s.processes, c.streak, before, input);
    SpawnExplained(s, input.first, before, input);
    ExplainedHitsOne(SpawnStep(s, input.first).processes, c.streak, before, input);
    if AnyRunning(s.processes) {
      CheckedExplained(s.processes, before, input);
      CheckedCounters(s.processes, input);
      var s2 := s.(processes := Checked(s.processes, input));
      FillExplained(s2, Missing(c, n), input.fill, c.slowStart, before, input);
      FillCounters(s2, Missing(c, n), input.fill, c.slowStart);
      var s3 := Filled(c, s2, n, input).0;
      ExplainedHitsOne(s3.processes, c.streak, before, input);
      AutoScaleHitsOne(c, s3, n, before, input);
    }
  }

  /** In every tick of every run at most one instance is asked to terminate by the loop itself, apart from
      those over the memory limit, and the counter of that one reached the 32-bit reading of the streak. */
  lemma TickHitsOne(c: Config, inputs: seq<Input>, input: Input)
    ensures var s := Run(c, inputs);
      HitsOne(Tick(c, s, input).processes, c.streak, s.processes, input)
  {
    hide HitsOne, ListedTick, CountersOk;
    var s := Run(c, inputs);
    RunCounters(c, inputs);
    DisturbCounters(s.processes, input.before, {});
    DisturbExplained(s.processes, input.before, s.processes, input);
    var ps := Disturb(s.processes, input.before);
    AliveCounters(ps);
    AliveExplained(ps, s.processes, input);
    ListedHitsOne(c, s.(processes := Alive(ps)), s.processes, input);
  }

  /** The instances that a tick scales down. */
  predicate ScaledDown(c: Config, inputs: seq<Input>, input: Input, p: Proc) {
    p in Tick(c, Run(c, inputs), input).processes && !Explained(p, Run(c, inputs).processes, input)
  }

  lemma CandidateIsIdle(p: Proc, streak: int)
    requires CounterOk(p) && Wrap32(streak) <= p.downTicks && 1 <= streak < 0x8000_0000
    ensures streak <= TrailingUnder(p.readings) && AllUnder(p.readings, |p.readings| - streak)
  {
    TrailingAreUnder(p.readings);
  }

  /** In every tick of every run scaling down hits at most one instance, and all of its last AutoScaleStreak
      readings were under the threshold, for every streak a 32-bit counter can hold. */
  lemma DownscaleHitsIdle(c: Config, inputs: seq<Input>, input: Input, p: Proc, q: Proc)
    requires 1 <= c.streak < 0x8000_0000
    requires ScaledDown(c, inputs, input, p) && ScaledDown(c, inputs, input, q)
    ensures p == q
    ensures c.streak <= |p.readings| && AllUnder(p.readings, |p.readings| - c.streak)
    ensures c.streak <= TrailingUnder(p.readings)
  {
    hide Tick, Explained;
    TickHitsOne(c, inputs, input);
    var s := Run(c, inputs);
    var ps := Tick(c, s, input).processes;
    var i: nat :| HitsOnly(ps, i, c.streak, s.processes, input);
    var j :| 0 <= j < |ps| && ps[j] == p;
    var k :| 0 <= k < |ps| && ps[k] == q;
    CandidateIsIdle(p, c.streak);
  }

  // ----- the bound is reached ------------------------------------------------------------------

  /** A usage that is read as this, if there is one; no example is needed for what lies between. */
  function Example(c: Config, r: Reading): Usage {
    match r
    case Over => Usage(if c.upscale < 0.0 then 0.0 else c.upscale + 1.0)
    case Under => Usage(0.0)
    case _ => Young
  }

  /** All instances with a number below `n` show the same usage. */
  function AllShow(u: Usage, n: nat): (m: map<nat, Usage>)
    ensures forall i: nat :: i in m <==> i < n
    ensures forall i: nat :: i < n ==> m[i] == u
  {
    if n == 0 then map[] else AllShow(u, n - 1)[n - 1 := u]
  }

  /** A tick in which every start succeeds and every instance with a number below `busy` is busy. */
  function Load(c: Config, n: nat, busy: nat, died: set<nat>): Input {
    Input(Started, seq(n, _ => Started), Started, {}, AllShow(Example(c, Over), busy),
          Disturbance(died, {}), CALM, CALM, CALM, CALM)
  }

  /** `n` active instances, the first of them numbered `first`. */
  predicate Steady(ps: seq<Proc>, first: nat, n: nat) {
    |ps| == n && forall i :: 0 <= i < n ==> IsActive(ps[i]) && ps[i].id == first + i
  }

  lemma {:induction false} SteadyActive(ps: seq<Proc>, first: nat, n: nat)
    requires Steady(ps, first, n)
    ensures Active(ps) == n && Alive(ps) == ps
  {
    if n > 0 {
      SteadyActive(ps[..n - 1], first, n - 1);
    }
  }

  lemma {:induction false} SteadyTally(c: Config, ps: seq<Proc>, first: nat, k: nat, n: nat, busy: nat)
    requires Steady(ps, first, n) && k <= n && (first + n <= busy || busy == 0)
    ensures
      var rs := Readings(c, Load(c, 0, busy, {}));
      && Tally(ps, k, rs, Over) == (if busy == 0 then 0 else k)
      && Tally(ps, k, rs, Recent) == (if busy == 0 then k else 0)
      && Tally(ps, k, rs, Under) == Tally(ps, k, rs, Between) == 0
  {
    if k > 0 {
      SteadyTally(c, ps, first, k - 1, n, busy);
    }
  }

  lemma {:induction false} SteadyFill(s: Server, first: nat, n: nat, missing: nat, outcomes: seq<Spawn>)
    requires Steady(s.processes, first, n) && s.nextId == first + n
    requires missing <= |outcomes| && forall i :: 0 <= i < |outcomes| ==> outcomes[i] == Started
    ensures
      var (s', ended) := Fill(s, missing, outcomes, false);
      !ended && Steady(s'.processes, first, n + missing) && s'.nextId == first + n + missing && s'.upTicks == s.upTicks
    decreases missing
  {
    if missing > 0 {
      SteadyFill(SpawnStep(s, Started), first, n + 1, missing - 1, outcomes[1..]);
    }
  }

  /** The scaling half of a tick on a steady list. */
  lemma SteadyScale(c: Config, s: Server, first: nat, listed: nat, input: Input, busy: nat)
    requires ConfigOk(c) && c.autoScale && 0 < listed
    requires listed <= c.clusterN && c.clusterMin == c.clusterN && Steady(s.processes, first, c.clusterN)
    requires s.nextId == first + c.clusterN
    requires first + c.clusterN <= busy || busy == 0
    requires input == Load(c, c.clusterN, busy, input.before.died)
    ensures
      var s' := AutoScalePhase(c, s, listed, input);
      var up := if busy == 0 then 0 else s.upTicks + 1;
      var overshoot := c.streak <= up && listed < c.clusterN;
      && s'.upTicks == up
      && Steady(s'.processes, first, if overshoot then c.clusterN + 1 else c.clusterN)
      && s'.nextId == first + |s'.processes|
  {
    NoDisturbance(s.processes);
    var qs := ReadPhase(s.processes, listed, Readings(c, input));
    NoDisturbance(qs);
    SteadyTally(c, s.processes, first, listed, c.clusterN, busy);
    assert Steady(qs, first, c.clusterN);
  }

  /** One tick that lists all instances, none of which died. */
  lemma SteadyTick(c: Config, s: Server, busy: nat)
    requires ConfigOk(c) && c.autoScale && !c.slowStart && c.clusterMin == c.clusterN
    requires 0 < |s.processes| <= c.clusterN && Steady(s.processes, 0, |s.processes|) && s.nextId == |s.processes|
    requires busy == 0 || (c.clusterN <= busy && |s.processes| == c.clusterN)
    ensures
      var s' := Tick(c, s, Load(c, c.clusterN, busy, {}));
      && Steady(s'.processes, 0, c.clusterN) && s'.nextId == c.clusterN
      && s'.upTicks == if busy == 0 then 0 else s.upTicks + 1
  {
    hide ListedTick, Steady, Alive, Disturb;
    NoDisturbance(s.processes);
    SteadyActive(s.processes, 0, |s.processes|);
    assert s.(processes := Alive(Disturb(s.processes, CALM))) == s;
    SteadyListed(c, s, 0, Load(c, c.clusterN, busy, {}), busy);
  }

  /** A tick on a steady list fills it up and may add one more. */
  lemma SteadyListed(c: Config, s: Server, first: nat, input: Input, busy: nat)
    requires ConfigOk(c) && c.autoScale && !c.slowStart && c.clusterMin == c.clusterN
    requires 0 < |s.processes| <= c.clusterN && Steady(s.processes, first, |s.processes|)
    requires s.nextId == first + |s.processes|
    requires busy == 0 || first + c.clusterN <= busy
    requires input == Load(c, c.clusterN, busy, input.before.died)
    ensures
      var s' := ListedTick(c, s, input);
      var up := if busy == 0 then 0 else s.upTicks + 1;
      var overshoot := c.streak <= up && |s.processes| < c.clusterN;
      && s'.upTicks == up
      && Steady(s'.processes, first, if overshoot then c.clusterN + 1 else c.clusterN)
      && s'.nextId == first + |s'.processes|
  {
    var n := |s.processes|;
    NoDisturbance(s.processes);
    assert AnyRunning(s.processes) by {
      assert !s.processes[0].terminating;
    }
    assert s.(processes := Checked(s.processes, input)) == s;
    SteadyFill(s, first, n, Missing(c, n), input.fill);
    SteadyScale(c, Filled(c, s, n, input).0, first, n, input, busy);
  }

  /** The tick's list after the first instance died. */
  lemma FirstDies(ps: seq<Proc>, n: nat)
    requires Steady(ps, 0, n) && 0 < n
    ensures
      var listed := Alive(Disturb(ps, Disturbance({0}, {})));
      Steady(listed, 1, n - 1)
  {
    var d := Disturb(ps, Disturbance({0}, {}));
    var rest := d[1..];
    assert d == [d[0]] + rest;
    AliveAppend([d[0]], rest);
    assert [d[0]][..0] == [];
    assert Alive([d[0]]) == [];
    assert Steady(rest, 1, n - 1);
    SteadyActive(rest, 1, n - 1);
  }

  /** One instance dies before the tick: the tick replaces it and starts another one. */
  lemma OvershootTick(c: Config, s: Server)
    requires ConfigOk(c) && c.autoScale && !c.slowStart && c.clusterMin == c.clusterN
    requires Steady(s.processes, 0, c.clusterN) && s.nextId == c.clusterN && c.streak <= s.upTicks
    ensures
      var s' := Tick(c, s, Load(c, c.clusterN, c.clusterN + 1, {0}));
      Steady(s'.processes, 1, c.clusterN + 1) && Active(s'.processes) == c.clusterN + 1
  {
    FirstDies(s.processes, c.clusterN);
    var listed := s.(processes := Alive(Disturb(s.processes, Disturbance({0}, {}))));
    SteadyListed(c, listed, 1, Load(c, c.clusterN, c.clusterN + 1, {0}), c.clusterN + 1);
    SteadyActive(ListedTick(c, listed, Load(c, c.clusterN, c.clusterN + 1, {0})).processes, 1, c.clusterN + 1);
  }

  lemma {:induction false} AliveAppend(a: seq<Proc>, b: seq<Proc>)
    ensures Alive(a + b) == Alive(a) + Alive(b)
  {
    if b == [] {
      assert a + b == a;
    } else {
      AliveAppend(a, b[..|b| - 1]);
      assert (a + b)[..|a + b| - 1] == a + b[..|b| - 1];
    }
  }

  lemma RunUnfolds(c: Config, inputs: seq<Input>, last: Input)
    ensures Run(c, inputs + [last]) == Tick(c, Run(c, inputs), last)
  {
  }

  lemma FirstSteady(c: Config)
    ensures Steady(Run(c, []).processes, 0, 1) && Run(c, []).nextId == 1
  {
  }

  /** The cluster is full and has been busy for `k` ticks. */
  predicate Ready(c: Config, s: Server, k: nat) {
    0 <= c.clusterN && Steady(s.processes, 0, c.clusterN) && s.nextId == c.clusterN && s.upTicks == k
  }

  lemma ReadyTick(c: Config, inputs: seq<Input>, k: nat) returns (more: seq<Input>)
    requires ConfigOk(c) && c.autoScale && !c.slowStart && c.clusterMin == c.clusterN
    requires Ready(c, Run(c, inputs), k)
    ensures Ready(c, Run(c, more), k + 1)
  {
    hide Tick;
    var last := Load(c, c.clusterN, c.clusterN + 1, {});
    SteadyTick(c, Run(c, inputs), c.clusterN + 1);
    RunUnfolds(c, inputs, last);
    more := inputs + [last];
  }

  lemma ReadyFirst(c: Config) returns (inputs: seq<Input>)
    requires ConfigOk(c) && c.autoScale && !c.slowStart && c.clusterMin == c.clusterN
    ensures Ready(c, Run(c, inputs), 0)
  {
    var last := Load(c, c.clusterN, 0, {});
    FirstSteady(c);
    SteadyTick(c, Run(c, []), 0);
    RunUnfolds(c, [], last);
    inputs := [] + [last];
  }

  lemma {:induction false} BusyRun(c: Config, k: nat) returns (inputs: seq<Input>)
    requires ConfigOk(c) && c.autoScale && !c.slowStart && c.clusterMin == c.clusterN
    ensures Ready(c, Run(c, inputs), k)
  {
    if k == 0 {
      inputs := ReadyFirst(c);
    } else {
      var before := BusyRun(c, k - 1);
      inputs := ReadyTick(c, before, k - 1);
    }
  }

  /** The active instances stay within the configured maximum on every run exactly when the
      configuration does not scale automatically, starts slowly, or leaves room between its bounds. */
  lemma MaximumIsKeptIff(c: Config)
    requires ConfigOk(c)
    ensures (forall inputs :: Active(Run(c, inputs).processes) <= c.clusterN)
            <==> !c.autoScale || c.slowStart || c.clusterMin < c.clusterN
  {
    if c.autoScale && !c.slowStart && c.clusterMin == c.clusterN {
      var inputs := BusyRun(c, c.streak);
      var last := Load(c, c.clusterN, c.clusterN + 1, {0});
      RunUnfolds(c, inputs, last);
      OvershootTick(c, Run(c, inputs));
      assert Active(Run(c, inputs + [last]).processes) > c.clusterN;
    } else {
      forall inputs ensures Active(Run(c, inputs).processes) <= c.clusterN {
        RunBound(c, inputs);
      }
    }
  }

  // ----- a long streak is not honoured -------------------------------------------------------------

  /** A tick in which nothing happens outside, one instance can be started, and all instances with a number
      below `n` give the same reading. */
  function Calm(c: Config, r: Reading, n: nat): Input {
    Input(Started, [Started], Started, {}, AllShow(Example(c, r), n), CALM, CALM, CALM, CALM, CALM)
  }

  /** The configuration has a usage for the reading. */
  predicate CanRead(c: Config, r: Reading) {
    Judge(c, Example(c, r)) == r
  }

  lemma {:induction false} CalmTally(c: Config, ps: seq<Proc>, first: nat, k: nat, n: nat, r: Reading, x: Reading)
    requires Steady(ps, first, n) && k <= n && CanRead(c, r)
    ensures Tally(ps, k, Readings(c, Calm(c, r, first + n)), x) == if x == r then k else 0
  {
    if k > 0 {
      CalmTally(c, ps, first, k - 1, n, r, x);
    }
  }

  /** A tick that finds active instances only, and that nothing disturbs. */
  lemma CalmStart(c: Config, s: Server, first: nat, n: nat, r: Reading, m: nat)
    requires Steady(s.processes, first, n) && 0 < n
    ensures
      var (s', ended) := Fill(s, Missing(c, n), [Started], c.slowStart);
      n <= |s'.processes|
      && Tick(c, s, Calm(c, r, m)) == if ended || !c.autoScale then s' else AutoScalePhase(c, s', n, Calm(c, r, m))
  {
    hide AutoScalePhase, Fill, Steady, Tick, Calm;
    var input := Calm(c, r, m);
    CalmListing(c, s, first, n, r, m);
    FillGrows(s, Missing(c, n), [Started], c.slowStart);
  }

  lemma CalmListing(c: Config, s: Server, first: nat, n: nat, r: Reading, m: nat)
    requires Steady(s.processes, first, n) && 0 < n
    ensures Tick(c, s, Calm(c, r, m)) == ListedTick(c, s, Calm(c, r, m)) && AnyRunning(s.processes)
    ensures s.(processes := Checked(s.processes, Calm(c, r, m))) == s
    ensures |s.processes| == n && Calm(c, r, m).fill == [Started]
  {
    hide ListedTick;
    SteadyActive(s.processes, first, n);
    NoDisturbance(s.processes);
    assert !s.processes[0].terminating;
    assert s.(processes := Alive(Disturb(s.processes, CALM))) == s;
    assert Checked(s.processes, Calm(c, r, m)) == s.processes;
  }

  /** A calm tick on a full list of active instances. */
  lemma CalmTick(c: Config, s: Server, first: nat, n: nat, r: Reading)
    requires ConfigOk(c) && c.autoScale && Steady(s.processes, first, n) && 0 < n && c.clusterMin <= n && CanRead(c, r)
    ensures
      var qs := ReadPhase(s.processes, n, Readings(c, Calm(c, r, first + n)));
      var s' := Tick(c, s, Calm(c, r, first + n));
      && Steady(qs, first, n)
      && (r.Recent? ==> s' == s.(processes := qs, upTicks := 0))
      && (r.Under? ==> s' == s.(processes := if n > c.clusterMin then Downscale(qs, n, c.streak) else qs, upTicks := 0))
      && (r.Over? ==>
            var s'' := s.(processes := qs, upTicks := s.upTicks + 1);
            s' == if s.upTicks + 1 >= c.streak && n < c.clusterN then SpawnStep(s'', Started) else s'')
  {
    hide Tick, Downscale;
    CalmStart(c, s, first, n, r, first + n);
    NoDisturbance(s.processes);
    NoDisturbance(ReadPhase(s.processes, n, Readings(c, Calm(c, r, first + n))));
    CalmTally(c, s.processes, first, n, n, r, Over);
    CalmTally(c, s.processes, first, n, n, r, Under);
    CalmTally(c, s.processes, first, n, n, r, Recent);
    CalmTally(c, s.processes, first, n, n, r, Between);
  }

  /** All of `n` instances are active and have been idle for exactly `k` readings. */
  predicate Idle(ps: seq<Proc>, first: nat, n: nat, k: nat) {
    Steady(ps, first, n)
    && forall i :: 0 <= i < n ==> CounterOk(ps[i]) && TrailingUnder(ps[i].readings) == k
  }

  lemma ReadingCounts(p: Proc, r: Reading)
    requires CounterOk(p) && !p.terminating
    ensures r.Under? ==> TrailingUnder(ReadProc(p, r).readings) == TrailingUnder(p.readings) + 1
    ensures r.Over? ==> TrailingUnder(ReadProc(p, r).readings) == 0
    ensures CounterOk(ReadProc(p, r)) && !ReadProc(p, r).terminating
  {
    hide TrailingUnder, CounterOk;
    ReadProcCounter(p, r);
    TrailingAppend(p.readings, r);
  }

  lemma ReadIdle(c: Config, ps: seq<Proc>, first: nat, n: nat, r: Reading)
    requires Steady(ps, first, n) && CountersOk(ps) && CanRead(c, r)
    ensures r.Over? ==> Idle(ReadPhase(ps, n, Readings(c, Calm(c, r, first + n))), first, n, 0)
    ensures forall k: nat :: r.Under? && Idle(ps, first, n, k)
                             ==> Idle(ReadPhase(ps, n, Readings(c, Calm(c, r, first + n))), first, n, k + 1)
  {
    forall i | 0 <= i < n ensures ReadPhase(ps, n, Readings(c, Calm(c, r, first + n)))[i] == ReadProc(ps[i], r) {
    }
    forall i | 0 <= i < n
      ensures CounterOk(ReadProc(ps[i], r)) && !ReadProc(ps[i], r).terminating
      ensures r.Under? ==> TrailingUnder(ReadProc(ps[i], r).readings) == TrailingUnder(ps[i].readings) + 1
      ensures r.Over? ==> TrailingUnder(ReadProc(ps[i], r).readings) == 0
    {
      ReadingCounts(ps[i], r);
    }
  }

  /** `m` instances were started so far, and the cluster has been busy for k ticks. */
  predicate Level(s: Server, m: nat, k: nat) {
    Steady(s.processes, 0, m) && s.nextId == m && s.upTicks == k
  }

  lemma GrowTick(c: Config, s: Server, m: nat)
    requires ConfigOk(c) && c.autoScale && Level(s, m, 0) && 0 < m < c.clusterMin
    ensures Level(Tick(c, s, Calm(c, Recent, 0)), m + 1, 0)
  {
    hide Tick;
    CalmStart(c, s, 0, m, Recent, 0);
    FillsOne(c, s, m);
    if !c.slowStart {
      LeavesAlone(c, SpawnStep(s, Started), m, m + 1);
    }
  }

  lemma LeavesAlone(c: Config, s: Server, listed: nat, m: nat)
    requires ConfigOk(c) && c.autoScale && Level(s, m, 0) && listed <= m
    ensures Level(AutoScalePhase(c, s, listed, Calm(c, Recent, 0)), m, 0)
  {
    var input := Calm(c, Recent, 0);
    NoDisturbance(s.processes);
    NoDisturbance(ReadPhase(s.processes, listed, Readings(c, input)));
    RecentTally(c, s.processes, listed, Over);
    RecentTally(c, s.processes, listed, Under);
    assert Steady(ReadPhase(s.processes, listed, Readings(c, input)), 0, m);
  }

  lemma FillsOne(c: Config, s: Server, m: nat)
    requires m < c.clusterMin
    ensures Fill(s, Missing(c, m), [Started], c.slowStart) == (SpawnStep(s, Started), c.slowStart)
  {
  }

  lemma {:induction false} RecentTally(c: Config, ps: seq<Proc>, n: nat, r: Reading)
    requires n <= |ps| && !r.Recent?
    ensures Tally(ps, n, Readings(c, Calm(c, Recent, 0)), r) == 0
  {
    if n > 0 {
      RecentTally(c, ps, n - 1, r);
    }
  }

  lemma {:induction false} GrowRun(c: Config, m: nat) returns (inputs: seq<Input>)
    requires ConfigOk(c) && c.autoScale && 1 <= m <= c.clusterMin
    ensures Level(Run(c, inputs), m, 0)
  {
    if m == 1 {
      inputs := [];
    } else {
      var before := GrowRun(c, m - 1);
      GrowTick(c, Run(c, before), m - 1);
      RunUnfolds(c, before, Calm(c, Recent, 0));
      inputs := before + [Calm(c, Recent, 0)];
    }
  }

  lemma {:induction false} LevelRun(c: Config, k: nat) returns (inputs: seq<Input>)
    requires ConfigOk(c) && c.autoScale && k < c.streak
    ensures Level(Run(c, inputs), c.clusterMin, k)
  {
    hide Tick, ReadPhase, Steady, Calm, SpawnStep, Level;
    if k == 0 {
      inputs := GrowRun(c, c.clusterMin);
    } else {
      var before := LevelRun(c, k - 1);
      var s, n := Run(c, before), c.clusterMin;
      LevelIs(s, n, k - 1);
      CalmTick(c, s, 0, n, Over);
      RunUnfolds(c, before, Calm(c, Over, 0 + n));
      inputs := before + [Calm(c, Over, 0 + n)];
      LevelIs(Run(c, inputs), n, k);
    }
  }

  lemma IdleSpawn(s: Server, m: nat)
    requires Idle(s.processes, 0, m, 0) && s.nextId == m
    ensures Idle(SpawnStep(s, Started).processes, 0, m + 1, 0)
  {
  }

  /** The last busy tick of a streak starts one more. */
  lemma GrownAboveMinimum(c: Config) returns (inputs: seq<Input>)
    requires ConfigOk(c) && c.autoScale && c.clusterMin < c.clusterN
    ensures Idle(Run(c, inputs).processes, 0, c.clusterMin + 1, 0)
  {
    hide Tick, ReadPhase, Steady, Calm, SpawnStep, Idle;
    var before := LevelRun(c, c.streak - 1);
    var s, n := Run(c, before), c.clusterMin;
    var last := Calm(c, Over, 0 + n);
    LevelIs(s, n, c.streak - 1);
    RunCounters(c, before);
    CalmTick(c, s, 0, n, Over);
    ReadIdle(c, s.processes, 0, n, Over);
    RunUnfolds(c, before, last);
    IdleSpawn(s.(processes := ReadPhase(s.processes, n, Readings(c, last)), upTicks := s.upTicks + 1), n);
    inputs := before + [last];
  }

  lemma LevelIs(s: Server, m: nat, k: nat)
    ensures Level(s, m, k) <==> Steady(s.processes, 0, m) && s.nextId == m && s.upTicks == k
  {
  }

  /** A full cluster whose first instance dies is filled up and gets one more. */
  lemma OvershotMinimum(c: Config) returns (inputs: seq<Input>)
    requires ConfigOk(c) && c.autoScale && c.clusterMin == c.clusterN && !c.slowStart
    ensures Steady(Run(c, inputs).processes, 1, c.clusterMin + 1)
  {
    hide Tick, Steady;
    var before := BusyRun(c, c.streak);
    var last := Load(c, c.clusterN, c.clusterN + 1, {0});
    OvershootTick(c, Run(c, before));
    RunUnfolds(c, before, last);
    inputs := before + [last];
  }

  /** How long an instance must be idle before a tick scales it down. */
  function CutStreak(streak: int): (k: nat)
    ensures k < 0x8000_0000
  {
    if Wrap32(streak) < 1 then 1 else Wrap32(streak)
  }

  /** A run that ends with one active instance more than the minimum, none of them idle in its last reading. */
  lemma NobodyIdle(c: Config) returns (inputs: seq<Input>, first: nat)
    requires ConfigOk(c) && c.autoScale && (c.clusterMin < c.clusterN || !c.slowStart)
    ensures Idle(Run(c, inputs).processes, first, c.clusterMin + 1, 0)
  {
    hide Tick, ReadPhase, Idle;
    if c.clusterMin < c.clusterN {
      inputs := GrownAboveMinimum(c);
      first := 0;
    } else {
      var before := OvershotMinimum(c);
      first := 1;
      var s, n := Run(c, before), c.clusterMin + 1;
      var busy := Calm(c, Over, first + n);
      RunCounters(c, before);
      ReadIdle(c, s.processes, first, n, Over);
      CalmTick(c, s, first, n, Over);
      RunUnfolds(c, before, busy);
      inputs := before + [busy];
    }
  }

  lemma {:induction false} IdleRun(c: Config, k: nat) returns (inputs: seq<Input>, first: nat)
    requires ConfigOk(c) && c.autoScale && (c.clusterMin < c.clusterN || !c.slowStart)
    requires k < CutStreak(c.streak) && 0.0 < c.downscale
    ensures Idle(Run(c, inputs).processes, first, c.clusterMin + 1, k)
  {
    hide Tick, ReadPhase, Idle;
    if k == 0 {
      inputs, first := NobodyIdle(c);
    } else {
      var before;
      before, first := IdleRun(c, k - 1);
      var s, n := Run(c, before), c.clusterMin + 1;
      var idle := Calm(c, Under, first + n);
      IsIdle(s.processes, first, n, k - 1);
      RunCounters(c, before);
      ReadIdle(c, s.processes, first, n, Under);
      CalmTick(c, s, first, n, Under);
      NobodyYet(ReadPhase(s.processes, n, Readings(c, idle)), first, n, k, c.streak);
      RunUnfolds(c, before, idle);
      inputs := before + [idle];
    }
  }

  lemma NobodyYet(ps: seq<Proc>, first: nat, n: nat, k: nat, streak: int)
    requires Idle(ps, first, n, k)
    ensures 0 < k < CutStreak(streak) ==> Downscale(ps, n, streak) == ps
  {
  }

  /** Every instance that a tick of some run scales down was under the threshold in each of its last
      AutoScaleStreak readings. */
  ghost predicate StreaksHonoured(c: Config) {
    forall inputs, input, p :: ScaledDown(c, inputs, input, p) ==> c.streak <= TrailingUnder(p.readings)
  }

  /** One more idle tick hits the first instance. */
  lemma SomebodyIsHit(c: Config) returns (inputs: seq<Input>, input: Input, p: Proc)
    requires ConfigOk(c) && c.autoScale && (c.clusterMin < c.clusterN || !c.slowStart) && 0.0 < c.downscale
    ensures ScaledDown(c, inputs, input, p) && TrailingUnder(p.readings) == CutStreak(c.streak)
  {
    hide Tick, ReadPhase, Idle;
    var k := CutStreak(c.streak);
    var first;
    inputs, first := IdleRun(c, k - 1);
    var s, n := Run(c, inputs), c.clusterMin + 1;
    input := Calm(c, Under, first + n);
    IsIdle(s.processes, first, n, k - 1);
    RunCounters(c, inputs);
    ReadIdle(c, s.processes, first, n, Under);
    CalmTick(c, s, first, n, Under);
    var qs := ReadPhase(s.processes, n, Readings(c, input));
    FirstIsHit(qs, first, n, k, c.streak, s.processes, input);
    p := Downscale(qs, n, c.streak)[0];
  }

  lemma IsIdle(ps: seq<Proc>, first: nat, n: nat, k: nat)
    requires Idle(ps, first, n, k)
    ensures Steady(ps, first, n)
  {
  }

  lemma FirstIsHit(ps: seq<Proc>, first: nat, n: nat, k: nat, streak: int, before: seq<Proc>, input: Input)
    requires Idle(ps, first, n, k) && 0 < n && k == CutStreak(streak)
    requires Outside(input) == {} && Steady(before, first, n)
    ensures var p := Downscale(ps, n, streak)[0];
      !Explained(p, before, input) && TrailingUnder(p.readings) == k
  {
    CandidateComesFirst(ps, n, streak);
  }

  lemma {:induction false} CandidateComesFirst(ps: seq<Proc>, n: nat, streak: int)
    requires 0 < n <= |ps| && Candidate(ps[0], streak)
    ensures FirstCandidate(ps, n, streak) == 0
  {
    if n > 1 {
      CandidateComesFirst(ps, n - 1, streak);
    }
  }

  // ----- nothing to scale down ---------------------------------------------------------------------

  /** With a negative lower threshold no usage is low. */
  lemma {:induction false} NobodyUnder(c: Config, ps: seq<Proc>, n: nat, input: Input)
    requires n <= |ps| && c.downscale < 0.0
    ensures Tally(ps, n, Readings(c, input), Under) == 0
  {
    if n > 0 {
      NobodyUnder(c, ps, n - 1, input);
    }
  }

  lemma AutoScaleSparesAll(c: Config, s: Server, listed: seq<Proc>, before: seq<Proc>, input: Input)
    requires Follows(s.processes, listed) && forall i :: 0 <= i < |listed| ==> !listed[i].dead
    requires Active(listed) <= c.clusterMin || c.downscale < 0.0
    requires AllExplained(s.processes, before, input)
    ensures AllExplained(AutoScalePhase(c, s, |listed|, input).processes, before, input)
  {
    hide Explained, Downscale, Tally, Active;
    var n := |listed|;
    var ps := Disturb(s.processes, input.beforeRead);
    DisturbExplained(s.processes, input.beforeRead, before, input);
    var qs := ReadPhase(ps, n, Readings(c, input));
    ReadExplained(c, ps, n, before, input);
    DisturbExplained(qs, input.beforeScale, before, input);
    SpawnExplained(s.(processes := Disturb(qs, input.beforeScale)), input.extra, before, input);
    if c.downscale < 0.0 {
      NobodyUnder(c, ps, n, input);
    } else {
      TallyFollows(listed, ps, n, Readings(c, input));
    }
  }

  /** A tick that begins with no more active instances than the minimum, or for which no usage is low, scales
      nobody down. */
  lemma TickSparesAll(c: Config, s: Server, input: Input)
    requires Active(s.processes) <= c.clusterMin || c.downscale < 0.0
    ensures AllExplained(Tick(c, s, input).processes, s.processes, input)
  {
    hide Explained, AutoScalePhase, Checked;
    var ps := Disturb(s.processes, input.before);
    ActivePointwise(s.processes, ps);
    AliveKeepsActive(ps);
    BeforeExplained(s.processes, input);
    DisturbExplained(s.processes, input.before, s.processes, input);
    AliveExplained(ps, s.processes, input);
    var listed := s.(processes := Alive(ps));
    SpawnExplained(listed, input.first, s.processes, input);
    if AnyRunning(listed.processes) {
      CheckedExplained(listed.processes, s.processes, input);
      var s2 := listed.(processes := Checked(listed.processes, input));
      FillExplained(s2, Missing(c, |listed.processes|), input.fill, c.slowStart, s.processes, input);
      CheckedFollows(c, listed, input);
      AutoScaleSparesAll(c, Filled(c, s2, |listed.processes|, input).0, listed.processes, s.processes, input);
    }
  }

  lemma BeforeExplained(ps: seq<Proc>, input: Input)
    ensures AllExplained(ps, ps, input)
  {
  }

  /** The configuration may scale down: it scales automatically, can get above its minimum, and has a lower
      threshold that is not negative. */
  predicate MayScaleDown(c: Config) {
    c.autoScale && (c.clusterMin < c.clusterN || !c.slowStart) && c.downscale >= 0.0
  }

  lemma NobodyIsHit(c: Config, inputs: seq<Input>, input: Input, p: Proc)
    requires ConfigOk(c) && !MayScaleDown(c)
    ensures !ScaledDown(c, inputs, input, p)
  {
    hide Tick, Explained;
    RunBound(c, inputs);
    TickSparesAll(c, Run(c, inputs), input);
  }

  /** In every run the streak is honoured exactly when a 32-bit counter can hold it, or nothing is ever scaled
      down: a longer streak is cut to 32 bits, and some run then hits an instance too early. */
  lemma StreakIsHonouredIff(c: Config)
    requires ConfigOk(c)
    ensures StreaksHonoured(c) <==> c.streak < 0x8000_0000 || !MayScaleDown(c)
  {
    hide Tick, Explained;
    if !MayScaleDown(c) {
      forall inputs, input, p ensures !ScaledDown(c, inputs, input, p) {
        NobodyIsHit(c, inputs, input, p);
      }
    } else if c.streak < 0x8000_0000 {
      forall inputs, input, p | ScaledDown(c, inputs, input, p) ensures c.streak <= TrailingUnder(p.readings) {
        DownscaleHitsIdle(c, inputs, input, p, p);
      }
    } else {
      var inputs, input, p := SomebodyIsHit(c);
    }
  }

  /** Some run scales somebody down exactly when the configuration may. */
  lemma ScalesDownIff(c: Config)
    requires ConfigOk(c)
    ensures (exists inputs, input, p :: ScaledDown(c, inputs, input, p)) <==> MayScaleDown(c)
  {
    hide ScaledDown, Explained, Tick;
    if MayScaleDown(c) {
      var inputs, input, p := SomebodyIsHit(c);
    } else {
      forall inputs, input, p ensures !ScaledDown(c, inputs, input, p) {
        NobodyIsHit(c, inputs, input, p);
      }
    }
  }

  /** Some run has more instances than the minimum exactly when the configuration scales automatically and leaves
      room above it, or can overshoot. */
  lemma GrowsIff(c: Config)
    requires ConfigOk(c)
    ensures (exists inputs :: c.clusterMin < Active(Run(c, inputs).processes))
            <==> c.autoScale && (c.clusterMin < c.clusterN || !c.slowStart)
  {
    if c.autoScale && (c.clusterMin < c.clusterN || !c.slowStart) {
      var inputs, first := NobodyIdle(c);
      SteadyActive(Run(c, inputs).processes, first, c.clusterMin + 1);
      assert c.clusterMin < Active(Run(c, inputs).processes);
    } else {
      forall inputs ensures Active(Run(c, inputs).processes) <= c.clusterMin {
        RunBound(c, inputs);
      }
    }
  }

  // ----- the steps of the counting loop ------------------------------------------------------------

  /** The next process is read; that changes no other. */
  lemma ReadNext(ps: seq<Proc>, i: nat, readings: map<nat, Reading>)
    requires i < |ps|
    ensures |ReadPhase(ps, i, readings)| == |ps| && ReadPhase(ps, i, readings)[i] == ps[i]
    ensures ReadPhase(ps, i + 1, readings)
            == ReadPhase(ps, i, readings)[i := ReadProc(ps[i], ReadingOf(ps[i], readings))]
    ensures ReadPhase(ps, i, readings)[i := ps[i]] == ReadPhase(ps, i, readings)
  {
  }

  lemma ReadNone(ps: seq<Proc>, readings: map<nat, Reading>)
    ensures ReadPhase(ps, 0, readings) == ps
  {
  }

  // ----- the loop itself -----------------------------------------------------------------------

  class AppServer {
    const c: Config
    var processes: seq<Proc>
    var upTicks: nat
    var nextId: nat

    function View(): Server
      reads this
    {
      Server(processes, upTicks, nextId)
    }

    /** Starts the first instance. */
    constructor (c: Config)
      ensures this.c == c && View() == Run(c, [])
    {
      this.c := c;
      processes, upTicks, nextId := [Proc(0, false, false, 0, [])], 0, 1;
    }

    method SpawnProcess(o: Spawn) returns (ok: bool)
      modifies this
      ensures View() == SpawnStep(old(View()), o) && ok == o.Started?
    {
      if !o.NotStarted? {
        processes := processes + [Proc(nextId, o.StartedThenDied?, false, 0, [])];
        nextId := nextId + 1;
      }
      ok := o.Started?;
    }

    /** Forgets the dead instances. */
    method GetProcesses()
      modifies this`processes
      ensures processes == Alive(old(processes))
    {
      var kept := [];
      for i := 0 to |processes|
        invariant kept == Alive(processes[..i])
      {
        assert processes[..i + 1][..i] == processes[..i];
        if !processes[i].dead {
          kept := kept + [processes[i]];
        }
      }
      assert processes[..|processes|] == processes;
      processes := kept;
    }

    method TerminateOverMemory(over: set<nat>)
      modifies this`processes
      ensures processes == MemoryPhase(old(processes), over)
    {
      ghost var ps := processes;
      for i := 0 to |processes|
        invariant |processes| == |ps|
        invariant forall j :: 0 <= j < i ==> processes[j] == if ps[j].id in over then Terminate(ps[j]) else ps[j]
        invariant forall j :: i <= j < |ps| ==> processes[j] == ps[j]
      {
        if !processes[i].terminating && processes[i].id in over {
          processes := processes[i := Terminate(processes[i])];
        }
      }
    }

    /** Returns true when a slow start ends the tick. */
    method FillUp(count: nat, outcomes: seq<Spawn>) returns (ended: bool)
      modifies this
      ensures (View(), ended) == Fill(old(View()), Missing(c, count), outcomes, c.slowStart)
    {
      ended := false;
      var n, k := count, 0;
      ghost var goal := Fill(View(), Missing(c, count), outcomes, c.slowStart);
      while n < c.clusterMin
        invariant k <= |outcomes| && Fill(View(), Missing(c, n), outcomes[k..], c.slowStart) == goal
      {
        if k == |outcomes| {
          return;
        }
        assert outcomes[k..][0] == outcomes[k] && outcomes[k..][1..] == outcomes[k + 1..];
        var ok := SpawnProcess(outcomes[k]);
        if !ok {
          return;
        }
        if c.slowStart {
          return true;
        }
        n, k := n + 1, k + 1;
      }
    }

    /** Reads the usage of the first `n` processes. */
    method ReadUsage(n: nat, usage: map<nat, Usage>) returns (up: nat, down: nat, neutral: nat)
      requires n <= |processes|
      modifies this`processes
      ensures var readings := Judged(c, usage);
        && processes == ReadPhase(old(processes), n, readings)
        && up == Tally(old(processes), n, readings, Over) && down == Tally(old(processes), n, readings, Under)
        && neutral == Tally(old(processes), n, readings, Recent) + Tally(old(processes), n, readings, Between)
    {
      hide ReadPhase, Tally;
      ghost var ps, readings := processes, Judged(c, usage);
      up, down, neutral := 0, 0, 0;
      ReadNone(ps, readings);
      TallyStep(ps, 0, readings, Over);
      TallyStep(ps, 0, readings, Under);
      TallyStep(ps, 0, readings, Recent);
      TallyStep(ps, 0, readings, Between);
      for i := 0 to n
        invariant |processes| == |ps| && processes == ReadPhase(ps, i, readings)
        invariant up == Tally(ps, i, readings, Over) && down == Tally(ps, i, readings, Under)
        invariant neutral == Tally(ps, i, readings, Recent) + Tally(ps, i, readings, Between)
      {
        ReadNext(ps, i, readings);
        TallyStep(ps, i + 1, readings, Over);
        TallyStep(ps, i + 1, readings, Under);
        TallyStep(ps, i + 1, readings, Recent);
        TallyStep(ps, i + 1, readings, Between);
        var p := processes[i];
        if !p.terminating {
          var u := if p.id in usage then usage[p.id] else Young;
          assert ReadingOf(p, readings) == Judge(c, u);
          if u.Young? {
            neutral := neutral + 1;
          } else if u.share > c.upscale {
            processes := processes[i := p.(downTicks := 0, readings := p.readings + [Over])];
            up := up + 1;
          } else if u.share < c.downscale && c.downscale >= 0.0 {
            processes := processes[i := p.(downTicks := Wrap32(p.downTicks + 1), readings := p.readings + [Under])];
            down := down + 1;
          } else {
            processes := processes[i := p.(downTicks := 0, readings := p.readings + [Between])];
            neutral := neutral + 1;
          }
        }
      }
    }

    method TerminateOne(n: nat)
      requires n <= |processes|
      modifies this`processes
      ensures processes == Downscale(old(processes), n, c.streak)
    {
      ghost var first := FirstCandidate(processes, n, c.streak);
      for i := 0 to n
        invariant processes == old(processes) && i <= first
      {
        if !processes[i].terminating && Wrap32(c.streak) <= processes[i].downTicks {
          assert Candidate(processes[i], c.streak);
          processes := processes[i := Terminate(processes[i])];
          return;
        }
      }
    }

    method Check(input: Input)
      modifies this`processes
      ensures processes == Checked(old(processes), input) && |processes| == |old(processes)|
    {
      processes := Disturb(processes, input.beforeMemory);
      TerminateOverMemory(input.overMemory);
      processes := Disturb(processes, input.beforeFill);
    }

    /** Counts the listed instances and starts or terminates at most one. */
    method Scale(n: nat, input: Input)
      requires n <= |processes|
      modifies this
      ensures View() == AutoScalePhase(c, old(View()), n, input)
    {
      processes := Disturb(processes, input.beforeRead);
      var up, down, neutral := ReadUsage(n, input.usage);
      upTicks := if down == 0 && up > neutral then upTicks + 1 else 0;
      var total := up + down + neutral;
      processes := Disturb(processes, input.beforeScale);
      if upTicks >= c.streak && total < c.clusterN {
        var _ := SpawnProcess(input.extra);
      } else if total > c.clusterMin && down > neutral && up == 0 {
        TerminateOne(n);
      }
    }

    /** The body of the tick loop. */
    method OnTick(input: Input)
      modifies this
      ensures View() == Tick(c, old(View()), input)
    {
      hide Disturb, Alive, Checked, AutoScalePhase, Fill, AnyRunning;
      processes := Disturb(processes, input.before);
      GetProcesses();
      var n := |processes|;
      if !AnyRunning(processes) {
        if n == 0 {
          var _ := SpawnProcess(input.first);
        }
        return;
      }
      Check(input);
      FillGrows(View(), Missing(c, n), input.fill, c.slowStart);
      var ended := FillUp(n, input.fill);
      if !ended && c.autoScale {
        Scale(n, input);
      }
    }
  }
}
