/** The slot counter across rebuilds of the provider pool. Every rebuild that gets as far as
    a local backend makes a new engine object with a counter at zero
    (internal/adapter/pool.go, internal/adapter/fusion_mlx.go), while requests that hold
    slots of the object before go on using the same backend. The cap is per object. */
module EngineGenerations {
  import opened Prelude
  import opened LocalSlots
  import opened SlotLeaks
  import PP = ProviderPool

  /** The engine objects made for one backend, oldest first, each with its own requests. The
      position of an object is its identity: a rebuild draws a new one, and a request stays
      with the object of the provider it took from the pool, also when it acquires later. */
  datatype Fleet = Fleet(engines: seq<State>)

  datatype FleetAction =
    | Rebuild(cfg: PP.Config, name: string, arrivals: seq<Request>)  // a new object and the requests it will get
    | Within(k: nat, action: Action)                                 // a step of one generation

  /** A rebuild makes a new engine object for the name: it builds a backend typed fusion-mlx,
      even if it fails later, or it succeeds and makes the shadow engine. */
  predicate Installs(cfg: PP.Config, name: string, registry: set<string>) {
    && name in PP.EnabledNames(cfg)
    && if cfg.backends[name].typ == "fusion-mlx" then "fusion-mlx" in registry
       else PP.IsShadow(cfg, name) && PP.Buildable(cfg, registry)
  }

  function EngineOf(cfg: PP.Config, name: string): PP.Engine
    requires name in PP.EnabledNames(cfg)
  {
    PP.NewEngine(cfg.backends[name], cfg)
  }

  predicate FleetEnabled(f: Fleet, a: FleetAction, registry: set<string>) {
    match a
    case Rebuild(cfg, name, arrivals) => Installs(cfg, name, registry) && forall r :: r in arrivals ==> IsFresh(r)
    case Within(k, act) => k < |f.engines| && Enabled(f.engines[k], act)
  }

  function Newborn(cfg: PP.Config, name: string, arrivals: seq<Request>): State
    requires name in PP.EnabledNames(cfg)
  {
    State(EngineOf(cfg, name).cap, 0, arrivals)
  }

  function FleetNext(f: Fleet, a: FleetAction, registry: set<string>): Fleet
    requires FleetEnabled(f, a, registry)
  {
    match a
    case Rebuild(cfg, name, arrivals) => Fleet(f.engines + [Newborn(cfg, name, arrivals)])
    case Within(k, act) => Fleet(f.engines[k := Next(f.engines[k], act)])
  }

  predicate FleetCanRun(f: Fleet, acts: seq<FleetAction>, registry: set<string>)
    decreases |acts|
  {
    acts == [] || (FleetEnabled(f, acts[0], registry) && FleetCanRun(FleetNext(f, acts[0], registry), acts[1..], registry))
  }

  function FleetRun(f: Fleet, acts: seq<FleetAction>, registry: set<string>): Fleet
    requires FleetCanRun(f, acts, registry)
    decreases |acts|
  {
    if acts == [] then f else FleetRun(FleetNext(f, acts[0], registry), acts[1..], registry)
  }

  function CapOf(s: State): int { s.cap }

  /** Slots held on the backend, over all generations. */
  function TotalHeld(f: Fleet): int { Sum(f.engines, Holders) }

  // ---------------------------------------------------------------- the bound

  ghost predicate FleetInv(f: Fleet) { forall k :: 0 <= k < |f.engines| ==> Inv(f.engines[k]) }

  lemma FleetStepKeepsInv(f: Fleet, a: FleetAction, registry: set<string>)
    requires FleetInv(f) && FleetEnabled(f, a, registry)
    ensures FleetInv(FleetNext(f, a, registry))
  {
    match a
    case Rebuild(cfg, name, arrivals) => InitInv(Newborn(cfg, name, arrivals));
    case Within(k, act) => StepKeepsInv(f.engines[k], act);
  }

  lemma {:induction false} FleetRunKeepsInv(f: Fleet, acts: seq<FleetAction>, registry: set<string>)
    requires FleetInv(f) && FleetCanRun(f, acts, registry)
    ensures FleetInv(FleetRun(f, acts, registry))
    decreases |acts|
  {
    if acts != [] {
      FleetStepKeepsInv(f, acts[0], registry);
      FleetRunKeepsInv(FleetNext(f, acts[0], registry), acts[1..], registry);
    }
  }

  lemma {:induction false} SumAtMost(xs: seq<State>)
    requires forall k :: 0 <= k < |xs| ==> Inv(xs[k]) && xs[k].cap > 0
    ensures Sum(xs, Holders) <= Sum(xs, CapOf)
  {
    if xs != [] {
      assert Inv(xs[0]);
      SumAtMost(xs[1..]);
    }
  }

  /** Over any number of rebuilds, the slots held on one backend never exceed the sum of the
      caps of the engine objects made for it, when all of them are capped. */
  lemma HeldAtMostSumOfCaps(acts: seq<FleetAction>, registry: set<string>)
    requires FleetCanRun(Fleet([]), acts, registry)
    requires forall k :: 0 <= k < |FleetRun(Fleet([]), acts, registry).engines| ==>
               FleetRun(Fleet([]), acts, registry).engines[k].cap > 0
    ensures var f := FleetRun(Fleet([]), acts, registry); TotalHeld(f) <= Sum(f.engines, CapOf)
  {
    FleetRunKeepsInv(Fleet([]), acts, registry);
    SumAtMost(FleetRun(Fleet([]), acts, registry).engines);
  }

  // ---------------------------------------------------------------- what one generation can come to hold

  /** A request that holds a slot or can still acquire one. */
  predicate Eligible(r: Request) { Holding(r) > 0 || r.pc.Top? || r.pc.Loaded? || r.pc.Overshot? }

  function EligibleOf(r: Request): int { if Eligible(r) then 1 else 0 }

  function EligibleIn(s: State): int { Sum(s.requests, EligibleOf) }

  /** The most slots a generation can come to hold from here on. */
  function Reach(s: State): int { if s.cap > 0 && s.cap < EligibleIn(s) then s.cap else EligibleIn(s) }

  lemma EligibleStep(s: State, a: Action)
    requires Inv(s) && Enabled(s, a)
    ensures EligibleIn(Next(s, a)) <= EligibleIn(s) && Next(s, a).cap == s.cap
  {
    assert Fine(s.requests[a.i], TotalGrants(s), s.counter < s.cap);
    SumUpdate(s.requests, a.i, NextRequest(s, a), EligibleOf);
  }

  lemma {:induction false} HoldersAreEligible(rs: seq<Request>)
    requires forall i :: 0 <= i < |rs| ==> Owned(rs[i])
    ensures Sum(rs, Holding) <= Sum(rs, EligibleOf)
  {
    if rs != [] {
      assert Owned(rs[0]);
      HoldersAreEligible(rs[1..]);
    }
  }

  lemma HeldWithinReach(s: State)
    requires Inv(s)
    ensures 0 <= Holders(s) <= Reach(s)
  {
    forall i | 0 <= i < |s.requests| ensures Owned(s.requests[i]) {
      assert Fine(s.requests[i], TotalGrants(s), s.counter < s.cap);
    }
    HoldersAreEligible(s.requests);
    HoldersBounded(s);
  }

  /** A step that keeps everybody eligible: towards a full generation. */
  ghost predicate Climbs(t: State, acts: seq<Action>, u: State) {
    CanRun(t, acts) && Run(t, acts) == u && Inv(u) && u.cap == t.cap && EligibleIn(u) == EligibleIn(t)
  }

  lemma OneClimb(t: State, a: Action)
    requires Inv(t) && Enabled(t, a) && (EligibleOf(NextRequest(t, a)) == EligibleOf(t.requests[a.i]))
    ensures Climbs(t, [a], Next(t, a))
  {
    StepKeepsInv(t, a);
    SumUpdate(t.requests, a.i, NextRequest(t, a), EligibleOf);
    assert [a][1..] == [];
  }

  lemma ClimbsJoin(t: State, a: seq<Action>, u: State, b: seq<Action>, v: State)
    requires Climbs(t, a, u) && Climbs(u, b, v)
    ensures Climbs(t, a + b, v)
  {
    RunJoin(t, a, b);
  }

  /** A request at the head of the loop, or behind a load, acquires when nobody is backing out
      and there is room. */
  lemma AcquireNow(t: State, i: nat) returns (acts: seq<Action>, u: State)
    requires Inv(t) && i < |t.requests| && (t.requests[i].pc.Top? || t.requests[i].pc.Loaded?)
    requires Overshooters(t) == 0 && (t.cap <= 0 || Holders(t) < t.cap)
    ensures Climbs(t, acts, u) && Holders(u) == Holders(t) + 1 && Overshooters(u) == 0
  {
    assert Fine(t.requests[i], TotalGrants(t), t.counter < t.cap);
    if t.cap > 0 && t.requests[i].pc.Top? {
      OneClimb(t, Load(i));
      StepSums(t, Load(i));
      var v := Next(t, Load(i));
      var rest;
      rest, u := AddNow(v, i);
      ClimbsJoin(t, [Load(i)], v, rest, u);
      acts := [Load(i)] + rest;
    } else {
      acts, u := AddNow(t, i);
    }
  }

  lemma AddNow(t: State, i: nat) returns (acts: seq<Action>, u: State)
    requires Inv(t) && Enabled(t, Add(i)) && Overshooters(t) == 0 && (t.cap <= 0 || Holders(t) < t.cap)
    ensures Climbs(t, acts, u) && Holders(u) == Holders(t) + 1 && Overshooters(u) == 0
  {
    assert Fine(t.requests[i], TotalGrants(t), t.counter < t.cap);
    OneClimb(t, Add(i));
    StepSums(t, Add(i));
    acts, u := [Add(i)], Next(t, Add(i));
  }

  lemma BackOutNow(t: State, i: nat) returns (u: State)
    requires Inv(t) && i < |t.requests| && t.requests[i].pc.Overshot?
    ensures Climbs(t, [BackOut(i)], u) && Holders(u) == Holders(t) && Overshooters(u) == Overshooters(t) - 1
  {
    assert Fine(t.requests[i], TotalGrants(t), t.counter < t.cap);
    OneClimb(t, BackOut(i));
    StepSums(t, BackOut(i));
    u := Next(t, BackOut(i));
  }

  /** Somebody can still make a step towards a full generation, or it is full. */
  lemma FullOrNot(t: State)
    requires Inv(t)
    requires forall i :: 0 <= i < |t.requests| ==> !t.requests[i].pc.Overshot?
    requires (t.cap > 0 && Holders(t) >= t.cap) || forall i :: 0 <= i < |t.requests| ==> !t.requests[i].pc.Top? && !t.requests[i].pc.Loaded?
    ensures Holders(t) == Reach(t)
  {
    HeldWithinReach(t);
    if !(t.cap > 0 && Holders(t) >= t.cap) { OnlyHolders(t.requests); }
  }

  lemma {:induction false} OnlyHolders(rs: seq<Request>)
    requires forall i :: 0 <= i < |rs| ==> !rs[i].pc.Top? && !rs[i].pc.Loaded? && !rs[i].pc.Overshot?
    ensures Sum(rs, EligibleOf) <= Sum(rs, Holding)
  {
    if rs != [] { OnlyHolders(rs[1..]); }
  }

  lemma NobodyBacksOut(t: State)
    requires forall i :: 0 <= i < |t.requests| ==> !t.requests[i].pc.Overshot?
    ensures Overshooters(t) == 0
  {
    SumOfZeros(t.requests, BackingOut);
  }

  /** A generation can come to hold all it can reach. */
  lemma {:induction false} FillUp(t: State) returns (acts: seq<Action>, u: State)
    requires Inv(t)
    ensures Climbs(t, acts, u) && Holders(u) == Reach(t)
    decreases Reach(t) - Holders(t), Overshooters(t)
  {
    HeldWithinReach(t);
    OvershootersNonNegative(t);
    acts, u := [], t;
    var first, v := [], t;
    if i: nat :| i < |t.requests| && t.requests[i].pc.Overshot? {
      v := BackOutNow(t, i);
      first := [BackOut(i)];
    } else {
      NobodyBacksOut(t);
      if i: nat :| i < |t.requests| && (t.requests[i].pc.Top? || t.requests[i].pc.Loaded?) && (t.cap <= 0 || Holders(t) < t.cap) {
        first, v := AcquireNow(t, i);
      } else {
        FullOrNot(t);
        return;
      }
    }
    HeldWithinReach(v);
    OvershootersNonNegative(v);
    var rest;
    rest, u := FillUp(v);
    ClimbsJoin(t, first, v, rest, u);
    acts := first + rest;
  }

  /** Everybody is eligible at first. */
  lemma NewbornReach(s: State)
    requires Init(s)
    ensures EligibleIn(s) == |s.requests|
  {
    forall r | r in s.requests ensures EligibleOf(r) == 1 {
      var i :| 0 <= i < |s.requests| && s.requests[i] == r;
      assert IsFresh(r);
    }
    SumBounds(s.requests, EligibleOf, 1, 1);
  }

  // ---------------------------------------------------------------- the newest generation beside the others

  function Lift(acts: seq<Action>, k: nat): seq<FleetAction> {
    seq(|acts|, i requires 0 <= i < |acts| => Within(k, acts[i]))
  }

  /** Steps of one generation leave all others alone. */
  lemma {:induction false} LiftRuns(f: Fleet, k: nat, acts: seq<Action>, registry: set<string>)
    requires k < |f.engines| && CanRun(f.engines[k], acts)
    ensures FleetCanRun(f, Lift(acts, k), registry)
    ensures FleetRun(f, Lift(acts, k), registry) == Fleet(f.engines[k := Run(f.engines[k], acts)])
    decreases |acts|
  {
    var lifted := Lift(acts, k);
    if acts == [] {
      assert f.engines[k := f.engines[k]] == f.engines;
    } else {
      assert lifted[0] == Within(k, acts[0]) && lifted[1..] == Lift(acts[1..], k);
      LiftRuns(FleetNext(f, lifted[0], registry), k, acts[1..], registry);
    }
  }

  lemma {:induction false} FleetRunJoin(f: Fleet, a: seq<FleetAction>, b: seq<FleetAction>, registry: set<string>)
    requires FleetCanRun(f, a, registry) && FleetCanRun(FleetRun(f, a, registry), b, registry)
    ensures FleetCanRun(f, a + b, registry)
    ensures FleetRun(f, a + b, registry) == FleetRun(FleetRun(f, a, registry), b, registry)
    decreases |a|
  {
    if a == [] {
      Units(b);
    } else {
      assert (a + b)[0] == a[0] && (a + b)[1..] == a[1..] + b;
      FleetRunJoin(FleetNext(f, a[0], registry), a[1..], b, registry);
    }
  }

  /** Rebuild, and let the new engine fill up. */
  lemma RebuildAndFill(f: Fleet, cfg: PP.Config, name: string, arrivals: seq<Request>, registry: set<string>)
    returns (acts: seq<FleetAction>, g: Fleet)
    requires Installs(cfg, name, registry) && (forall r :: r in arrivals ==> IsFresh(r))
    requires 0 < EngineOf(cfg, name).cap <= |arrivals|
    ensures FleetCanRun(f, acts, registry) && FleetRun(f, acts, registry) == g
    ensures |g.engines| == |f.engines| + 1 && g.engines[..|f.engines|] == f.engines
    ensures var s := g.engines[|f.engines|]; s.cap == EngineOf(cfg, name).cap && Holders(s) == s.cap
  {
    var n, s := |f.engines|, Newborn(cfg, name, arrivals);
    var birth := [Rebuild(cfg, name, arrivals)];
    var f1 := FleetNext(f, birth[0], registry);
    assert birth[1..] == [] && FleetRun(f, birth, registry) == f1;
    InitInv(s);
    NewbornReach(s);
    var fill, full := FillUp(s);
    LiftRuns(f1, n, fill, registry);
    FleetRunJoin(f, birth, Lift(fill, n), registry);
    acts := birth + Lift(fill, n);
    g := Fleet(f1.engines[n := Run(s, fill)]);
  }

  /** A rebuild to be made: a configuration, the backend's name and the requests to come. */
  datatype Plan = Plan(cfg: PP.Config, name: string, arrivals: seq<Request>)

  predicate Feasible(p: Plan, registry: set<string>) {
    && Installs(p.cfg, p.name, registry) && (forall r :: r in p.arrivals ==> IsFresh(r))
    && 0 < EngineOf(p.cfg, p.name).cap <= |p.arrivals|
  }

  lemma OneMoreGeneration(f: Fleet, p: Plan, registry: set<string>) returns (acts: seq<FleetAction>, g: Fleet)
    requires Feasible(p, registry) && TotalHeld(f) == Sum(f.engines, CapOf)
    ensures FleetCanRun(f, acts, registry) && FleetRun(f, acts, registry) == g
    ensures |g.engines| == |f.engines| + 1 && g.engines[..|f.engines|] == f.engines
    ensures g.engines[|f.engines|].cap == EngineOf(p.cfg, p.name).cap
    ensures TotalHeld(g) == Sum(g.engines, CapOf)
  {
    acts, g := RebuildAndFill(f, p.cfg, p.name, p.arrivals, registry);
    var n := |f.engines|;
    assert g.engines == f.engines + [g.engines[n]];
    SumSnoc(f.engines, g.engines[n], Holders);
    SumSnoc(f.engines, g.engines[n], CapOf);
  }

  /** The caps of the planned rebuilds. */
  ghost predicate CapsAsPlanned(g: Fleet, plans: seq<Plan>, registry: set<string>) {
    && |g.engines| == |plans|
    && forall k :: 0 <= k < |plans| ==> Feasible(plans[k], registry) && g.engines[k].cap == EngineOf(plans[k].cfg, plans[k].name).cap
  }

  lemma PlannedSnoc(f: Fleet, g: Fleet, plans: seq<Plan>, registry: set<string>)
    requires plans != [] && Feasible(plans[|plans| - 1], registry)
    requires CapsAsPlanned(f, plans[..|plans| - 1], registry)
    requires |g.engines| == |plans| && g.engines[..|plans| - 1] == f.engines
    requires var p := plans[|plans| - 1]; g.engines[|plans| - 1].cap == EngineOf(p.cfg, p.name).cap
    ensures CapsAsPlanned(g, plans, registry)
  {
    var n := |plans| - 1;
    forall k | 0 <= k < n
      ensures Feasible(plans[k], registry) && g.engines[k].cap == EngineOf(plans[k].cfg, plans[k].name).cap
    {
      assert plans[..n][k] == plans[k] && f.engines[k] == g.engines[..n][k];
    }
  }

  /** The bound is exact: for every list of rebuilds there is a run, one rebuild after the
      other, in which every cap is exhausted, so that the slots held on the one backend are
      the sum of all caps. */
  lemma {:induction false} SumOfCapsAttained(plans: seq<Plan>, registry: set<string>)
    returns (acts: seq<FleetAction>, g: Fleet)
    requires forall k :: 0 <= k < |plans| ==> Feasible(plans[k], registry)
    ensures FleetCanRun(Fleet([]), acts, registry) && FleetRun(Fleet([]), acts, registry) == g
    ensures CapsAsPlanned(g, plans, registry) && TotalHeld(g) == Sum(g.engines, CapOf)
    decreases |plans|
  {
    if plans == [] {
      acts, g := [], Fleet([]);
    } else {
      var n := |plans| - 1;
      var before, f := SumOfCapsAttained(plans[..n], registry);
      var more;
      more, g := OneMoreGeneration(f, plans[n], registry);
      FleetRunJoin(Fleet([]), before, more, registry);
      acts := before + more;
      PlannedSnoc(f, g, plans, registry);
    }
  }

  /** What the configured limit means for a new engine: with a positive limit no run holds more
      slots, and with enough requests some run holds that many; without one all requests can
      hold a slot at once. */
  lemma ConfiguredLimitMeans(cfg: PP.Config, name: string, arrivals: seq<Request>)
    requires name in PP.EnabledNames(cfg) && forall r :: r in arrivals ==> IsFresh(r)
    ensures cfg.maxConcurrent > 0 ==>
              forall acts :: CanRun(Newborn(cfg, name, arrivals), acts) ==> Holders(Run(Newborn(cfg, name, arrivals), acts)) <= cfg.maxConcurrent
    ensures exists acts :: CanRun(Newborn(cfg, name, arrivals), acts) &&
              Holders(Run(Newborn(cfg, name, arrivals), acts)) ==
                if 0 < cfg.maxConcurrent < |arrivals| then cfg.maxConcurrent else |arrivals|
  {
    var s := Newborn(cfg, name, arrivals);
    forall acts | CanRun(s, acts) && cfg.maxConcurrent > 0 ensures Holders(Run(s, acts)) <= cfg.maxConcurrent {
      SlotSafety(s, acts);
    }
    InitInv(s);
    NewbornReach(s);
    var acts, u := FillUp(s);
    assert CanRun(s, acts) && Holders(Run(s, acts)) == Reach(s);
  }

  // ---------------------------------------------------------------- the most that can be held

  /** A run of steps of all generations, in any interleaving, without a further rebuild. */
  ghost predicate Continues(f: Fleet, acts: seq<FleetAction>, registry: set<string>) {
    FleetCanRun(f, acts, registry) && forall a :: a in acts ==> a.Within?
  }

  function FleetReach(f: Fleet): int { Sum(f.engines, Reach) }

  lemma {:induction false} SumHeldWithinReach(xs: seq<State>)
    requires forall k :: 0 <= k < |xs| ==> Inv(xs[k])
    ensures 0 <= Sum(xs, Holders) <= Sum(xs, Reach)
  {
    if xs != [] {
      HeldWithinReach(xs[0]);
      SumHeldWithinReach(xs[1..]);
    }
  }

  lemma ReachStep(f: Fleet, a: FleetAction, registry: set<string>)
    requires FleetInv(f) && FleetEnabled(f, a, registry) && a.Within?
    ensures FleetReach(FleetNext(f, a, registry)) <= FleetReach(f)
  {
    EligibleStep(f.engines[a.k], a.action);
    SumUpdate(f.engines, a.k, Next(f.engines[a.k], a.action), Reach);
  }

  lemma {:induction false} ReachBounds(f: Fleet, acts: seq<FleetAction>, registry: set<string>)
    requires FleetInv(f) && Continues(f, acts, registry)
    ensures TotalHeld(FleetRun(f, acts, registry)) <= FleetReach(f)
    decreases |acts|
  {
    if acts == [] {
      SumHeldWithinReach(f.engines);
    } else {
      var g := FleetNext(f, acts[0], registry);
      ReachStep(f, acts[0], registry);
      FleetStepKeepsInv(f, acts[0], registry);
      assert Continues(g, acts[1..], registry);
      ReachBounds(g, acts[1..], registry);
    }
  }

  /** The first `n` generations hold all they can reach, the others are as in `f`. */
  ghost predicate FilledUpTo(f: Fleet, g: Fleet, n: nat) {
    && n <= |f.engines| == |g.engines| && g.engines[n..] == f.engines[n..]
    && Sum(g.engines[..n], Holders) == Sum(f.engines[..n], Reach)
  }

  lemma FilledSnoc(f: Fleet, g: Fleet, n: nat, u: State)
    requires FilledUpTo(f, g, n) && n < |f.engines| && Holders(u) == Reach(f.engines[n])
    ensures FilledUpTo(f, Fleet(g.engines[n := u]), n + 1)
  {
    var h := g.engines[n := u];
    assert h[..n + 1] == g.engines[..n] + [u] && f.engines[..n + 1] == f.engines[..n] + [f.engines[n]];
    SumSnoc(g.engines[..n], u, Holders);
    SumSnoc(f.engines[..n], f.engines[n], Reach);
    assert h[n + 1..] == g.engines[n..][1..] && f.engines[n + 1..] == f.engines[n..][1..];
  }

  lemma {:induction false} FillFleet(f: Fleet, n: nat, registry: set<string>) returns (acts: seq<FleetAction>, g: Fleet)
    requires FleetInv(f) && n <= |f.engines|
    ensures Continues(f, acts, registry) && FleetRun(f, acts, registry) == g && FilledUpTo(f, g, n)
  {
    if n == 0 {
      acts, g := [], f;
    } else {
      var before, h := FillFleet(f, n - 1, registry);
      assert h.engines[n - 1] == h.engines[n - 1..][0] == f.engines[n - 1..][0] == f.engines[n - 1];
      var fill, u := FillUp(h.engines[n - 1]);
      LiftRuns(h, n - 1, fill, registry);
      FleetRunJoin(f, before, Lift(fill, n - 1), registry);
      FilledSnoc(f, h, n - 1, u);
      acts, g := before + Lift(fill, n - 1), Fleet(h.engines[n - 1 := u]);
    }
  }

  /** The exact maximum. From any reachable fleet, over all interleavings of all generations,
      the slots held on the backend never exceed the sum of what each generation can reach,
      and there is a run in which they are that sum. A generation can reach the number of its
      requests that hold a slot or have not been decided yet, but not more than its cap. */
  lemma MostHeld(f: Fleet, registry: set<string>)
    requires FleetInv(f)
    ensures forall acts :: Continues(f, acts, registry) ==> TotalHeld(FleetRun(f, acts, registry)) <= FleetReach(f)
    ensures exists acts :: Continues(f, acts, registry) && TotalHeld(FleetRun(f, acts, registry)) == FleetReach(f)
  {
    forall acts | Continues(f, acts, registry) ensures TotalHeld(FleetRun(f, acts, registry)) <= FleetReach(f) {
      ReachBounds(f, acts, registry);
    }
    var n := |f.engines|;
    var acts, g := FillFleet(f, n, registry);
    assert g.engines[..n] == g.engines && f.engines[..n] == f.engines;
    assert Continues(f, acts, registry) && TotalHeld(FleetRun(f, acts, registry)) == FleetReach(f);
  }

  /** An earlier generation that can still hold a slot. */
  ghost predicate SomeEligible(engines: seq<State>) {
    exists k, i :: 0 <= k < |engines| && 0 <= i < |engines[k].requests| && Eligible(engines[k].requests[i])
  }

  lemma {:induction false} EligiblePositive(rs: seq<Request>)
    ensures Sum(rs, EligibleOf) >= 0
    ensures Sum(rs, EligibleOf) > 0 <==> exists i :: 0 <= i < |rs| && Eligible(rs[i])
  {
    if rs != [] {
      EligiblePositive(rs[1..]);
      if i :| 0 <= i < |rs[1..]| && Eligible(rs[1..][i]) { assert Eligible(rs[i + 1]); }
      if i :| 0 <= i < |rs| && Eligible(rs[i]) {
        if i > 0 { assert rs[1..][i - 1] == rs[i]; }
      }
    }
  }

  lemma {:induction false} ReachPositive(engines: seq<State>)
    ensures Sum(engines, Reach) >= 0
    ensures Sum(engines, Reach) > 0 <==> SomeEligible(engines)
  {
    if engines != [] {
      var rest := engines[1..];
      ReachPositive(rest);
      EligiblePositive(engines[0].requests);
      if SomeEligible(rest) {
        var k, i :| 0 <= k < |rest| && 0 <= i < |rest[k].requests| && Eligible(rest[k].requests[i]);
        assert engines[k + 1] == rest[k];
      }
      if SomeEligible(engines) {
        var k, i :| 0 <= k < |engines| && 0 <= i < |engines[k].requests| && Eligible(engines[k].requests[i]);
        if k > 0 { assert rest[k - 1] == engines[k]; }
      }
    }
  }

  /** Some run of all generations holds more slots than the newest cap allows. */
  ghost predicate CanBreakCap(f: Fleet, registry: set<string>)
    requires f.engines != []
  {
    exists acts :: Continues(f, acts, registry) && TotalHeld(FleetRun(f, acts, registry)) > f.engines[|f.engines| - 1].cap
  }

  lemma BreaksWhenReachExceeds(f: Fleet, registry: set<string>)
    requires FleetInv(f) && f.engines != []
    ensures CanBreakCap(f, registry) <==> FleetReach(f) > f.engines[|f.engines| - 1].cap
  {
    MostHeld(f, registry);
  }

  lemma ReachWithNewborn(engines: seq<State>, n: nat)
    requires n + 1 == |engines| && Init(engines[n]) && 0 < engines[n].cap <= |engines[n].requests|
    ensures Sum(engines, Reach) == Sum(engines[..n], Reach) + engines[n].cap
  {
    NewbornReach(engines[n]);
    assert engines == engines[..n] + [engines[n]];
    SumSnoc(engines[..n], engines[n], Reach);
  }

  /** When a rebuild can break the cap: with enough requests to come for the new object, the
      slots held on the backend can pass its cap if and only if some request of an earlier
      object holds a slot or is still at its acquire loop. */
  lemma CapBrokenIff(f: Fleet, registry: set<string>)
    requires FleetInv(f) && f.engines != []
    requires var s := f.engines[|f.engines| - 1]; Init(s) && 0 < s.cap <= |s.requests|
    ensures CanBreakCap(f, registry) <==> SomeEligible(f.engines[..|f.engines| - 1])
  {
    var n := |f.engines| - 1;
    BreaksWhenReachExceeds(f, registry);
    ReachWithNewborn(f.engines, n);
    ReachPositive(f.engines[..n]);
  }
}
