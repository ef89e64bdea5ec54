/** The local slot protocol: `tryInFlightAcquire` and the request paths that own the
    acquired slot (internal/adapter/fusion_mlx.go, internal/adapter/local_slot.go).

    The model is a transition system over any number of concurrent requests. Every
    atomic operation on the shared counter is one step, and steps of different requests
    interleave freely. A request is a caller goroutine plus, for streams, a pump
    goroutine that takes over the release closure. */
module LocalSlots {
  import opened Prelude

  /** The request paths that acquire a slot: the typed provider's methods, and the two
      methods of the local-slot wrapper. */
  datatype Kind =
    | Chat | Messages | Embedding | Rerank | StreamChat | StreamMessages
    | SlotChat | SlotStreamChat

  predicate Streams(kind: Kind) {
    kind.StreamChat? || kind.StreamMessages? || kind.SlotStreamChat?
  }

  /** How many fallible stages a request passes while its caller owns the slot:
      marshal, build request, send, status, and decode for the unary paths; the
      wrapper has one, the call of the inner provider. */
  function Stages(kind: Kind): nat {
    match kind
    case Chat | Messages | Embedding | Rerank => 5
    case StreamChat | StreamMessages => 4
    case SlotChat | SlotStreamChat => 1
  }

  /** Where the pump goroutine of a stream stands: reading the body, at a send that the
      context can end, at the plain send of [DONE], or on its way to the deferred release.
      For the wrapper the pump is its forwarder, and reading is receiving from the inner
      channel. */
  datatype Pump = NoPump | Reading | Sending | AtDone | Exiting

  /** The channel between a pump and its consumer, and the context they share. */
  datatype Stream = Stream(pump: Pump, capacity: nat, buffered: nat, consumer: bool, cancelled: bool)

  /** The typed provider makes channels of 64; the wrapper copies a capacity and never uses zero. */
  predicate CapacityOf(kind: Kind, capacity: nat) {
    if kind.SlotStreamChat? then capacity > 0 else capacity == 64
  }

  datatype StreamMove =
    | ReadItem        // the body delivers a payload to send
    | ReadDone        // the body delivers [DONE]; only parseSSEStream forwards it
    | ReadEnd         // the body ends, fails or is cut off, or [DONE] just ends the stream
    | SendItem        // the channel takes the payload
    | StopSend        // the send gives way to the cancelled context
    | SendDone        // the channel takes [DONE]
    | Consume         // the handler takes a chunk
    | ConsumerLeaves  // the handler returns without draining the channel
    | CancelContext   // the request context is cancelled

  predicate MoveEnabled(kind: Kind, st: Stream, m: StreamMove) {
    match m
    case ReadItem => st.pump.Reading?
    case ReadDone => st.pump.Reading? && kind.StreamChat?
    case ReadEnd => st.pump.Reading?
    case SendItem => st.pump.Sending? && st.buffered < st.capacity
    case StopSend => st.pump.Sending? && st.cancelled
    case SendDone => st.pump.AtDone? && st.buffered < st.capacity
    case Consume => st.consumer && st.buffered > 0
    case ConsumerLeaves => st.consumer
    case CancelContext => !st.cancelled
  }

  function AfterMove(st: Stream, m: StreamMove): Stream
    requires m.Consume? ==> st.buffered > 0
  {
    match m
    case ReadItem => st.(pump := Sending)
    case ReadDone => st.(pump := AtDone)
    case ReadEnd => st.(pump := Exiting)
    case SendItem => st.(pump := Reading, buffered := st.buffered + 1)
    case StopSend => st.(pump := Exiting)
    case SendDone => st.(pump := Exiting, buffered := st.buffered + 1)
    case Consume => st.(buffered := st.buffered - 1)
    case ConsumerLeaves => st.(consumer := false)
    case CancelContext => st.(cancelled := true)
  }

  /** Where the caller stands. `Top` is the head of the acquire loop; `Overshot` is
      between the increment that passed the cap and the decrement that backs out;
      `Leaving` is after the return statement and before the deferred release. */
  datatype Pc = Top | Loaded | Overshot | Rejected | Working(stage: nat) | Leaving | Gone

  /** One request. `callerHolds` and `pumpHolds` are the two variables that can hold the
      release closure. The remaining fields are history: how often the request was
      granted, released, retried and stepped, and the number of grants in the whole
      system when it first loaded and when it last loaded the counter. */
  datatype Request = Request(
    kind: Kind, pc: Pc, callerHolds: bool, pumpHolds: bool, stream: Stream,
    grants: nat, releases: nat, retries: nat, steps: nat,
    seenAtStart: nat, seenAtLoad: nat)

  datatype State = State(cap: int, counter: int, requests: seq<Request>)

  datatype Action =
    | Load(i: nat)      // counter.Load, with the full test
    | Add(i: nat)       // counter.Add(1), with the re-check
    | BackOut(i: nat)   // counter.Add(-1) after an overshoot, then retry
    | Advance(i: nat)   // one fallible stage succeeds
    | Fail(i: nat)      // one fallible stage fails: return an error
    | Finish(i: nat)    // unary: return the result; stream: hand the slot to the pump
    | Return(i: nat)    // the caller's deferred release, when it still owns the slot
    | Move(i: nat, move: StreamMove)  // one step of a stream
    | PumpExit(i: nat)  // the pump's deferred release, on every way out of the pump
    | Cancel(i: nat)    // FusionMLXProvider.Cancel

  function Fresh(kind: Kind, capacity: nat): Request {
    Request(kind, Top, false, false, Stream(NoPump, capacity, 0, true, false), 0, 0, 0, 0, 0, 0)
  }

  predicate IsFresh(r: Request) {
    r == Fresh(r.kind, r.stream.capacity) && CapacityOf(r.kind, r.stream.capacity)
  }

  /** A fresh provider: counter zero, every request about to acquire. */
  ghost predicate Init(s: State) {
    && s.counter == 0
    && forall i :: 0 <= i < |s.requests| ==> IsFresh(s.requests[i])
  }

  function Holding(r: Request): int {
    (if r.callerHolds then 1 else 0) + (if r.pumpHolds then 1 else 0)
  }

  function BackingOut(r: Request): int { if r.pc.Overshot? then 1 else 0 }

  function GrantsOf(r: Request): int { r.grants }

  function StepsOf(r: Request): int { r.steps }

  /** Slots owned by some caller or pump. */
  function Holders(s: State): int { Sum(s.requests, Holding) }

  /** Requests between an overshooting increment and its decrement. */
  function Overshooters(s: State): int { Sum(s.requests, BackingOut) }

  function TotalGrants(s: State): int { Sum(s.requests, GrantsOf) }

  predicate Enabled(s: State, a: Action) {
    && a.i < |s.requests|
    && var r := s.requests[a.i];
       match a
       case Load(_) => s.cap > 0 && r.pc.Top?
       case Add(_) => r.pc.Loaded? || (s.cap <= 0 && r.pc.Top?)
       case BackOut(_) => r.pc.Overshot?
       case Advance(_) => r.pc.Working? && r.pc.stage < Stages(r.kind)
       case Fail(_) => r.pc.Working? && r.pc.stage < Stages(r.kind)
       case Finish(_) => r.pc.Working? && r.pc.stage == Stages(r.kind)
       case Return(_) => r.pc.Leaving?
       case Move(_, m) => MoveEnabled(r.kind, r.stream, m)
       case PumpExit(_) => r.pumpHolds && r.stream.pump.Exiting?
       case Cancel(_) => true
  }

  /** Whether an enabled action hands out a slot. */
  predicate Grants(s: State, a: Action) {
    a.Add? && (s.cap <= 0 || s.counter + 1 <= s.cap)
  }

  /** The request after an action of its own. */
  function NextRequest(s: State, a: Action): (r': Request)
    requires Enabled(s, a)
  {
    var r := s.requests[a.i].(steps := s.requests[a.i].steps + 1);
    match a
    case Load(_) =>
      var total := TotalGrants(s);
      var seen := if total < 0 then 0 else total;
      var r1 := r.(seenAtLoad := seen, seenAtStart := if r.steps == 1 then seen else r.seenAtStart);
      if s.counter >= s.cap then r1.(pc := Rejected) else r1.(pc := Loaded)
    case Add(_) =>
      if Grants(s, a) then r.(pc := Working(0), callerHolds := true, grants := r.grants + 1)
      else r.(pc := Overshot)
    case BackOut(_) => r.(pc := Top, retries := r.retries + 1)
    case Advance(_) => r.(pc := Working(r.pc.stage + 1))
    case Fail(_) => r.(pc := Leaving)
    case Finish(_) =>
      if Streams(r.kind) then
        r.(pc := Leaving, callerHolds := false, pumpHolds := true, stream := r.stream.(pump := Reading))
      else r.(pc := Leaving)
    case Return(_) =>
      if r.callerHolds then r.(pc := Gone, callerHolds := false, releases := r.releases + 1)
      else r.(pc := Gone)
    case Move(_, m) => s.requests[a.i].(stream := AfterMove(r.stream, m))
    case PumpExit(_) => r.(pumpHolds := false, releases := r.releases + 1, stream := r.stream.(pump := NoPump))
    case Cancel(_) => s.requests[a.i]
  }

  /** The effect of an action on the shared counter. */
  function CounterDelta(s: State, a: Action): int
    requires Enabled(s, a)
  {
    match a
    case Add(_) => 1
    case BackOut(_) => -1
    case Return(_) => if s.requests[a.i].callerHolds then -1 else 0
    case PumpExit(_) => -1
    case _ => 0
  }

  function Next(s: State, a: Action): (s': State)
    requires Enabled(s, a)
  {
    s.(counter := s.counter + CounterDelta(s, a),
       requests := s.requests[a.i := NextRequest(s, a)])
  }

  // ---------------------------------------------------------------- runs

  predicate CanRun(s: State, acts: seq<Action>)
    decreases |acts|
  {
    acts == [] || (Enabled(s, acts[0]) && CanRun(Next(s, acts[0]), acts[1..]))
  }

  function Run(s: State, acts: seq<Action>): (t: State)
    requires CanRun(s, acts)
    decreases |acts|
  {
    if acts == [] then s else Run(Next(s, acts[0]), acts[1..])
  }

  /** The actions that acquire, work and release, as opposed to what happens inside a stream. */
  predicate Counted(a: Action) { !a.Cancel? && !a.Move? }

  function Effective(acts: seq<Action>): nat {
    if acts == [] then 0 else (if Counted(acts[0]) then 1 else 0) + Effective(acts[1..])
  }

  // ---------------------------------------------------------------- the invariant

  /** Ownership: the two release variables, the grant and release counts and the
      program counter agree. */
  predicate Owned(r: Request) {
    && !(r.callerHolds && r.pumpHolds)
    && r.grants == Holding(r) + r.releases
    && r.grants <= 1
    && match r.pc
       case Top | Loaded | Overshot | Rejected => r.grants == 0
       case Working(k) => r.callerHolds && k <= Stages(r.kind)
       case Leaving => r.grants == 1
       case Gone => r.grants == 1 && !r.callerHolds
  }

  /** A stream belongs to the pump that owns the slot, and only one request path forwards [DONE]. */
  predicate StreamOk(r: Request) {
    && (r.pumpHolds <==> !r.stream.pump.NoPump?)
    && (r.stream.pump.AtDone? ==> r.kind.StreamChat?)
    && CapacityOf(r.kind, r.stream.capacity) && r.stream.buffered <= r.stream.capacity
  }

  /** The history accounting behind the progress argument. `total` is the number of
      grants so far and `room` says that the counter is below the cap. */
  predicate Accounted(r: Request, total: int, room: bool) {
    && r.seenAtStart + r.retries <= total - r.grants
    && (r.steps == 0 ==> r.retries == 0 && r.pc.Top?)
    && match r.pc
       case Top => r.steps == 3 * r.retries
       case Loaded =>
         && r.steps == 3 * r.retries + 1
         && r.seenAtStart + r.retries <= r.seenAtLoad <= total
         && (r.seenAtLoad == total ==> room)
       case Overshot => r.steps == 3 * r.retries + 2 && r.seenAtStart + r.retries + 1 <= total
       case Rejected => r.steps == 3 * r.retries + 1
       case Working(k) => r.steps <= 3 * r.retries + 2 + k
       case Leaving => r.steps + (if r.pumpHolds then 1 else 0) <= 3 * r.retries + Stages(r.kind) + 4
       case Gone => r.steps + (if r.pumpHolds then 1 else 0) <= 3 * r.retries + Stages(r.kind) + 5
  }

  ghost predicate Inv(s: State) {
    && s.counter == Holders(s) + Overshooters(s)
    && (s.cap > 0 ==> Holders(s) <= s.cap)
    && (s.cap <= 0 ==> forall i :: 0 <= i < |s.requests| ==> !s.requests[i].pc.Loaded? && !s.requests[i].pc.Overshot?)
    && forall i :: 0 <= i < |s.requests| ==> Fine(s.requests[i], TotalGrants(s), s.counter < s.cap)
  }

  /** What the invariant says of one request. */
  predicate Fine(r: Request, total: int, room: bool) { Owned(r) && StreamOk(r) && Accounted(r, total, room) }

  lemma {:induction false} SumOfZeros(rs: seq<Request>, weight: Request -> int)
    requires forall r :: r in rs ==> weight(r) == 0
    ensures Sum(rs, weight) == 0
  {
    SumBounds(rs, weight, 0, 0);
  }

  lemma InitInv(s: State)
    requires Init(s)
    ensures Inv(s)
  {
    NothingYet(s);
    forall i | 0 <= i < |s.requests| ensures Fine(s.requests[i], 0, s.counter < s.cap) && s.requests[i].pc.Top? {
      FreshIsFine(s.requests[i], s.counter < s.cap);
    }
  }

  lemma FreshIsFine(r: Request, room: bool)
    requires IsFresh(r)
    ensures Fine(r, 0, room) && r.pc.Top?
    ensures Holding(r) == 0 && BackingOut(r) == 0 && GrantsOf(r) == 0 && StepsOf(r) == 0
  {
  }

  lemma NothingYet(s: State)
    requires Init(s)
    ensures Holders(s) == 0 && Overshooters(s) == 0 && TotalGrants(s) == 0 && Sum(s.requests, StepsOf) == 0
  {
    forall r | r in s.requests ensures Holding(r) == 0 && BackingOut(r) == 0 && GrantsOf(r) == 0 && StepsOf(r) == 0 {
      var i :| 0 <= i < |s.requests| && s.requests[i] == r;
      FreshIsFine(r, true);
    }
    SumOfZeros(s.requests, Holding);
    SumOfZeros(s.requests, BackingOut);
    SumOfZeros(s.requests, GrantsOf);
    SumOfZeros(s.requests, StepsOf);
  }

  /** How one action moves the three sums. */
  lemma StepSums(s: State, a: Action)
    requires Enabled(s, a)
    ensures var s' := Next(s, a);
            var r, r' := s.requests[a.i], s'.requests[a.i];
            && Holders(s') == Holders(s) - Holding(r) + Holding(r')
            && Overshooters(s') == Overshooters(s) - BackingOut(r) + BackingOut(r')
            && TotalGrants(s') == TotalGrants(s) - r.grants + r'.grants
  {
    var r' := NextRequest(s, a);
    SumUpdate(s.requests, a.i, r', Holding);
    SumUpdate(s.requests, a.i, r', BackingOut);
    SumUpdate(s.requests, a.i, r', GrantsOf);
  }

  lemma OvershootersNonNegative(s: State)
    ensures 0 <= Overshooters(s) <= |s.requests|
  {
    SumBounds(s.requests, BackingOut, 0, 1);
  }

  lemma StepKeepsOwned(s: State, a: Action)
    requires Enabled(s, a) && Owned(s.requests[a.i])
    ensures Owned(NextRequest(s, a))
  {
  }

  lemma StepKeepsStream(s: State, a: Action)
    requires Enabled(s, a) && Owned(s.requests[a.i]) && StreamOk(s.requests[a.i])
    ensures StreamOk(NextRequest(s, a))
  {
  }

  /** The acting request keeps its accounting. */
  lemma StepKeepsAccounted(s: State, a: Action)
    requires Inv(s) && Enabled(s, a)
    ensures var s' := Next(s, a);
            Accounted(NextRequest(s, a), TotalGrants(s'), s'.counter < s'.cap)
  {
    var r := s.requests[a.i];
    assert Fine(r, TotalGrants(s), s.counter < s.cap);
    StepSums(s, a);
    GrantsNonNegative(s);
  }

  lemma GrantsNonNegative(s: State)
    ensures TotalGrants(s) >= 0
  {
    GrantsBelow(s.requests);
  }

  lemma {:induction false} GrantsBelow(rs: seq<Request>)
    ensures Sum(rs, GrantsOf) >= 0
  {
    if rs != [] { GrantsBelow(rs[1..]); }
  }

  /** So do all others: more grants only help, and room is lost only by a grant. */
  lemma OthersKeepFine(s: State, a: Action, i: nat)
    requires Inv(s) && Enabled(s, a) && i < |s.requests| && i != a.i
    ensures var s' := Next(s, a);
            s'.requests[i] == s.requests[i] && Fine(s'.requests[i], TotalGrants(s'), s'.counter < s'.cap)
  {
    StepSums(s, a);
    assert Fine(s.requests[i], TotalGrants(s), s.counter < s.cap);
    assert Fine(s.requests[a.i], TotalGrants(s), s.counter < s.cap);
  }

  lemma ActorKeepsFine(s: State, a: Action)
    requires Inv(s) && Enabled(s, a)
    ensures var s' := Next(s, a); Fine(s'.requests[a.i], TotalGrants(s'), s'.counter < s'.cap)
  {
    assert Fine(s.requests[a.i], TotalGrants(s), s.counter < s.cap);
    StepKeepsOwned(s, a);
    StepKeepsStream(s, a);
    StepKeepsAccounted(s, a);
  }

  /** The counter moves with the sums, and a grant needs room. */
  lemma StepKeepsCount(s: State, a: Action)
    requires Inv(s) && Enabled(s, a)
    ensures var s' := Next(s, a);
            && s'.counter == Holders(s') + Overshooters(s')
            && (s'.cap > 0 ==> Holders(s') <= s'.cap)
            && (s'.cap <= 0 ==> !s'.requests[a.i].pc.Loaded? && !s'.requests[a.i].pc.Overshot?)
  {
    assert Fine(s.requests[a.i], TotalGrants(s), s.counter < s.cap);
    StepSums(s, a);
    OvershootersNonNegative(s);
  }

  lemma StepKeepsInv(s: State, a: Action)
    requires Inv(s) && Enabled(s, a)
    ensures Inv(Next(s, a))
  {
    var s' := Next(s, a);
    StepKeepsCount(s, a);
    forall i | 0 <= i < |s'.requests| ensures Fine(s'.requests[i], TotalGrants(s'), s'.counter < s'.cap) {
      if i == a.i { ActorKeepsFine(s, a); } else { OthersKeepFine(s, a, i); }
    }
  }

  lemma {:induction false} RunKeepsInv(s: State, acts: seq<Action>)
    requires Inv(s) && CanRun(s, acts)
    ensures Inv(Run(s, acts))
    ensures Run(s, acts).cap == s.cap && |Run(s, acts).requests| == |s.requests|
    decreases |acts|
  {
    if acts != [] {
      StepKeepsInv(s, acts[0]);
      RunKeepsInv(Next(s, acts[0]), acts[1..]);
    }
  }

  // ---------------------------------------------------------------- safety

  /** For every run of every number of requests: the counter is the number of owned
      slots plus the number of requests about to back out, it is never negative and never
      exceeds the number of requests, and the owned slots never exceed a positive cap. */
  lemma SlotSafety(s: State, acts: seq<Action>)
    requires Init(s) && CanRun(s, acts)
    ensures var t := Run(s, acts);
            && t.counter == Holders(t) + Overshooters(t)
            && 0 <= t.counter <= |s.requests|
            && 0 <= Holders(t)
            && (s.cap > 0 ==> Holders(t) <= s.cap)
  {
    InitInv(s);
    RunKeepsInv(s, acts);
    var t := Run(s, acts);
    OvershootersNonNegative(t);
    HoldersBounded(t);
    HoldingOrBackingOut(t.requests);
  }

  lemma HoldersBounded(t: State)
    requires Inv(t)
    ensures 0 <= Holders(t) <= |t.requests|
  {
    forall r | r in t.requests ensures 0 <= Holding(r) <= 1 {
      var i :| 0 <= i < |t.requests| && t.requests[i] == r;
      assert Owned(r);
    }
    SumBounds(t.requests, Holding, 0, 1);
  }

  lemma {:induction false} HoldingOrBackingOut(rs: seq<Request>)
    requires forall i :: 0 <= i < |rs| ==> Owned(rs[i])
    ensures Sum(rs, Holding) + Sum(rs, BackingOut) <= |rs|
  {
    if rs != [] {
      assert Owned(rs[0]);
      HoldingOrBackingOut(rs[1..]);
    }
  }

  /** When a load refuses a request: exactly when owned slots and requests backing out
      together reach the cap. With nobody backing out that means exactly full. */
  lemma RejectionIffFull(s: State, acts: seq<Action>, i: nat)
    requires Init(s) && CanRun(s, acts) && Enabled(Run(s, acts), Load(i))
    ensures var t := Run(s, acts);
            var refused := Next(t, Load(i)).requests[i].pc.Rejected?;
            && (refused <==> Holders(t) + Overshooters(t) >= t.cap)
            && (Overshooters(t) == 0 ==> (refused <==> Holders(t) == t.cap))
  {
    InitInv(s);
    RunKeepsInv(s, acts);
  }

  /** Three requests under cap 1: the first may own the slot, the third has not started. */
  predicate Shape(t: State, counter: int, first: Pc, second: Pc, owned: bool) {
    && t.cap == 1 && t.counter == counter && |t.requests| == 3
    && t.requests[0].pc == first && t.requests[1].pc == second && t.requests[2].pc == Top
    && t.requests[0].callerHolds == owned && !t.requests[1].callerHolds && !t.requests[2].callerHolds
    && forall j :: 0 <= j < 3 ==> !t.requests[j].pumpHolds
  }

  lemma BothLoad(s: State)
    requires Shape(s, 0, Top, Top, false)
    ensures Enabled(s, Load(0)) && Enabled(Next(s, Load(0)), Load(1))
    ensures Shape(Next(Next(s, Load(0)), Load(1)), 0, Loaded, Loaded, false)
  {
  }

  lemma BothAdd(s: State)
    requires Shape(s, 0, Loaded, Loaded, false)
    ensures Enabled(s, Add(0)) && Enabled(Next(s, Add(0)), Add(1))
    ensures Shape(Next(Next(s, Add(0)), Add(1)), 2, Working(0), Overshot, true)
  {
  }

  lemma FirstFails(s: State)
    requires Shape(s, 2, Working(0), Overshot, true)
    ensures Enabled(s, Fail(0)) && Enabled(Next(s, Fail(0)), Return(0))
    ensures Shape(Next(Next(s, Fail(0)), Return(0)), 1, Gone, Overshot, false)
  {
  }

  /** A refusal does not always mean that the slots are in use: with cap 1, two requests
      that both loaded zero, an overshoot and a release leave the counter at one with no
      slot owned, and a third request is refused. */
  lemma RefusedWithAllSlotsFree(s: State) returns (acts: seq<Action>)
    requires Init(s) && s.cap == 1 && |s.requests| == 3
    ensures CanRun(s, acts)
    ensures Enabled(Run(s, acts), Load(2))
    ensures Next(Run(s, acts), Load(2)).requests[2].pc.Rejected?
    ensures Holders(Run(s, acts)) == 0
  {
    BothLoad(s);
    var s2 := Next(Next(s, Load(0)), Load(1));
    BothAdd(s2);
    var s4 := Next(Next(s2, Add(0)), Add(1));
    FirstFails(s4);
    var s6 := Next(Next(s4, Fail(0)), Return(0));
    acts := TwoSteps(s4, Fail(0), Return(0), []);
    acts := TwoSteps(s2, Add(0), Add(1), acts);
    acts := TwoSteps(s, Load(0), Load(1), acts);
    ThirdIsRefused(s6);
  }

  lemma ThirdIsRefused(s: State)
    requires Shape(s, 1, Gone, Overshot, false)
    ensures Enabled(s, Load(2)) && Next(s, Load(2)).requests[2].pc.Rejected? && Holders(s) == 0
  {
    SumOfZeros(s.requests, Holding);
  }

  lemma TwoSteps(s: State, a: Action, b: Action, rest: seq<Action>) returns (acts: seq<Action>)
    requires Enabled(s, a) && Enabled(Next(s, a), b) && CanRun(Next(Next(s, a), b), rest)
    ensures CanRun(s, acts) && Run(s, acts) == Run(Next(Next(s, a), b), rest)
  {
    acts := [a, b] + rest;
    assert acts[0] == a && acts[1..] == [b] + rest && acts[1..][0] == b && acts[1..][1..] == rest;
  }

  // ---------------------------------------------------------------- progress

  /** While nobody is granted a slot, a counter below the cap stays below the cap. */
  lemma {:induction false} NoGrantKeepsRoom(s: State, acts: seq<Action>)
    requires CanRun(s, acts) && s.cap > 0 && s.counter < s.cap
    requires forall k :: 0 <= k < |acts| ==> CanRun(s, acts[..k]) && !Grants(Run(s, acts[..k]), acts[k])
    ensures Run(s, acts).counter < s.cap && Run(s, acts).cap == s.cap
    decreases |acts|
  {
    if acts != [] {
      assert acts[..0] == [] && !Grants(s, acts[0]);
      var s1 := Next(s, acts[0]);
      var rest := acts[1..];
      forall k | 0 <= k < |rest|
        ensures CanRun(s1, rest[..k]) && !Grants(Run(s1, rest[..k]), rest[k])
      {
        assert acts[..k + 1][1..] == rest[..k] && acts[..k + 1][0] == acts[0];
        assert CanRun(s, acts[..k + 1]) && !Grants(Run(s, acts[..k + 1]), acts[k + 1]);
      }
      NoGrantKeepsRoom(s1, rest);
    }
  }

  lemma {:induction false} PrefixRuns(s: State, acts: seq<Action>, k: nat)
    requires CanRun(s, acts) && k <= |acts|
    ensures CanRun(s, acts[..k])
    decreases k
  {
    if k > 0 {
      assert acts[..k][1..] == acts[1..][..k - 1];
      PrefixRuns(Next(s, acts[0]), acts[1..], k - 1);
    }
  }

  /** Every overshoot is paid for by somebody else's success: when a request loads, other
      requests then act, and its own increment overshoots, one of those actions of other
      requests was granted a slot. */
  lemma {:induction false} OvershootImpliesOtherGrant(s: State, i: nat, acts: seq<Action>)
    requires Enabled(s, Load(i)) && Next(s, Load(i)).requests[i].pc.Loaded?
    requires CanRun(Next(s, Load(i)), acts)
    requires forall k :: 0 <= k < |acts| ==> acts[k].i != i
    requires var t := Run(Next(s, Load(i)), acts); Enabled(t, Add(i)) && !Grants(t, Add(i))
    ensures exists k :: 0 <= k < |acts| && acts[k].i != i &&
                        CanRun(Next(s, Load(i)), acts[..k]) &&
                        Grants(Run(Next(s, Load(i)), acts[..k]), acts[k])
  {
    var s1 := Next(s, Load(i));
    forall k | 0 <= k < |acts| ensures CanRun(s1, acts[..k]) { PrefixRuns(s1, acts, k); }
    if forall k :: 0 <= k < |acts| ==> !Grants(Run(s1, acts[..k]), acts[k]) {
      NoGrantKeepsRoom(s1, acts);
      assert false;
    }
  }

  /** In every run, a request's retries are at most the grants made to other requests
      since it first loaded the counter. */
  lemma RetriesBoundedByOtherGrants(s: State, acts: seq<Action>, i: nat)
    requires Init(s) && CanRun(s, acts) && i < |s.requests|
    ensures var t := Run(s, acts);
            && i < |t.requests|
            && t.requests[i].retries <= TotalGrants(t) - t.requests[i].grants - t.requests[i].seenAtStart
  {
    InitInv(s);
    RunKeepsInv(s, acts);
  }

  /** The retry loops cannot run forever: with n requests every run has at most
      n * (3n + 7) steps that acquire, work or release, whatever the streams do. */
  lemma RunsTerminate(s: State, acts: seq<Action>)
    requires Init(s) && CanRun(s, acts)
    ensures var n := |s.requests|; Effective(acts) <= (3 * n + 7) * n
  {
    InitInv(s);
    RunKeepsInv(s, acts);
    NothingYet(s);
    StepsAreCounted(s, acts);
    AllStepsBounded(Run(s, acts));
  }

  lemma AllStepsBounded(t: State)
    requires Inv(t)
    ensures var n := |t.requests|; 0 <= Sum(t.requests, StepsOf) <= (3 * n + 7) * n
  {
    var n := |t.requests|;
    forall r | r in t.requests ensures 0 <= StepsOf(r) <= 3 * n + 7 {
      var i :| 0 <= i < |t.requests| && t.requests[i] == r;
      StepsBounded(t, i);
    }
    SumBounds(t.requests, StepsOf, 0, 3 * n + 7);
  }

  lemma StepsBounded(t: State, i: nat)
    requires Inv(t) && i < |t.requests|
    ensures t.requests[i].steps <= 3 * |t.requests| + 7
  {
    var r := t.requests[i];
    assert Accounted(r, TotalGrants(t), t.counter < t.cap) && Owned(r);
    SumBounds(t.requests, GrantsOf, 0, 1);
    assert r.retries + r.grants <= |t.requests|;
  }

  lemma {:induction false} StepsAreCounted(s: State, acts: seq<Action>)
    requires CanRun(s, acts)
    ensures Sum(Run(s, acts).requests, StepsOf) == Sum(s.requests, StepsOf) + Effective(acts)
    decreases |acts|
  {
    if acts != [] {
      SumUpdate(s.requests, acts[0].i, NextRequest(s, acts[0]), StepsOf);
      StepsAreCounted(Next(s, acts[0]), acts[1..]);
    }
  }

  // ---------------------------------------------------------------- exactly-once release

  /** Nothing left to do for a request. */
  predicate Ended(r: Request) {
    r.pc.Rejected? || (r.pc.Gone? && !r.pumpHolds)
  }

  /** In every run no request is granted or released twice or released without a grant; a
      request that has ended was released exactly as often as it was granted, and that is
      once unless it was refused. */
  lemma ReleasedExactlyOnce(s: State, acts: seq<Action>, i: nat)
    requires Init(s) && CanRun(s, acts) && i < |s.requests|
    ensures var t := Run(s, acts);
            && i < |t.requests|
            && var r := t.requests[i];
               && r.releases <= r.grants <= 1
               && (Ended(r) ==> r.releases == r.grants == if r.pc.Rejected? then 0 else 1)
  {
    InitInv(s);
    RunKeepsInv(s, acts);
    assert Owned(Run(s, acts).requests[i]);
  }

  /** Who gives the slot back: when the last stage of a stream succeeds, the pump owns the slot,
      the counter stays, and the caller's return releases nothing; on every other way out, of a
      unary request or of a stream that failed, it is the caller's return that releases. */
  lemma WhoReleases(s: State, a: Action)
    requires Inv(s) && Enabled(s, a) && (a.Finish? || a.Fail?)
    ensures var t, stream := Next(s, a), s.requests[a.i].kind in {StreamChat, StreamMessages, SlotStreamChat} && a.Finish?;
            && t.requests[a.i].pumpHolds == stream && t.requests[a.i].callerHolds == !stream && t.counter == s.counter
            && Enabled(t, Return(a.i)) && Next(t, Return(a.i)).counter == t.counter - (if stream then 0 else 1)
            && Next(t, Return(a.i)).requests[a.i].releases == if stream then 0 else 1
  {
    assert Fine(s.requests[a.i], TotalGrants(s), s.counter < s.cap);
  }

  /** When all requests have ended the counter is back at zero. */
  lemma CounterReturnsToZero(s: State, acts: seq<Action>)
    requires Init(s) && CanRun(s, acts)
    requires forall i :: 0 <= i < |Run(s, acts).requests| ==> Ended(Run(s, acts).requests[i])
    ensures Run(s, acts).counter == 0
  {
    InitInv(s);
    RunKeepsInv(s, acts);
    EndedMeansZero(Run(s, acts));
  }

  lemma EndedMeansZero(t: State)
    requires Inv(t) && forall i :: 0 <= i < |t.requests| ==> Ended(t.requests[i])
    ensures t.counter == 0
  {
    forall r | r in t.requests ensures Holding(r) == 0 && BackingOut(r) == 0 {
      var i :| 0 <= i < |t.requests| && t.requests[i] == r;
      assert Owned(r) && Ended(r);
    }
    SumOfZeros(t.requests, Holding);
    SumOfZeros(t.requests, BackingOut);
  }

  /** `Cancel` changes nothing: dropping a cancel step from a run leads to the same state. */
  lemma {:induction false} CancelChangesNothing(s: State, pre: seq<Action>, i: nat, post: seq<Action>)
    requires CanRun(s, pre + [Cancel(i)] + post)
    ensures CanRun(s, pre + post)
    ensures Run(s, pre + post) == Run(s, pre + [Cancel(i)] + post)
    decreases |pre|
  {
    if pre == [] {
      var whole := [Cancel(i)] + post;
      assert pre + [Cancel(i)] + post == whole && pre + post == post;
      assert whole[0] == Cancel(i) && whole[1..] == post;
      assert s.requests[i := s.requests[i]] == s.requests;
      assert Next(s, whole[0]) == s;
    } else {
      var whole := pre + [Cancel(i)] + post;
      assert whole[0] == pre[0] && whole[1..] == pre[1..] + [Cancel(i)] + post;
      assert (pre + post)[0] == pre[0] && (pre + post)[1..] == pre[1..] + post;
      CancelChangesNothing(Next(s, pre[0]), pre[1..], i, post);
    }
  }

  // ---------------------------------------------------------------- the acquire loop

  lemma {:induction false} RunSnoc(s: State, acts: seq<Action>, a: Action)
    requires CanRun(s, acts) && Enabled(Run(s, acts), a)
    ensures CanRun(s, acts + [a]) && Run(s, acts + [a]) == Next(Run(s, acts), a)
    ensures Effective(acts + [a]) == Effective(acts) + (if Counted(a) then 1 else 0)
    decreases |acts|
  {
    if acts == [] {
      assert [] + [a] == [a] && [a][1..] == [];
    } else {
      assert (acts + [a])[1..] == acts[1..] + [a];
      RunSnoc(Next(s, acts[0]), acts[1..], a);
    }
  }

  /** What the other goroutines do at a given point; it may depend on how far the run is and
      on the whole state, but never acts for request `i`. */
  type Schedule = (nat, State) -> seq<Action>

  ghost predicate ActsForOthers(others: Schedule, i: nat) {
    forall n: nat, s: State :: CanRun(s, others(n, s)) && forall a :: a in others(n, s) ==> a.i != i
  }

  function StepLimit(n: nat): nat { (3 * n + 7) * n }

  /** The provider as one goroutine sees it: between any two of its own atomic operations
      the others act as they like. */
  class Provider {
    var state: State
    const start: State        // history: the first state and all actions since
    var trace: seq<Action>

    ghost predicate Valid()
      reads this
    {
      Init(start) && CanRun(start, trace) && state == Run(start, trace)
    }

    constructor (s: State)
      requires Init(s)
      ensures Valid() && start == s && trace == [] && state == s
    {
      start, trace, state := s, [], s;
    }

    /** The most steps that are left in any run. */
    ghost function Left(): int
      reads this
    {
      StepLimit(|start.requests|) - Effective(trace)
    }

    lemma LeftIsNatural()
      requires Valid()
      ensures Left() >= 0
    {
      RunsTerminate(start, trace);
    }

    method Take(a: Action)
      requires Valid() && Enabled(state, a)
      modifies this
      ensures Valid() && state == Next(old(state), a) && trace == old(trace) + [a]
      ensures Left() == old(Left()) - (if Counted(a) then 1 else 0)
    {
      RunSnoc(start, trace, a);
      state := Next(state, a);
      trace := trace + [a];
    }

    method Others(others: Schedule, i: nat, ghost pc: Pc)
      requires Valid() && ActsForOthers(others, i) && Stands(state, i, pc, false)
      modifies this
      ensures Valid() && Stands(state, i, pc, false)
      ensures state.cap == old(state).cap && Left() <= old(Left())
    {
      var todo := others(|trace|, state);
      while todo != []
        invariant Valid() && CanRun(state, todo) && forall a :: a in todo ==> a.i != i
        invariant Stands(state, i, pc, false)
        invariant state.cap == old(state).cap && Left() <= old(Left())
        decreases |todo|
      {
        Take(todo[0]);
        todo := todo[1..];
      }
    }

    method Load(i: nat) returns (cur: int)
      requires Valid() && Stands(state, i, Top, false) && state.cap > 0
      modifies this
      ensures Valid() && Left() < old(Left()) && state.cap == old(state).cap
      ensures cur == state.counter == old(state).counter
      ensures Stands(state, i, if cur >= state.cap then Rejected else Loaded, false)
    {
      cur := state.counter;
      Take(Action.Load(i));
    }

    method Add(i: nat) returns (after: int)
      requires Valid() && (Stands(state, i, Loaded, false) || (state.cap <= 0 && Stands(state, i, Top, false)))
      modifies this
      ensures Valid() && Left() < old(Left()) && state.cap == old(state).cap
      ensures after == state.counter == old(state).counter + 1
      ensures if state.cap > 0 && after > state.cap then Stands(state, i, Overshot, false)
              else Stands(state, i, Working(0), true)
    {
      Take(Action.Add(i));
      after := state.counter;
    }

    method BackOut(i: nat)
      requires Valid() && Stands(state, i, Overshot, false)
      modifies this
      ensures Valid() && Left() < old(Left()) && state.cap == old(state).cap
      ensures state.counter == old(state).counter - 1 && Stands(state, i, Top, false)
    {
      Take(Action.BackOut(i));
    }

    /** `tryInFlightAcquire` for request `i`, whatever the others do in between. The loop
        ends, because an overshoot uses up some of the finitely many steps of the run; the
        caller then owns a slot, or owns none and has just seen the counter at the cap. */
    method TryInFlightAcquire(i: nat, others: Schedule) returns (ok: bool)
      requires Valid() && ActsForOthers(others, i)
      requires Stands(state, i, Top, false)
      modifies this
      ensures Valid() && state.cap == old(state).cap
      ensures ok ==> Stands(state, i, Working(0), true)
      ensures !ok ==> Stands(state, i, Rejected, false) && state.counter >= state.cap > 0
    {
      if state.cap <= 0 {
        var _ := Add(i);
        return true;
      }
      while true
        invariant Valid() && Stands(state, i, Top, false) && state.cap == old(state).cap > 0
        decreases Left()
      {
        LeftIsNatural();
        var cur := Load(i);
        if cur >= state.cap {
          return false;
        }
        Others(others, i, Loaded);
        var after := Add(i);
        if after <= state.cap {
          return true;
        }
        Others(others, i, Overshot);
        BackOut(i);
        Others(others, i, Top);
      }
    }
  }

  /** Where a request stands and whether its caller owns a slot. */
  predicate Stands(s: State, i: nat, pc: Pc, owns: bool) {
    i < |s.requests| && s.requests[i].pc == pc && s.requests[i].callerHolds == owns
  }
}
