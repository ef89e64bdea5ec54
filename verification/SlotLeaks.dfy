/** How a stream gives its slot back, and how it can fail to: the pumps of `StreamChat` and
    `StreamMessages` (internal/adapter/fusion_mlx.go), the parsers they run, and the handler
    that stops reading without draining the channel (internal/server/chat_handlers.go).

    `parseSSEStream` forwards [DONE] with a plain send (internal/adapter/openai_compatible.go).
    When the channel is full and the handler is gone, nothing ends that send: not the
    cancelled context, not the closed body. The pump never returns and its slot is lost. */
module SlotLeaks {
  import opened Prelude
  import opened LocalSlots

  /** At the send of [DONE] with a full channel and nobody to drain it. */
  predicate Leaked(r: Request) {
    r.stream.pump.AtDone? && r.stream.buffered >= r.stream.capacity && !r.stream.consumer
  }

  // ---------------------------------------------------------------- a leak is for ever

  lemma LeakStays(s: State, a: Action, i: nat)
    requires Inv(s) && Enabled(s, a) && i < |s.requests| && Leaked(s.requests[i])
    ensures Leaked(Next(s, a).requests[i])
  {
    assert Fine(s.requests[i], TotalGrants(s), s.counter < s.cap);
  }

  /** A leaked slot is never given back, whatever happens: no cancellation, no later step of
      anybody releases it. */
  lemma {:induction false} LeakIsForever(s: State, acts: seq<Action>, i: nat)
    requires Inv(s) && CanRun(s, acts) && i < |s.requests| && Leaked(s.requests[i])
    ensures var t := Run(s, acts);
            i < |t.requests| && Leaked(t.requests[i]) && t.requests[i].pumpHolds && !Ended(t.requests[i])
    decreases |acts|
  {
    assert Fine(s.requests[i], TotalGrants(s), s.counter < s.cap);
    if acts != [] {
      LeakStays(s, acts[0], i);
      StepKeepsInv(s, acts[0]);
      LeakIsForever(Next(s, acts[0]), acts[1..], i);
    }
  }

  /** Only the typed `StreamChat` can leak; the other streams never stand at that send. */
  lemma OnlyStreamChatLeaks(s: State, acts: seq<Action>, i: nat)
    requires Init(s) && CanRun(s, acts) && i < |Run(s, acts).requests|
    ensures Run(s, acts).requests[i].stream.pump.AtDone? ==> Run(s, acts).requests[i].kind.StreamChat?
  {
    InitInv(s);
    RunKeepsInv(s, acts);
    if Run(s, acts).requests[i].stream.pump.AtDone? { DoneSendIsStreamChat(Run(s, acts), i); }
  }

  lemma DoneSendIsStreamChat(t: State, i: nat)
    requires Inv(t) && i < |t.requests| && t.requests[i].stream.pump.AtDone?
    ensures t.requests[i].kind.StreamChat?
  {
    assert Fine(t.requests[i], TotalGrants(t), t.counter < t.cap);
  }

  // ---------------------------------------------------------------- ending without the consumer

  /** Steps of the pump of request `i`. */
  predicate OfPump(a: Action, i: nat) {
    a == PumpExit(i) || (a.Move? && a.i == i && !a.move.Consume? && !a.move.ConsumerLeaves? && !a.move.CancelContext?)
  }

  /** A run of the pump alone that releases its slot. */
  ghost predicate ReleasesAlone(t: State, i: nat, acts: seq<Action>) {
    && CanRun(t, acts) && (forall a :: a in acts ==> OfPump(a, i))
    && i < |Run(t, acts).requests| && !Run(t, acts).requests[i].pumpHolds
  }

  lemma ExitNow(t: State, i: nat)
    requires i < |t.requests| && t.requests[i].pumpHolds && t.requests[i].stream.pump.Exiting?
    ensures ReleasesAlone(t, i, [PumpExit(i)])
  {
    assert [PumpExit(i)][1..] == [];
  }

  lemma MoveThenExit(t: State, i: nat, m: StreamMove)
    requires i < |t.requests| && t.requests[i].pumpHolds && MoveEnabled(t.requests[i].kind, t.requests[i].stream, m)
    requires m.ReadEnd? || m.StopSend? || m.SendDone?
    ensures ReleasesAlone(t, i, [Move(i, m)] + [PumpExit(i)])
  {
    var acts := [Move(i, m)] + [PumpExit(i)];
    ExitNow(Next(t, Move(i, m)), i);
    assert acts[0] == Move(i, m) && acts[1..] == [PumpExit(i)];
  }

  /** What the pump can do: after a cancellation it has a way to end and release without its
      consumer if and only if it is not at the send of [DONE] with a full channel. */
  lemma CanReleaseWithoutConsumer(t: State, i: nat)
    requires Inv(t) && i < |t.requests| && t.requests[i].pumpHolds && t.requests[i].stream.cancelled
    ensures (exists acts :: ReleasesAlone(t, i, acts)) <==>
            !(t.requests[i].stream.pump.AtDone? && t.requests[i].stream.buffered == t.requests[i].stream.capacity)
  {
    var r := t.requests[i];
    assert Fine(r, TotalGrants(t), t.counter < t.cap);
    if r.stream.pump.AtDone? && r.stream.buffered == r.stream.capacity {
      forall acts ensures !ReleasesAlone(t, i, acts) {
        if acts != [] && OfPump(acts[0], i) { assert !Enabled(t, acts[0]); }
      }
    } else {
      match r.stream.pump
      case Reading => MoveThenExit(t, i, ReadEnd);
      case Sending => MoveThenExit(t, i, StopSend);
      case AtDone => MoveThenExit(t, i, SendDone);
      case Exiting => ExitNow(t, i);
    }
  }

  /** A run of the pump alone that it cannot continue by itself. */
  ghost predicate StopsAlone(t: State, i: nat, acts: seq<Action>) {
    && CanRun(t, acts) && (forall a :: a in acts ==> OfPump(a, i))
    && forall a :: OfPump(a, i) ==> !Enabled(Run(t, acts), a)
  }

  /** At the end of the run the slot has been given back, exactly once. */
  ghost predicate GivenBack(t: State, i: nat, acts: seq<Action>)
    requires CanRun(t, acts)
  {
    var u := Run(t, acts);
    i < |u.requests| && !u.requests[i].pumpHolds && u.requests[i].releases == 1
  }

  /** The pump cannot come to the send of [DONE] with a full channel any more: this path does
      not forward [DONE], or the pump is past its loop, or [DONE] has room, or the send it is
      at can only give way to the context. */
  predicate Safe(r: Request) {
    || !r.kind.StreamChat? || r.stream.pump.NoPump? || r.stream.pump.Exiting?
    || (r.stream.pump.AtDone? && r.stream.buffered < r.stream.capacity)
    || (r.stream.pump.Sending? && r.stream.buffered >= r.stream.capacity)
  }

  /** The most steps the pump can make when nobody drains its channel. */
  function PumpLeft(st: Stream): int {
    match st.pump
    case NoPump => 0
    case Exiting => 1
    case AtDone => 2
    case Sending => 2 * (st.capacity - st.buffered) + 3
    case Reading => 2 * (st.capacity - st.buffered) + 4
  }

  /** A stream whose consumer is gone and whose context is cancelled. */
  predicate Abandoned(r: Request) { r.stream.cancelled && !r.stream.consumer }

  lemma PumpStep(t: State, i: nat, a: Action)
    requires Inv(t) && OfPump(a, i) && Enabled(t, a) && Abandoned(t.requests[i])
    ensures var r, r' := t.requests[i], Next(t, a).requests[i];
            && Abandoned(r') && r'.kind == r.kind && (Safe(r) ==> Safe(r'))
            && r'.callerHolds == r.callerHolds && r'.grants == r.grants
            && 0 <= PumpLeft(r'.stream) < PumpLeft(r.stream)
  {
    assert Fine(t.requests[i], TotalGrants(t), t.counter < t.cap);
  }

  /** The pump of an abandoned stream makes finitely many steps. */
  lemma {:induction false} PumpRunsAreBounded(t: State, i: nat, acts: seq<Action>)
    requires Inv(t) && i < |t.requests| && Abandoned(t.requests[i])
    requires CanRun(t, acts) && forall a :: a in acts ==> OfPump(a, i)
    ensures |acts| <= PumpLeft(t.requests[i].stream)
    decreases |acts|
  {
    if acts != [] {
      PumpStep(t, i, acts[0]);
      StepKeepsInv(t, acts[0]);
      PumpRunsAreBounded(Next(t, acts[0]), i, acts[1..]);
    } else {
      assert Fine(t.requests[i], TotalGrants(t), t.counter < t.cap);
    }
  }

  /** When the pump of an abandoned stream has no step left. */
  lemma StuckIff(t: State, i: nat)
    requires Inv(t) && i < |t.requests| && Abandoned(t.requests[i])
    ensures (forall a :: OfPump(a, i) ==> !Enabled(t, a)) <==> !t.requests[i].pumpHolds || Leaked(t.requests[i])
  {
    var r := t.requests[i];
    assert Fine(r, TotalGrants(t), t.counter < t.cap);
    if r.pumpHolds && !Leaked(r) {
      var a := match r.stream.pump
        case Reading => Move(i, ReadEnd)
        case Sending => Move(i, StopSend)
        case AtDone => Move(i, SendDone)
        case _ => PumpExit(i);
      assert OfPump(a, i) && Enabled(t, a);
    }
  }

  lemma {:induction false} SafeReleases(t: State, i: nat, acts: seq<Action>)
    requires Inv(t) && i < |t.requests| && Abandoned(t.requests[i]) && Safe(t.requests[i]) && StopsAlone(t, i, acts)
    requires t.requests[i].grants == 1 && !t.requests[i].callerHolds
    ensures GivenBack(t, i, acts)
    decreases |acts|
  {
    if acts == [] {
      StuckIff(t, i);
      assert Fine(t.requests[i], TotalGrants(t), t.counter < t.cap);
    } else {
      PumpStep(t, i, acts[0]);
      StepKeepsInv(t, acts[0]);
      assert forall a :: a in acts[1..] ==> a in acts;
      SafeReleases(Next(t, acts[0]), i, acts[1..]);
    }
  }

  lemma StopsAloneCons(t: State, i: nat, a: Action, rest: seq<Action>)
    requires OfPump(a, i) && Enabled(t, a) && StopsAlone(Next(t, a), i, rest)
    ensures StopsAlone(t, i, [a] + rest) && Run(t, [a] + rest) == Run(Next(t, a), rest)
  {
    assert ([a] + rest)[0] == a && ([a] + rest)[1..] == rest;
  }

  /** A pump that is not safe can fill its channel, read [DONE] and leak. */
  lemma {:induction false} UnsafeLeaks(t: State, i: nat) returns (acts: seq<Action>)
    requires Inv(t) && i < |t.requests| && Abandoned(t.requests[i]) && !Safe(t.requests[i])
    ensures StopsAlone(t, i, acts) && i < |Run(t, acts).requests| && Leaked(Run(t, acts).requests[i])
    decreases PumpLeft(t.requests[i].stream)
  {
    var r := t.requests[i];
    assert Fine(r, TotalGrants(t), t.counter < t.cap);
    if r.stream.pump.AtDone? {
      acts := [];
      StuckIff(t, i);
    } else {
      var a := Move(i, if r.stream.pump.Sending? then SendItem
                       else if r.stream.buffered < r.stream.capacity then ReadItem else ReadDone);
      PumpStep(t, i, a);
      StepKeepsInv(t, a);
      var rest := UnsafeLeaks(Next(t, a), i);
      StopsAloneCons(t, i, a, rest);
      acts := [a] + rest;
    }
  }

  /** The exact guarantee. The pump of an abandoned stream gives its slot back under every
      schedule if and only if it is safe; its runs are finite by `PumpRunsAreBounded`. In
      particular a typed `StreamChat` that is still reading can always leak. */
  lemma ReleasesWithoutConsumerIff(t: State, i: nat)
    requires Inv(t) && i < |t.requests| && t.requests[i].pumpHolds && Abandoned(t.requests[i])
    ensures (forall acts :: StopsAlone(t, i, acts) ==> GivenBack(t, i, acts)) <==> Safe(t.requests[i])
  {
    assert Fine(t.requests[i], TotalGrants(t), t.counter < t.cap);
    if Safe(t.requests[i]) {
      forall acts | StopsAlone(t, i, acts) ensures GivenBack(t, i, acts) {
        SafeReleases(t, i, acts);
      }
    } else {
      var acts := UnsafeLeaks(t, i);
      RunKeepsInv(t, acts);
      LeakHolds(Run(t, acts), i);
    }
  }

  lemma LeakHolds(t: State, i: nat)
    requires Inv(t) && i < |t.requests| && Leaked(t.requests[i])
    ensures t.requests[i].pumpHolds
  {
    assert Fine(t.requests[i], TotalGrants(t), t.counter < t.cap);
  }

  // ---------------------------------------------------------------- progress

  /** How far a stream is from its exit, when nothing new is read. */
  function Distance(st: Stream): nat {
    match st.pump
    case NoPump => 0
    case Exiting => 0
    case Reading => 1
    case Sending => 3 + st.buffered + (if st.cancelled then 0 else 1)
    case AtDone => 3 + st.buffered
  }

  function DistanceOf(r: Request): int { Distance(r.stream) }

  /** A step of request `i` that brings its end nearer. */
  predicate Advances(t: State, a: Action, i: nat) {
    && a.i == i && Enabled(t, a)
    && (Counted(a) || (a.Move? && Distance(AfterMove(t.requests[i].stream, a.move)) < Distance(t.requests[i].stream)))
    && !Leaked(Next(t, a).requests[i])
  }

  function NextMove(st: Stream): StreamMove {
    match st.pump
    case Sending =>
      if st.buffered < st.capacity then SendItem
      else if st.cancelled then StopSend
      else if st.consumer then Consume
      else CancelContext
    case AtDone => if st.buffered < st.capacity then SendDone else Consume
    case _ => ReadEnd
  }

  lemma StreamAdvances(t: State, i: nat)
    requires Inv(t) && i < |t.requests| && t.requests[i].pumpHolds
    requires !t.requests[i].stream.pump.Exiting? && !Leaked(t.requests[i])
    ensures Advances(t, Move(i, NextMove(t.requests[i].stream)), i)
  {
    assert Fine(t.requests[i], TotalGrants(t), t.counter < t.cap);
  }

  /** No request is stuck unless its slot has leaked: a request that has not ended and has
      not leaked has a step that brings its end nearer. Inside a stream that may be a step
      of its consumer or the cancellation of its context. */
  lemma NeverStuck(t: State, i: nat) returns (a: Action)
    requires Inv(t) && i < |t.requests| && !Ended(t.requests[i]) && !Leaked(t.requests[i])
    ensures Advances(t, a, i)
  {
    var r := t.requests[i];
    assert Fine(r, TotalGrants(t), t.counter < t.cap);
    if r.pumpHolds && !r.stream.pump.Exiting? {
      a := Move(i, NextMove(r.stream));
      StreamAdvances(t, i);
    } else {
      a := match r.pc
        case Top => if t.cap > 0 then Load(i) else Add(i)
        case Loaded => Add(i)
        case Overshot => BackOut(i)
        case Working(k) => if k < Stages(r.kind) then Advance(i) else Finish(i)
        case Leaving => Return(i)
        case _ => PumpExit(i);
      CountedAdvances(t, a, i);
    }
  }

  lemma CountedAdvances(t: State, a: Action, i: nat)
    requires Inv(t) && Enabled(t, a) && a.i == i && Counted(a) && !Leaked(t.requests[i])
    ensures Advances(t, a, i)
  {
    assert Fine(t.requests[i], TotalGrants(t), t.counter < t.cap);
  }

  ghost predicate NoLeak(t: State) { forall i :: 0 <= i < |t.requests| ==> !Leaked(t.requests[i]) }

  ghost predicate AllEnded(t: State) { forall i :: 0 <= i < |t.requests| ==> Ended(t.requests[i]) }

  /** How far the whole system is from its end: the steps left, then the streams. */
  function StepsLeft(t: State): int { (3 * |t.requests| + 7) * |t.requests| - Sum(t.requests, StepsOf) }

  lemma AdvanceOfOne(t: State, a: Action, i: nat)
    requires i < |t.requests| && Advances(t, a, i)
    ensures var r, r' := t.requests[i], NextRequest(t, a);
            && StepsOf(r') == StepsOf(r) + (if Counted(a) then 1 else 0)
            && (!Counted(a) ==> DistanceOf(r') < DistanceOf(r))
  {
  }

  lemma AdvanceShrinks(t: State, a: Action, i: nat)
    requires Inv(t) && NoLeak(t) && i < |t.requests| && Advances(t, a, i)
    ensures var t' := Next(t, a);
            && Inv(t') && NoLeak(t') && 0 <= StepsLeft(t') <= StepsLeft(t)
            && (StepsLeft(t') == StepsLeft(t) ==> Sum(t'.requests, DistanceOf) < Sum(t.requests, DistanceOf))
  {
    var r' := NextRequest(t, a);
    StepKeepsInv(t, a);
    AdvanceOfOne(t, a, i);
    AllStepsBounded(Next(t, a));
    SumUpdate(t.requests, i, r', StepsOf);
    SumUpdate(t.requests, i, r', DistanceOf);
  }

  lemma DistancesNatural(t: State)
    ensures Sum(t.requests, DistanceOf) >= 0
  {
    DistancesSum(t.requests);
  }

  lemma {:induction false} DistancesSum(rs: seq<Request>)
    ensures Sum(rs, DistanceOf) >= 0
  {
    if rs != [] { DistancesSum(rs[1..]); }
  }

  /** From every state without a leak there is a way for all requests to end. */
  lemma {:induction false} WayToTheEnd(t: State) returns (acts: seq<Action>)
    requires Inv(t) && NoLeak(t)
    ensures CanRun(t, acts) && AllEnded(Run(t, acts))
    decreases StepsLeft(t), Sum(t.requests, DistanceOf)
  {
    AllStepsBounded(t);
    DistancesNatural(t);
    if AllEnded(t) {
      acts := [];
    } else {
      var i: nat :| i < |t.requests| && !Ended(t.requests[i]);
      var a := NeverStuck(t, i);
      AdvanceShrinks(t, a, i);
      DistancesNatural(Next(t, a));
      var rest := WayToTheEnd(Next(t, a));
      acts := [a] + rest;
      assert acts[0] == a && acts[1..] == rest;
    }
  }

  /** A run after which all requests have ended. */
  ghost predicate EndsAll(t: State, acts: seq<Action>) { CanRun(t, acts) && AllEnded(Run(t, acts)) }

  lemma CanEndIff(t: State)
    requires Inv(t)
    ensures NoLeak(t) <==> exists acts :: EndsAll(t, acts)
  {
    if NoLeak(t) {
      var acts := WayToTheEnd(t);
      assert EndsAll(t, acts);
    } else {
      var i: nat :| i < |t.requests| && Leaked(t.requests[i]);
      forall acts ensures !EndsAll(t, acts) {
        if CanRun(t, acts) { LeakIsForever(t, acts, i); }
      }
    }
  }

  /** The exact condition for the whole provider. From a reachable state all requests can still
      end if and only if no slot has leaked; and whenever they do, the counter is zero. */
  lemma AllCanEndIff(s: State, pre: seq<Action>)
    requires Init(s) && CanRun(s, pre)
    ensures NoLeak(Run(s, pre)) <==> exists acts :: EndsAll(Run(s, pre), acts)
    ensures forall acts :: EndsAll(Run(s, pre), acts) ==> Run(Run(s, pre), acts).counter == 0
  {
    InitInv(s);
    RunKeepsInv(s, pre);
    var t := Run(s, pre);
    CanEndIff(t);
    forall acts | EndsAll(t, acts) ensures Run(t, acts).counter == 0 {
      RunKeepsInv(t, acts);
      EndedMeansZero(Run(t, acts));
    }
  }

  // ---------------------------------------------------------------- leaking runs

  /** A run from `t` to `u` in which only request `i` moves. */
  ghost predicate Leads(t: State, acts: seq<Action>, u: State, i: nat) {
    && CanRun(t, acts) && Run(t, acts) == u
    && u.cap == t.cap && |u.requests| == |t.requests| && i < |t.requests|
    && forall j :: 0 <= j < |t.requests| && j != i ==> u.requests[j] == t.requests[j]
  }

  lemma Stay(t: State, i: nat)
    requires i < |t.requests|
    ensures Leads(t, [], t, i)
  {
  }

  lemma Then(t: State, acts: seq<Action>, u: State, i: nat, a: Action) returns (acts': seq<Action>)
    requires Leads(t, acts, u, i) && a.i == i && Enabled(u, a)
    ensures Leads(t, acts', Next(u, a), i)
  {
    RunSnoc(t, acts, a);
    acts' := acts + [a];
  }

  /** Where the one moving request stands: what a leaking run needs to know of it. */
  predicate At(u: State, i: nat, pc: Pc, owner: bool, st: Stream) {
    && i < |u.requests| && u.requests[i].kind.StreamChat? && u.requests[i].pc == pc
    && u.requests[i].callerHolds == owner && u.requests[i].stream == st
    && u.requests[i].pumpHolds == !st.pump.NoPump?
  }

  lemma FreshAt(t: State, i: nat)
    requires i < |t.requests| && IsFresh(t.requests[i]) && t.requests[i].kind.StreamChat?
    ensures At(t, i, Top, false, Stream(NoPump, 64, 0, true, false))
  {
  }

  /** A fresh request acquires a slot when nobody interferes and there is room. */
  lemma AcquireAlone(t: State, i: nat, st: Stream) returns (acts: seq<Action>, u: State)
    requires At(t, i, Top, false, st) && 0 <= t.counter < t.cap
    ensures Leads(t, acts, u, i) && At(u, i, Working(0), true, st) && u.counter == t.counter + 1
  {
    Stay(t, i);
    acts := Then(t, [], t, i, Load(i));
    u := Next(t, Load(i));
    assert At(u, i, Loaded, false, st) && u.counter == t.counter;
    acts := Then(t, acts, u, i, Add(i));
    u := Next(u, Add(i));
  }

  lemma {:induction false} WorkAlone(t: State, pre: seq<Action>, u: State, i: nat, st: Stream, stage: nat)
    returns (acts: seq<Action>, v: State)
    requires Leads(t, pre, u, i) && At(u, i, Working(stage), true, st) && stage <= 4
    ensures Leads(t, acts, v, i) && At(v, i, Working(4), true, st) && v.counter == u.counter
    decreases 4 - stage
  {
    acts, v := pre, u;
    if stage < 4 {
      acts := Then(t, pre, u, i, Advance(i));
      v := Next(u, Advance(i));
      assert At(v, i, Working(stage + 1), true, st);
      acts, v := WorkAlone(t, acts, v, i, st, stage + 1);
    }
  }

  /** The slot goes to the pump and the caller returns. */
  lemma HandOver(t: State, pre: seq<Action>, u: State, i: nat, st: Stream) returns (acts: seq<Action>, v: State)
    requires Leads(t, pre, u, i) && At(u, i, Working(4), true, st) && st.pump.NoPump?
    ensures Leads(t, acts, v, i) && At(v, i, Gone, false, st.(pump := Reading)) && v.counter == u.counter
  {
    acts := Then(t, pre, u, i, Finish(i));
    v := Next(u, Finish(i));
    assert At(v, i, Leaving, false, st.(pump := Reading));
    acts := Then(t, acts, v, i, Return(i));
    v := Next(v, Return(i));
  }

  lemma OneMove(t: State, pre: seq<Action>, u: State, i: nat, st: Stream, m: StreamMove)
    returns (acts: seq<Action>, v: State)
    requires Leads(t, pre, u, i) && At(u, i, Gone, false, st) && !st.pump.NoPump? && MoveEnabled(StreamChat, st, m)
    ensures Leads(t, acts, v, i) && At(v, i, Gone, false, AfterMove(st, m)) && v.counter == u.counter
  {
    acts := Then(t, pre, u, i, Move(i, m));
    v := Next(u, Move(i, m));
  }

  /** The upstream sends as many payloads as the channel takes. */
  lemma {:induction false} FillChannel(t: State, pre: seq<Action>, u: State, i: nat, st: Stream)
    returns (acts: seq<Action>, v: State)
    requires Leads(t, pre, u, i) && At(u, i, Gone, false, st) && st.pump.Reading? && st.buffered <= st.capacity
    ensures Leads(t, acts, v, i) && At(v, i, Gone, false, st.(buffered := st.capacity)) && v.counter == u.counter
    decreases st.capacity - st.buffered
  {
    acts, v := pre, u;
    if st.buffered < st.capacity {
      acts, v := OneMove(t, acts, v, i, st, ReadItem);
      acts, v := OneMove(t, acts, v, i, st.(pump := Sending), SendItem);
      acts, v := FillChannel(t, acts, v, i, st.(buffered := st.buffered + 1));
    } else {
      assert st.(buffered := st.capacity) == st;
    }
  }

  /** The leak: the channel is full, [DONE] arrives, the handler leaves and the context is
      cancelled. */
  lemma LeakAtDone(t: State, pre: seq<Action>, u: State, i: nat, st: Stream) returns (acts: seq<Action>, v: State)
    requires Leads(t, pre, u, i) && At(u, i, Gone, false, st)
    requires st.pump.Reading? && st.buffered == st.capacity && st.consumer && !st.cancelled
    ensures Leads(t, acts, v, i) && Leaked(v.requests[i]) && v.requests[i].stream.cancelled && v.counter == u.counter
  {
    acts, v := OneMove(t, pre, u, i, st, ReadDone);
    var st1 := st.(pump := AtDone);
    acts, v := OneMove(t, acts, v, i, st1, ConsumerLeaves);
    var st2 := st1.(consumer := false);
    acts, v := OneMove(t, acts, v, i, st2, CancelContext);
  }

  /** Every fresh typed stream can leak its slot, with nobody else moving: it is granted the
      slot, hands it to the pump, and the pump ends at the send of [DONE] with the channel
      full, the handler gone and the context cancelled. */
  lemma StreamCanLeak(t: State, i: nat) returns (acts: seq<Action>, v: State)
    requires i < |t.requests| && IsFresh(t.requests[i]) && t.requests[i].kind.StreamChat? && 0 <= t.counter < t.cap
    ensures Leads(t, acts, v, i) && Leaked(v.requests[i]) && v.requests[i].stream.cancelled
    ensures v.counter == t.counter + 1
  {
    FreshAt(t, i);
    var st := t.requests[i].stream;
    acts, v := AcquireAlone(t, i, st);
    acts, v := WorkAlone(t, acts, v, i, st, 0);
    acts, v := HandOver(t, acts, v, i, st);
    st := st.(pump := Reading);
    acts, v := FillChannel(t, acts, v, i, st);
    acts, v := LeakAtDone(t, acts, v, i, st.(buffered := st.capacity));
  }

  // ---------------------------------------------------------------- the engine starves

  function LeakOf(r: Request): int { if Leaked(r) then 1 else 0 }

  function Leaks(t: State): int { Sum(t.requests, LeakOf) }

  lemma {:induction false} LeaksAreHeld(rs: seq<Request>)
    requires forall i :: 0 <= i < |rs| ==> StreamOk(rs[i])
    ensures Sum(rs, LeakOf) <= Sum(rs, Holding)
  {
    if rs != [] {
      assert StreamOk(rs[0]);
      LeaksAreHeld(rs[1..]);
    }
  }

  lemma LeakStep(s: State, a: Action)
    requires Inv(s) && Enabled(s, a)
    ensures Leaks(Next(s, a)) >= Leaks(s)
  {
    if Leaked(s.requests[a.i]) { LeakStays(s, a, a.i); }
    SumUpdate(s.requests, a.i, NextRequest(s, a), LeakOf);
  }

  lemma {:induction false} LeaksOnlyGrow(s: State, acts: seq<Action>)
    requires Inv(s) && CanRun(s, acts)
    ensures Leaks(Run(s, acts)) >= Leaks(s)
    decreases |acts|
  {
    if acts != [] {
      LeakStep(s, acts[0]);
      StepKeepsInv(s, acts[0]);
      LeaksOnlyGrow(Next(s, acts[0]), acts[1..]);
    }
  }

  /** Starvation: once as many slots have leaked as the cap allows, every load in every later
      run refuses its request. */
  lemma StarvedForEver(s: State, acts: seq<Action>, i: nat)
    requires Inv(s) && s.cap > 0 && Leaks(s) >= s.cap
    requires CanRun(s, acts) && Enabled(Run(s, acts), Load(i))
    ensures Next(Run(s, acts), Load(i)).requests[i].pc.Rejected?
  {
    var t := Run(s, acts);
    LeaksOnlyGrow(s, acts);
    RunKeepsInv(s, acts);
    EnoughLeaksFill(t);
  }

  lemma EnoughLeaksFill(t: State)
    requires Inv(t) && Leaks(t) >= t.cap
    ensures t.counter >= t.cap
  {
    forall i | 0 <= i < |t.requests| ensures StreamOk(t.requests[i]) {
      assert Fine(t.requests[i], TotalGrants(t), t.counter < t.cap);
    }
    LeaksAreHeld(t.requests);
    OvershootersNonNegative(t);
  }

  predicate Candidate(r: Request) { IsFresh(r) && r.kind.StreamChat? }

  ghost predicate CandidatesFrom(t: State, k: nat) {
    t.cap <= |t.requests| && forall j :: k <= j < t.cap ==> Candidate(t.requests[j])
  }

  /** `k` slots have leaked, and the next requests up to the cap are fresh typed streams. */
  ghost predicate LeakedSoFar(t: State, k: nat) {
    Inv(t) && k <= t.cap && t.counter == k && Leaks(t) == k && CandidatesFrom(t, k)
  }

  lemma CandidatesKept(t: State, acts: seq<Action>, u: State, k: nat)
    requires Leads(t, acts, u, k) && CandidatesFrom(t, k)
    ensures CandidatesFrom(u, k + 1)
  {
  }

  lemma CandidateLeaks(t: State, k: nat) returns (acts: seq<Action>, u: State)
    requires CandidatesFrom(t, k) && k < t.cap && t.counter == k
    ensures Leads(t, acts, u, k) && !Leaked(t.requests[k]) && Leaked(u.requests[k]) && u.counter == k + 1
  {
    assert Candidate(t.requests[k]);
    FreshAt(t, k);
    acts, u := StreamCanLeak(t, k);
  }

  lemma OneMoreLeak(t: State, k: nat) returns (acts: seq<Action>, u: State)
    requires LeakedSoFar(t, k) && k < t.cap
    ensures CanRun(t, acts) && Run(t, acts) == u && LeakedSoFar(u, k + 1) && u.cap == t.cap
  {
    acts, u := CandidateLeaks(t, k);
    RunKeepsInv(t, acts);
    LeaksGain(t, acts, u, k);
    CandidatesKept(t, acts, u, k);
  }

  lemma LeaksGain(t: State, acts: seq<Action>, u: State, k: nat)
    requires Leads(t, acts, u, k) && !Leaked(t.requests[k]) && Leaked(u.requests[k])
    ensures Leaks(u) == Leaks(t) + 1
  {
    assert u.requests == t.requests[k := u.requests[k]];
    SumUpdate(t.requests, k, u.requests[k], LeakOf);
  }

  lemma {:induction false} RunJoin(s: State, a: seq<Action>, b: seq<Action>)
    requires CanRun(s, a) && CanRun(Run(s, a), b)
    ensures CanRun(s, a + b) && Run(s, a + b) == Run(Run(s, a), b)
    decreases |a|
  {
    if a == [] {
      Units(b);
    } else {
      assert (a + b)[0] == a[0] && (a + b)[1..] == a[1..] + b;
      RunJoin(Next(s, a[0]), a[1..], b);
    }
  }

  lemma {:induction false} LeakAll(t: State, k: nat) returns (acts: seq<Action>)
    requires LeakedSoFar(t, k)
    ensures CanRun(t, acts) && Leaks(Run(t, acts)) == t.cap && Inv(Run(t, acts)) && Run(t, acts).cap == t.cap
    decreases t.cap - k
  {
    if k == t.cap {
      acts := [];
    } else {
      var first, u := OneMoreLeak(t, k);
      var rest := LeakAll(u, k + 1);
      RunJoin(t, first, rest);
      acts := first + rest;
    }
  }

  /** And it can come to that under every positive cap: there is a run in which exactly as many
      typed streams as the cap leak their slots, all of them cancelled, and after which the
      engine refuses every request in every continuation. */
  lemma EngineCanStarve(s: State) returns (acts: seq<Action>)
    requires Init(s) && 0 < s.cap <= |s.requests|
    requires forall j :: 0 <= j < s.cap ==> s.requests[j].kind.StreamChat?
    ensures CanRun(s, acts) && Leaks(Run(s, acts)) == s.cap
    ensures forall more, i: nat :: CanRun(Run(s, acts), more) && Enabled(Run(Run(s, acts), more), Load(i)) ==>
              Next(Run(Run(s, acts), more), Load(i)).requests[i].pc.Rejected?
  {
    InitInv(s);
    NoLeaksYet(s);
    AllCandidates(s);
    acts := LeakAll(s, 0);
    var t := Run(s, acts);
    forall more, i: nat | CanRun(t, more) && Enabled(Run(t, more), Load(i))
      ensures Next(Run(t, more), Load(i)).requests[i].pc.Rejected?
    {
      StarvedForEver(t, more, i);
    }
  }

  lemma AllCandidates(s: State)
    requires Init(s) && s.cap <= |s.requests| && forall j :: 0 <= j < s.cap ==> s.requests[j].kind.StreamChat?
    ensures CandidatesFrom(s, 0)
  {
    forall j | 0 <= j < s.cap ensures Candidate(s.requests[j]) {
      assert IsFresh(s.requests[j]);
    }
  }

  lemma NoLeaksYet(s: State)
    requires Init(s)
    ensures Leaks(s) == 0
  {
    forall r | r in s.requests ensures LeakOf(r) == 0 {
      var i :| 0 <= i < |s.requests| && s.requests[i] == r;
      assert IsFresh(r);
    }
    SumOfZeros(s.requests, LeakOf);
  }
}
