/** The stream forwarders: `localSlotProvider.StreamChat` (internal/adapter/local_slot.go)
    and `cloudTrackingProvider.StreamChat` with `wrapCloudInFlightStream`
    (internal/adapter/cloud_tracking.go).

    A forwarder sits between the pump that fills the inner channel and the consumer that
    drains the outer one. The model is a transition system: one step is one channel
    operation, the cancellation of the context, or one deferred call. */
module StreamForwarding {
  import opened Prelude

  /** Where the forwarding goroutine stands. `Calling` is the call of the inner provider,
      `Exiting` is between leaving the loop and the deferred release, `Released` between
      the release and the deferred close. */
  datatype Pc<T> = Calling | Failed | Receiving | Holding(chunk: T) | Exiting | Released | Closed

  /** One stream. `sent` and `received` are the pump's and the consumer's histories,
      `releases` counts the decrements of the gauge (or slot) made for this stream, and
      `gaveUp` records that the forwarder left through the context arm. */
  datatype Stream<T> = Stream(
    inCap: nat, outCap: nat,
    sent: seq<T>, inClosed: bool, inBuf: seq<T>,
    pc: Pc<T>, outBuf: seq<T>, received: seq<T>, drained: bool,
    cancelled: bool, gaveUp: bool, releases: nat)

  datatype Action<T> =
    | InnerError           // the inner provider refuses: release and return the error
    | InnerOpens           // the inner provider returns its channel
    | Send(chunk: T)       // the pump puts a chunk in the inner buffer
    | HandOff(chunk: T)    // the pump gives a chunk to the waiting forwarder
    | CloseInner           // the pump closes the inner channel
    | Receive              // the forwarder takes a chunk from the inner buffer
    | SeeClose             // the forwarder finds the inner channel closed and empty
    | Forward              // out <- chunk, into the outer buffer
    | ForwardHandOff       // out <- chunk, to the waiting consumer
    | GiveUp               // <-ctx.Done()
    | Release              // the deferred release of the gauge or slot
    | CloseOuter           // the deferred close(out)
    | Consume              // the consumer takes a chunk
    | SeeEnd               // the consumer finds the outer channel closed and empty
    | Cancel               // the context is cancelled

  /** A stream whose call has just arrived. The cloud forwarder copies the inner capacity, the
      local-slot forwarder uses 64 when the inner one is zero; the model takes any two. */
  function Opened<T>(inCap: nat, outCap: nat): Stream<T> {
    Stream(inCap, outCap, [], false, [], Calling, [], [], false, false, false, 0)
  }

  predicate Enabled<T>(s: Stream<T>, a: Action<T>) {
    match a
    case InnerError => s.pc.Calling?
    case InnerOpens => s.pc.Calling?
    case Send(_) => !s.pc.Calling? && !s.pc.Failed? && !s.inClosed && |s.inBuf| < s.inCap
    case HandOff(_) => s.pc.Receiving? && !s.inClosed && s.inBuf == []
    case CloseInner => !s.pc.Calling? && !s.pc.Failed? && !s.inClosed
    case Receive => s.pc.Receiving? && s.inBuf != []
    case SeeClose => s.pc.Receiving? && s.inBuf == [] && s.inClosed
    case Forward => s.pc.Holding? && |s.outBuf| < s.outCap
    case ForwardHandOff => s.pc.Holding? && s.outBuf == [] && !s.drained
    case GiveUp => s.pc.Holding? && s.cancelled
    case Release => s.pc.Exiting?
    case CloseOuter => s.pc.Released?
    case Consume => s.outBuf != []
    case SeeEnd => s.pc.Closed? && s.outBuf == [] && !s.drained
    case Cancel => !s.cancelled
  }

  function Next<T>(s: Stream<T>, a: Action<T>): Stream<T>
    requires Enabled(s, a)
  {
    match a
    case InnerError => s.(pc := Failed, releases := s.releases + 1)
    case InnerOpens => s.(pc := Receiving)
    case Send(x) => s.(sent := s.sent + [x], inBuf := s.inBuf + [x])
    case HandOff(x) => s.(sent := s.sent + [x], pc := Holding(x))
    case CloseInner => s.(inClosed := true)
    case Receive => s.(inBuf := s.inBuf[1..], pc := Holding(s.inBuf[0]))
    case SeeClose => s.(pc := Exiting)
    case Forward => s.(outBuf := s.outBuf + [s.pc.chunk], pc := Receiving)
    case ForwardHandOff => s.(received := s.received + [s.pc.chunk], pc := Receiving)
    case GiveUp => s.(pc := Exiting, gaveUp := true)
    case Release => s.(pc := Released, releases := s.releases + 1)
    case CloseOuter => s.(pc := Closed)
    case Consume => s.(received := s.received + [s.outBuf[0]], outBuf := s.outBuf[1..])
    case SeeEnd => s.(drained := true)
    case Cancel => s.(cancelled := true)
  }

  /** The states a list of actions leads through; `None` when one of them is not enabled. */
  function Run<T>(s: Stream<T>, acts: seq<Action<T>>): Option<Stream<T>>
    decreases |acts|
  {
    if acts == [] then Some(s)
    else if Enabled(s, acts[0]) then Run(Next(s, acts[0]), acts[1..])
    else None
  }

  // ---------------------------------------------------------------- the invariant

  function Held<T>(pc: Pc<T>): seq<T> { if pc.Holding? then [pc.chunk] else [] }

  /** The chunks that can still reach the consumer, oldest first. Once the forwarder has
      given up, the inner buffer is out of reach. */
  function InFlight<T>(s: Stream<T>): seq<T> {
    if s.gaveUp then s.outBuf else s.outBuf + Held(s.pc) + s.inBuf
  }

  predicate Prefix<T(==)>(a: seq<T>, b: seq<T>) { |a| <= |b| && a == b[..|a|] }

  /** The release has happened for this stream. */
  predicate Ended<T>(s: Stream<T>) { s.pc.Failed? || s.pc.Released? || s.pc.Closed? }

  /** What the consumer has, followed by what can still reach it. */
  function Delivered<T>(s: Stream<T>): seq<T> { s.received + InFlight(s) }

  ghost predicate InOrder<T>(s: Stream<T>) {
    && Prefix(Delivered(s), s.sent)
    && (!s.gaveUp ==> Delivered(s) == s.sent)
  }

  ghost predicate Consistent<T>(s: Stream<T>) {
    && (s.gaveUp ==> s.cancelled && (s.pc.Exiting? || s.pc.Released? || s.pc.Closed?))
    && ((s.pc.Exiting? || s.pc.Released? || s.pc.Closed?) ==> s.gaveUp || (s.inClosed && s.inBuf == []))
    && (s.pc.Calling? || s.pc.Failed? ==> s.sent == [] && !s.inClosed)
    && (s.drained ==> s.pc.Closed? && s.outBuf == [])
    && s.releases == (if Ended(s) then 1 else 0)
    && |s.inBuf| <= s.inCap && |s.outBuf| <= s.outCap
  }

  ghost predicate Inv<T>(s: Stream<T>) { InOrder(s) && Consistent(s) }

  lemma StepIsConsistent<T>(s: Stream<T>, a: Action<T>)
    requires Consistent(s) && Enabled(s, a)
    ensures Consistent(Next(s, a))
  {
  }

  lemma HeadTail<T>(a: seq<T>)
    requires a != []
    ensures a == [a[0]] + a[1..]
  {
  }

  lemma ReceiveKeepsOrder<T>(s: Stream<T>)
    requires Consistent(s) && Enabled(s, Receive)
    ensures Delivered(Next(s, Receive)) == Delivered(s)
  {
    HeadTail(s.inBuf);
    Units(s.outBuf);
    Assoc(s.outBuf, [s.inBuf[0]], s.inBuf[1..]);
  }

  lemma ForwardKeepsOrder<T>(s: Stream<T>)
    requires Consistent(s) && Enabled(s, Forward)
    ensures Delivered(Next(s, Forward)) == Delivered(s)
  {
    Units(s.outBuf + [s.pc.chunk]);
  }

  lemma HandOffKeepsOrder<T>(s: Stream<T>)
    requires Consistent(s) && Enabled(s, ForwardHandOff)
    ensures Delivered(Next(s, ForwardHandOff)) == Delivered(s)
  {
    var x := [s.pc.chunk];
    Units(x);
    Units<T>([]);
    Units(s.inBuf);
    Assoc(s.received, x, s.inBuf);
  }

  /** What can still reach the consumer behind the outer buffer. */
  function Behind<T>(s: Stream<T>): seq<T> { if s.gaveUp then [] else Held(s.pc) + s.inBuf }

  lemma InFlightSplit<T>(s: Stream<T>)
    ensures InFlight(s) == s.outBuf + Behind(s)
  {
    Units(s.outBuf);
    Assoc(s.outBuf, Held(s.pc), s.inBuf);
  }

  lemma ConsumeKeepsOrder<T>(s: Stream<T>)
    requires Consistent(s) && Enabled(s, Consume)
    ensures Delivered(Next(s, Consume)) == Delivered(s)
  {
    var x, rest := [s.outBuf[0]], s.outBuf[1..];
    InFlightSplit(s);
    InFlightSplit(Next(s, Consume));
    HeadTail(s.outBuf);
    Assoc(x, rest, Behind(s));
    Assoc(s.received, x, rest + Behind(s));
  }

  /** Moving the oldest chunk of a buffer one place on changes nothing. */
  lemma Regrouped<T>(s: Stream<T>, a: Action<T>)
    requires Consistent(s) && Enabled(s, a)
    requires a.Receive? || a.Forward? || a.ForwardHandOff? || a.Consume?
    ensures Delivered(Next(s, a)) == Delivered(s)
  {
    match a
    case Receive => ReceiveKeepsOrder(s);
    case Forward => ForwardKeepsOrder(s);
    case ForwardHandOff => HandOffKeepsOrder(s);
    case Consume => ConsumeKeepsOrder(s);
  }

  /** Giving up drops the chunk in hand and what the inner buffer holds, from the end. */
  lemma GiveUpTruncates<T>(s: Stream<T>)
    requires Enabled(s, GiveUp) && !s.gaveUp
    ensures Delivered(s) == Delivered(Next(s, GiveUp)) + Behind(s)
  {
    InFlightSplit(s);
    Assoc(s.received, s.outBuf, Behind(s));
  }

  /** What the pump sends is added at the end, unless the forwarder has given up. */
  lemma Added<T>(s: Stream<T>, a: Action<T>)
    requires Consistent(s) && Enabled(s, a) && (a.Send? || a.HandOff?)
    ensures Delivered(Next(s, a)) == if s.gaveUp then Delivered(s) else Delivered(s) + [a.chunk]
  {
    match a
    case Send(x) =>
      if !s.gaveUp {
        Assoc(s.outBuf + Held(s.pc), s.inBuf, [x]);
        Assoc(s.received, InFlight(s), [x]);
      }
    case HandOff(x) =>
      Units(s.outBuf);
      Units(s.outBuf + [x]);
      Assoc(s.received, s.outBuf, [x]);
  }

  lemma PrefixGrows<T>(a: seq<T>, b: seq<T>, x: T)
    requires Prefix(a, b)
    ensures Prefix(a, b + [x])
  {
  }

  /** Every step of the pump, the forwarder, the consumer and the context keeps the
      invariant. */
  lemma StepKeepsInv<T>(s: Stream<T>, a: Action<T>)
    requires Inv(s) && Enabled(s, a)
    ensures Inv(Next(s, a))
  {
    StepIsConsistent(s, a);
    if a.Receive? || a.Forward? || a.ForwardHandOff? || a.Consume? {
      Regrouped(s, a);
    } else if a.Send? || a.HandOff? {
      Added(s, a);
      PrefixGrows(Delivered(s), s.sent, a.chunk);
    } else if a.GiveUp? {
      GiveUpTruncates(s);
      Shortened(Delivered(Next(s, a)), Behind(s), s.sent);
    } else {
      Unmoved(s, a);
    }
  }

  lemma Unmoved<T>(s: Stream<T>, a: Action<T>)
    requires Enabled(s, a)
    requires !(a.Receive? || a.Forward? || a.ForwardHandOff? || a.Consume? || a.Send? || a.HandOff? || a.GiveUp?)
    ensures InFlight(Next(s, a)) == InFlight(s) && Next(s, a).received == s.received
    ensures Next(s, a).sent == s.sent && Next(s, a).gaveUp == s.gaveUp
  {
  }

  lemma Shortened<T>(a: seq<T>, b: seq<T>, c: seq<T>)
    requires a + b == c
    ensures Prefix(a, c)
  {
  }

  lemma {:induction false} RunKeepsInv<T>(s: Stream<T>, acts: seq<Action<T>>)
    requires Inv(s) && Run(s, acts).Some?
    ensures Inv(Run(s, acts).value)
    decreases |acts|
  {
    if acts != [] {
      StepKeepsInv(s, acts[0]);
      RunKeepsInv(Next(s, acts[0]), acts[1..]);
    }
  }

  /** Nothing is lost, duplicated or reordered: in every reachable state, for any two buffer
      sizes, what the consumer received followed by what is still in flight is a prefix of
      what the pump sent, and all of it unless the forwarder left through the context arm.
      The gauge has dropped once if the forwarder has ended and not at all otherwise. */
  lemma ForwardingSafety<T>(inCap: nat, outCap: nat, acts: seq<Action<T>>)
    requires Run(Opened(inCap, outCap), acts).Some?
    ensures var s := Run(Opened(inCap, outCap), acts).value;
            && Prefix(s.received + InFlight(s), s.sent)
            && (!s.gaveUp ==> s.received + InFlight(s) == s.sent)
            && (s.gaveUp ==> Cancel in acts)
            && s.releases == (if Ended(s) then 1 else 0)
  {
    var s0: Stream<T> := Opened(inCap, outCap);
    OpenedInv<T>(inCap, outCap);
    RunKeepsInv(s0, acts);
    CancelledOnlyByCancel(s0, acts);
  }

  lemma {:induction false} CancelledOnlyByCancel<T>(s: Stream<T>, acts: seq<Action<T>>)
    requires Run(s, acts).Some?
    ensures Run(s, acts).value.cancelled <==> s.cancelled || Cancel in acts
    decreases |acts|
  {
    if acts != [] {
      CancelledOnlyByCancel(Next(s, acts[0]), acts[1..]);
      assert acts == [acts[0]] + acts[1..];
    }
  }

  // ---------------------------------------------------------------- delivery

  /** No action is enabled except cancelling the context. */
  ghost predicate Quiet<T(!new)>(s: Stream<T>) {
    forall a: Action<T> :: Enabled(s, a) ==> a.Cancel?
  }

  /** How many steps a stream can still make once the pump has closed. */
  function Remaining<T>(s: Stream<T>): nat {
    3 * |s.inBuf| + 2 * |Held(s.pc)| + |s.outBuf|
    + (match s.pc case Exiting => 2 case Released => 1 case Closed => 0 case _ => 3)
    + (if s.drained then 0 else 1) + (if s.cancelled then 0 else 1)
  }

  lemma StepShrinks<T>(s: Stream<T>, a: Action<T>)
    requires Inv(s) && s.inClosed && Enabled(s, a)
    ensures Next(s, a).inClosed && Remaining(Next(s, a)) < Remaining(s)
  {
  }

  /** Termination: once the pump has closed, every run is bounded, whatever the schedule. */
  lemma {:induction false} ClosedRunsAreBounded<T>(s: Stream<T>, acts: seq<Action<T>>)
    requires Inv(s) && s.inClosed && Run(s, acts).Some?
    ensures |acts| <= Remaining(s)
    decreases |acts|
  {
    if acts != [] {
      StepKeepsInv(s, acts[0]);
      StepShrinks(s, acts[0]);
      ClosedRunsAreBounded(Next(s, acts[0]), acts[1..]);
    }
  }

  /** No deadlock: with the pump closed, a stream has no step left exactly when the outer
      channel is closed and the consumer has drained it. */
  lemma QuietIffDrained<T(!new)>(s: Stream<T>)
    requires Inv(s) && s.inClosed
    ensures Quiet(s) <==> s.drained
  {
    if !s.drained {
      var a: Action<T> :=
        match s.pc
        case Receiving => if s.inBuf == [] then SeeClose else Receive
        case Holding(_) => if s.outBuf == [] then ForwardHandOff else Consume
        case Exiting => Release
        case Released => CloseOuter
        case _ => if s.outBuf == [] then SeeEnd else Consume;
      assert Enabled(s, a) && !a.Cancel?;
    }
  }

  /** Delivery: a run in which the pump closes and the context is never cancelled, and which
      has no step left, has delivered everything the pump sent, closed the outer channel
      and released once. With `ClosedRunsAreBounded`, every schedule gets there. */
  lemma EverythingArrives<T(!new)>(inCap: nat, outCap: nat, acts: seq<Action<T>>)
    requires Run(Opened(inCap, outCap), acts).Some? && Cancel !in acts
    requires var s := Run(Opened(inCap, outCap), acts).value; s.inClosed && Quiet(s)
    ensures var s := Run(Opened(inCap, outCap), acts).value;
            s.received == s.sent && s.pc.Closed? && s.drained && s.releases == 1
  {
    var s0: Stream<T> := Opened(inCap, outCap);
    OpenedInv<T>(inCap, outCap);
    RunKeepsInv(s0, acts);
    CancelledOnlyByCancel(s0, acts);
    var s := Run(s0, acts).value;
    QuietIffDrained(s);
    assert InFlight(s) == [];
  }

  // ---------------------------------------------------------------- an absent consumer

  /** Actions of the forwarding goroutine that need no partner. */
  predicate Own<T>(a: Action<T>) {
    a.Receive? || a.SeeClose? || a.Forward? || a.GiveUp? || a.Release? || a.CloseOuter?
  }

  ghost predicate Blocked<T(!new)>(s: Stream<T>) {
    forall a: Action<T> :: Own(a) ==> !Enabled(s, a)
  }

  /** The forwarding loop has started and the outer channel is not closed yet. */
  predicate Running<T>(s: Stream<T>) { !s.pc.Calling? && !s.pc.Failed? && !s.pc.Closed? }

  /** The forwarder waits for a pump that has nothing to deliver. */
  predicate Starved<T>(s: Stream<T>) { s.pc.Receiving? && s.inBuf == [] && !s.inClosed }

  /** When the consumer has gone away, whatever the pump does, the forwarder cannot move by
      itself exactly when it waits for the pump, or holds a chunk with the outer buffer full
      and the context live. */
  lemma BlockedIff<T(!new)>(s: Stream<T>)
    requires Running(s)
    ensures Blocked(s) <==> Starved(s) || (s.pc.Holding? && |s.outBuf| >= s.outCap && !s.cancelled)
  {
    if !Starved(s) && !(s.pc.Holding? && |s.outBuf| >= s.outCap && !s.cancelled) {
      var a: Action<T> :=
        match s.pc
        case Receiving => if s.inBuf == [] then SeeClose else Receive
        case Holding(_) => if |s.outBuf| < s.outCap then Forward else GiveUp
        case Exiting => Release
        case _ => CloseOuter;
      assert Own(a) && Enabled(s, a);
    }
  }

  /** A run of the forwarder alone that closes the outer channel. */
  ghost predicate ClosesAlone<T>(s: Stream<T>, acts: seq<Action<T>>) {
    (forall a :: a in acts ==> Own(a)) && Run(s, acts).Some? && Run(s, acts).value.pc.Closed?
  }

  lemma OneStepThen<T>(s: Stream<T>, a: Action<T>, rest: seq<Action<T>>)
    requires Own(a) && Enabled(s, a) && ClosesAlone(Next(s, a), rest)
    ensures ClosesAlone(s, [a] + rest)
  {
    assert ([a] + rest)[1..] == rest;
  }

  lemma CloseFrom<T>(s: Stream<T>) returns (acts: seq<Action<T>>)
    requires s.cancelled && Running(s) && !Starved(s)
    ensures ClosesAlone(s, acts)
    decreases match s.pc case Receiving => 4 case Holding(_) => 3 case Exiting => 2 case _ => 1
  {
    var a: Action<T> :=
      match s.pc
      case Receiving => if s.inBuf == [] then SeeClose else Receive
      case Holding(_) => GiveUp
      case Exiting => Release
      case _ => CloseOuter;
    var rest := [];
    if !a.CloseOuter? { rest := CloseFrom(Next(s, a)); }
    OneStepThen(s, a, rest);
    acts := [a] + rest;
  }

  lemma StarvedStays<T>(s: Stream<T>, acts: seq<Action<T>>)
    requires Starved(s) && acts != [] && Own(acts[0])
    ensures Run(s, acts).None?
  {
  }

  /** What the forwarder can do: after a cancellation it has a way to end by its own steps,
      without the consumer and whether or not the pump has closed, if and only if it is not
      waiting for a pump that has nothing to deliver; and every such end has released once. */
  lemma CanEndWithoutConsumer<T(!new)>(s: Stream<T>)
    requires Inv(s) && s.cancelled && Running(s)
    ensures (exists acts :: ClosesAlone(s, acts)) <==> !Starved(s)
    ensures forall acts :: ClosesAlone(s, acts) ==> Run(s, acts).value.releases == 1
  {
    forall acts | ClosesAlone(s, acts) ensures Run(s, acts).value.releases == 1 { RunKeepsInv(s, acts); }
    if Starved(s) {
      forall acts ensures !ClosesAlone(s, acts) {
        if acts != [] && Own(acts[0]) { StarvedStays(s, acts); }
      }
    } else {
      var acts := CloseFrom(s);
    }
  }

  /** A run of the forwarder alone that it cannot continue by itself. */
  ghost predicate EndsAlone<T(!new)>(s: Stream<T>, acts: seq<Action<T>>) {
    (forall a :: a in acts ==> Own(a)) && Run(s, acts).Some? && Blocked(Run(s, acts).value)
  }

  /** The forwarder has left the loop or will: the pump has closed, or there are more chunks at
      hand than the outer channel takes, so that a send meets the cancelled context. */
  predicate Committed<T>(s: Stream<T>) {
    || s.inClosed || s.pc.Exiting? || s.pc.Released? || s.pc.Closed?
    || |Held(s.pc)| + |s.inBuf| > s.outCap - |s.outBuf|
  }

  lemma OwnStep<T>(s: Stream<T>, a: Action<T>)
    requires Own(a) && Enabled(s, a) && s.cancelled && !s.pc.Calling? && !s.pc.Failed?
    ensures var t := Next(s, a);
            && t.cancelled && !t.pc.Calling? && !t.pc.Failed? && (Committed(s) ==> Committed(t))
            && Remaining(t) < Remaining(s)
  {
  }

  /** The forwarder alone makes finitely many steps. */
  lemma {:induction false} OwnRunsAreBounded<T>(s: Stream<T>, acts: seq<Action<T>>)
    requires s.cancelled && Running(s) && (forall a :: a in acts ==> Own(a)) && Run(s, acts).Some?
    ensures |acts| <= Remaining(s)
    decreases |acts|
  {
    if acts != [] {
      OwnStep(s, acts[0]);
      if acts[1..] != [] {
        assert Own(acts[1..][0]);
        OwnRunsAreBounded(Next(s, acts[0]), acts[1..]);
      }
    }
  }

  lemma {:induction false} CommittedCloses<T(!new)>(s: Stream<T>, acts: seq<Action<T>>)
    requires Inv(s) && s.cancelled && !s.pc.Calling? && !s.pc.Failed? && Committed(s) && EndsAlone(s, acts)
    ensures Run(s, acts).value.pc.Closed?
    decreases |acts|
  {
    if acts == [] {
      if Running(s) { BlockedIff(s); }
    } else {
      OwnStep(s, acts[0]);
      StepKeepsInv(s, acts[0]);
      assert forall a :: a in acts[1..] ==> a in acts;
      CommittedCloses(Next(s, acts[0]), acts[1..]);
    }
  }

  lemma EndsAloneCons<T(!new)>(s: Stream<T>, a: Action<T>, rest: seq<Action<T>>)
    requires Own(a) && Enabled(s, a) && EndsAlone(Next(s, a), rest)
    ensures EndsAlone(s, [a] + rest) && Run(s, [a] + rest) == Run(Next(s, a), rest)
  {
    assert ([a] + rest)[1..] == rest;
  }

  /** A forwarder that is not committed can pass everything on and then starve. */
  lemma {:induction false} Starves<T(!new)>(s: Stream<T>) returns (acts: seq<Action<T>>)
    requires s.cancelled && Running(s) && !Committed(s)
    ensures EndsAlone(s, acts) && Starved(Run(s, acts).value)
    decreases |s.inBuf|, |Held(s.pc)|
  {
    if Starved(s) {
      acts := [];
      BlockedIff(s);
    } else {
      var a: Action<T> := if s.pc.Receiving? then Receive else Forward;
      OwnStep(s, a);
      var rest := Starves(Next(s, a));
      EndsAloneCons(s, a, rest);
      acts := [a] + rest;
    }
  }

  /** The exact guarantee. After a cancellation the forwarder ends without its consumer under
      every schedule of its select, if and only if it is committed; the runs it makes alone
      are finite by `OwnRunsAreBounded`. A forwarder that is not committed may pass its
      chunks on into the outer channel and then wait for the pump, with nothing released. */
  lemma EndsWithoutConsumerIff<T(!new)>(s: Stream<T>)
    requires Inv(s) && s.cancelled && Running(s)
    ensures (forall acts :: EndsAlone(s, acts) ==> Run(s, acts).value.pc.Closed? && Run(s, acts).value.releases == 1) <==>
            Committed(s)
  {
    if Committed(s) {
      forall acts | EndsAlone(s, acts) ensures Run(s, acts).value.pc.Closed? && Run(s, acts).value.releases == 1 {
        CommittedCloses(s, acts);
        RunKeepsInv(s, acts);
      }
    } else {
      var acts := Starves(s);
      assert EndsAlone(s, acts) && !Run(s, acts).value.pc.Closed?;
    }
  }

  // ---------------------------------------------------------------- the shared gauge

  /** All streams of the process and the gauge they share. */
  datatype System<T> = System(gauge: int, streams: seq<Stream<T>>)

  datatype SystemAction<T> =
    | Open(inCap: nat, outCap: nat)       // a call arrives: the gauge goes up
    | Within(i: nat, action: Action<T>)   // one step of one stream

  predicate SystemEnabled<T>(y: System<T>, a: SystemAction<T>) {
    a.Within? ==> a.i < |y.streams| && Enabled(y.streams[a.i], a.action)
  }

  function SystemNext<T>(y: System<T>, a: SystemAction<T>): System<T>
    requires SystemEnabled(y, a)
  {
    match a
    case Open(m, n) => System(y.gauge + 1, y.streams + [Opened(m, n)])
    case Within(i, act) =>
      System(if act.InnerError? || act.Release? then y.gauge - 1 else y.gauge,
             y.streams[i := Next(y.streams[i], act)])
  }

  function SystemRun<T>(y: System<T>, acts: seq<SystemAction<T>>): Option<System<T>>
    decreases |acts|
  {
    if acts == [] then Some(y)
    else if SystemEnabled(y, acts[0]) then SystemRun(SystemNext(y, acts[0]), acts[1..])
    else None
  }

  function Live<T>(s: Stream<T>): int { if Ended(s) then 0 else 1 }

  ghost predicate SystemInv<T>(y: System<T>) {
    && (forall i :: 0 <= i < |y.streams| ==> Inv(y.streams[i]))
    && y.gauge == Sum(y.streams, Live)
  }

  lemma OpenedInv<T>(inCap: nat, outCap: nat)
    ensures Inv<T>(Opened(inCap, outCap))
  {
    Units<T>([]);
  }

  lemma OpenKeepsInv<T>(y: System<T>, inCap: nat, outCap: nat)
    requires SystemInv(y)
    ensures SystemInv(SystemNext(y, Open(inCap, outCap)))
  {
    OpenedInv<T>(inCap, outCap);
    SumSnoc(y.streams, Opened(inCap, outCap), Live);
  }

  /** The gauge changes by one exactly when the stream ends. */
  lemma StepEndsOrNot<T>(s: Stream<T>, a: Action<T>)
    requires Enabled(s, a)
    ensures Live(Next(s, a)) == Live(s) - (if a.InnerError? || a.Release? then 1 else 0)
  {
  }

  lemma SystemStepKeepsInv<T>(y: System<T>, a: SystemAction<T>)
    requires SystemInv(y) && SystemEnabled(y, a)
    ensures SystemInv(SystemNext(y, a))
  {
    match a
    case Open(m, n) => OpenKeepsInv(y, m, n);
    case Within(i, act) =>
      var s := Next(y.streams[i], act);
      StepKeepsInv(y.streams[i], act);
      StepEndsOrNot(y.streams[i], act);
      SumUpdate(y.streams, i, s, Live);
  }

  lemma {:induction false} SystemRunKeepsInv<T>(y: System<T>, acts: seq<SystemAction<T>>)
    requires SystemInv(y) && SystemRun(y, acts).Some?
    ensures SystemInv(SystemRun(y, acts).value)
    decreases |acts|
  {
    if acts != [] {
      SystemStepKeepsInv(y, acts[0]);
      SystemRunKeepsInv(SystemNext(y, acts[0]), acts[1..]);
    }
  }

  /** In every run of any number of streams the gauge is the number of streams that have not
      ended, so it is never negative, and it is back at zero when all of them have ended. */
  lemma GaugeCountsLiveStreams<T>(acts: seq<SystemAction<T>>)
    requires SystemRun(System(0, []), acts).Some?
    ensures var y := SystemRun(System(0, []), acts).value;
            && y.gauge == Sum(y.streams, Live) && 0 <= y.gauge <= |y.streams|
            && ((forall i :: 0 <= i < |y.streams| ==> Ended(y.streams[i])) ==> y.gauge == 0)
  {
    var y0: System<T> := System(0, []);
    SystemRunKeepsInv(y0, acts);
    var y := SystemRun(y0, acts).value;
    SumBounds(y.streams, Live, 0, 1);
    if forall i :: 0 <= i < |y.streams| ==> Ended(y.streams[i]) {
      SumBounds(y.streams, Live, 0, 0);
    }
  }
}
