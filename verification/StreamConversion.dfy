/** Anthropic stream events to OpenAI chunks, in two forms: the relay
    `anthropicEventsToChunks` behind a raw event parser (internal/adapter/cloud_signed.go),
    and the one-pass parser and converter `parseAnthropicSSE` (internal/adapter/anthropic.go).
    The creation time of a chunk is left out. */
module StreamConversion {
  import opened Prelude
  import opened AnthropicTypes
  import opened SseParsing

  datatype Choice = ContentDelta(index: nat, content: string) | Finish(reason: string)

  datatype Tokens = Tokens(prompt: int, completion: int, total: int)

  datatype Chunk = Chunk(id: string, model: string, choice: Choice, usage: Option<Tokens>)

  /** The two variables carried from event to event. */
  datatype Relay = Relay(msgId: string, outputTokens: int)

  const START: Relay := Relay("", 0)

  // ---------------------------------------------------------------- specification functions

  function NextRelay(st: Relay, ev: Event): Relay {
    match ev
    case MessageStart(Some(m)) => Relay(m.id, m.usage.outputTokens)
    case MessageDelta(Some(u), _, _) => st.(outputTokens := u.outputTokens)
    case _ => st
  }

  function FinishReason(stopReason: string): string {
    if stopReason == "end_turn" || stopReason == "" then "stop" else stopReason
  }

  /** The chunk of one event, if any. A finish chunk carries the tokens after the event. */
  function ChunksOf(st: Relay, ev: Event, model: string): seq<Chunk> {
    match ev
    case BlockDelta(i, DeltaView(_, Some(text))) => [Chunk(st.msgId, model, ContentDelta(i, text), None)]
    case MessageDelta(_, reason, _) =>
      var n := NextRelay(st, ev).outputTokens;
      [Chunk(st.msgId, model, Finish(FinishReason(reason)), Some(Tokens(0, n, n)))]
    case _ => []
  }

  predicate Halts(evs: seq<Event>) {
    evs != [] && (evs[0].MessageStop? || Halts(evs[1..]))
  }

  function RelayAfter(st: Relay, evs: seq<Event>): Relay
    decreases |evs|
  {
    if evs == [] then st else RelayAfter(NextRelay(st, evs[0]), evs[1..])
  }

  /** The chunks of the events before message_stop. */
  function Convert(st: Relay, evs: seq<Event>, model: string): seq<Chunk>
    decreases |evs|
  {
    if evs == [] || evs[0].MessageStop? then []
    else ChunksOf(st, evs[0], model) + Convert(NextRelay(st, evs[0]), evs[1..], model)
  }

  /** What gets out when a send is refused after `sends` chunks. */
  function Limited(xs: seq<Chunk>, sends: Option<nat>): seq<Chunk> {
    if sends.Some? && sends.value < |xs| then xs[..sends.value] else xs
  }

  lemma {:induction false} ConvertAppend(st: Relay, x: seq<Event>, y: seq<Event>, model: string)
    ensures Convert(st, x + y, model) == Convert(st, x, model) + if Halts(x) then [] else Convert(RelayAfter(st, x), y, model)
    ensures Halts(x + y) <==> Halts(x) || Halts(y)
    ensures RelayAfter(st, x + y) == RelayAfter(RelayAfter(st, x), y)
    decreases |x|
  {
    if x == [] {
      assert x + y == y;
    } else {
      assert (x + y)[0] == x[0] && (x + y)[1..] == x[1..] + y;
      ConvertAppend(NextRelay(st, x[0]), x[1..], y, model);
      Assoc(ChunksOf(st, x[0], model), Convert(NextRelay(st, x[0]), x[1..], model),
            Convert(RelayAfter(st, x), y, model));
    }
  }

  lemma ConvertOne(st: Relay, ev: Event, model: string)
    ensures Convert(st, [ev], model) == (if ev.MessageStop? then [] else ChunksOf(st, ev, model))
    ensures RelayAfter(st, [ev]) == NextRelay(st, ev)
    ensures Halts([ev]) <==> ev.MessageStop?
  {
    assert [ev][0] == ev && [ev][1..] == [];
  }

  /** One more event after `x`, which has no message_stop. */
  lemma ConvertSnoc(st: Relay, x: seq<Event>, ev: Event, model: string)
    requires !Halts(x)
    ensures Convert(st, x + [ev], model) ==
            Convert(st, x, model) + if ev.MessageStop? then [] else ChunksOf(RelayAfter(st, x), ev, model)
    ensures RelayAfter(st, x + [ev]) == NextRelay(RelayAfter(st, x), ev)
    ensures Halts(x + [ev]) <==> ev.MessageStop?
  {
    ConvertAppend(st, x, [ev], model);
    ConvertOne(RelayAfter(st, x), ev, model);
  }

  /** More events extend the chunks, unless message_stop has been seen. */
  lemma ConvertPrefix(st: Relay, part: seq<Event>, all: seq<Event>, model: string)
    requires part <= all
    ensures Convert(st, part, model) <= Convert(st, all, model)
    ensures Halts(part) ==> Convert(st, part, model) == Convert(st, all, model)
  {
    assert all == part + all[|part|..];
    ConvertAppend(st, part, all[|part|..], model);
  }

  // ---------------------------------------------------------------- the relay

  /** What the relay loop keeps after `k` events. */
  predicate Relayed(evs: seq<Event>, k: nat, model: string, sends: Option<nat>, st: Relay, out: seq<Chunk>) {
    && k <= |evs| && !Halts(evs[..k])
    && out == Convert(START, evs[..k], model) && st == RelayAfter(START, evs[..k])
    && (sends.Some? ==> |out| <= sends.value)
  }

  /** One event: message_stop, a refused send, or one more converted event. */
  lemma RelayStep(evs: seq<Event>, k: nat, model: string, sends: Option<nat>, st: Relay, out: seq<Chunk>)
    requires Relayed(evs, k, model, sends, st, out) && k < |evs|
    ensures if evs[k].MessageStop? || (sends == Some(|out|) && ChunksOf(st, evs[k], model) != [])
            then out == Limited(Convert(START, evs, model), sends)
            else Relayed(evs, k + 1, model, sends, NextRelay(st, evs[k]), out + ChunksOf(st, evs[k], model))
  {
    assert evs[..k + 1] == evs[..k] + [evs[k]];
    EventStep(START, evs[..k], evs[k], evs, model);
    var more := ChunksOf(st, evs[k], model);
    if !evs[k].MessageStop? && sends == Some(|out|) && more != [] {
      StoppedSend([], out, more[0], Convert(START, evs, model));
      Units(out);
      Units(Convert(START, evs, model));
    }
  }

  lemma RelayEnd(evs: seq<Event>, model: string, sends: Option<nat>, st: Relay, out: seq<Chunk>)
    requires Relayed(evs, |evs|, model, sends, st, out)
    ensures out == Limited(Convert(START, evs, model), sends)
  {
    assert evs[..|evs|] == evs;
  }

  /** `anthropicEventsToChunks`. */
  method EventsToChunks(evs: seq<Event>, model: string, sends: Option<nat>) returns (out: seq<Chunk>)
    ensures out == Limited(Convert(START, evs, model), sends)
  {
    out := [];
    var outputTokens := 0;
    var msgId := "";
    var k := 0;
    while k < |evs|
      invariant Relayed(evs, k, model, sends, Relay(msgId, outputTokens), out)
    {
      RelayStep(evs, k, model, sends, Relay(msgId, outputTokens), out);
      Units(out);
      match evs[k] {
        case MessageStart(m) =>
          if m.Some? {
            msgId := m.value.id;
            outputTokens := m.value.usage.outputTokens;
          }
        case BlockDelta(i, delta) =>
          if delta.text.Some? {
            if sends == Some(|out|) {
              return;
            }
            out := out + [Chunk(msgId, model, ContentDelta(i, delta.text.value), None)];
          }
        case MessageDelta(usage, reason, _) =>
          if usage.Some? {
            outputTokens := usage.value.outputTokens;
          }
          var stopReason := reason;
          if stopReason == "end_turn" { stopReason := "stop"; }
          if stopReason == "" { stopReason := "stop"; }
          if sends == Some(|out|) {
            return;
          }
          out := out + [Chunk(msgId, model, Finish(stopReason), Some(Tokens(0, outputTokens, outputTokens)))];
        case MessageStop =>
          return;
        case _ =>
      }
      k := k + 1;
    }
    RelayEnd(evs, model, sends, Relay(msgId, outputTokens), out);
  }

  // ---------------------------------------------------------------- the one-pass form

  /** The contract of `ConvertLines`: `st` and `sent` are the state and the output before. */
  predicate Converts(buf: seq<byte>, meaning: seq<byte> -> Meaning<Event>, model: string, sends: Option<nat>,
                     st: Relay, sent: seq<Chunk>, rest: seq<byte>, st': Relay, out: seq<Chunk>, stopped: bool)
  {
    var items := Items(Lines(buf), meaning);
    var full := sent + Convert(st, items, model);
    if sends.Some? && sends.value < |full| then out == full[..sends.value] && stopped
    else
      && out == full
      && (stopped <==> HitsDone(Lines(buf), meaning) || Halts(items))
      && (!stopped ==> rest == Tail(buf) && st' == RelayAfter(st, items))
  }

  /** The effect of one line that holds an event, in terms of all events of the buffer. */
  lemma EventStep(st: Relay, cutItems: seq<Event>, ev: Event, all: seq<Event>, model: string)
    requires cutItems + [ev] <= all && !Halts(cutItems)
    ensures Halts(cutItems + [ev]) <==> ev.MessageStop?
    ensures ev.MessageStop? ==> Halts(all) && Convert(st, all, model) == Convert(st, cutItems, model)
    ensures !ev.MessageStop? ==>
              && Convert(st, cutItems + [ev], model) == Convert(st, cutItems, model) + ChunksOf(RelayAfter(st, cutItems), ev, model)
              && Convert(st, cutItems, model) + ChunksOf(RelayAfter(st, cutItems), ev, model) <= Convert(st, all, model)
    ensures RelayAfter(st, cutItems + [ev]) == NextRelay(RelayAfter(st, cutItems), ev)
  {
    ConvertSnoc(st, cutItems, ev, model);
    ConvertPrefix(st, cutItems + [ev], all, model);
    Units(Convert(st, cutItems, model));
    if ev.MessageStop? {
      assert all == (cutItems + [ev]) + all[|cutItems| + 1..];
      ConvertAppend(st, cutItems + [ev], all[|cutItems| + 1..], model);
    }
  }

  /** What the inner loop keeps. */
  predicate Relaying(buf: seq<byte>, meaning: seq<byte> -> Meaning<Event>, model: string, sends: Option<nat>,
                     st: Relay, sent: seq<Chunk>, cut: seq<seq<byte>>, rest: seq<byte>, now: Relay, out: seq<Chunk>)
  {
    && Lines(buf) == cut + Lines(rest) && Tail(buf) == Tail(rest)
    && !HitsDone(cut, meaning) && !Halts(Items(cut, meaning))
    && out == sent + Convert(st, Items(cut, meaning), model)
    && now == RelayAfter(st, Items(cut, meaning))
    && (sends.Some? ==> |out| <= sends.value)
  }

  lemma RelayingStart(buf: seq<byte>, meaning: seq<byte> -> Meaning<Event>, model: string, sends: Option<nat>, st: Relay, sent: seq<Chunk>)
    requires sends.Some? ==> |sent| <= sends.value
    ensures Relaying(buf, meaning, model, sends, st, sent, [], buf, st, sent)
  {
    Units(Lines(buf));
    Units(sent);
  }

  lemma RelayingEnd(buf: seq<byte>, meaning: seq<byte> -> Meaning<Event>, model: string, sends: Option<nat>, st: Relay, sent: seq<Chunk>,
                    cut: seq<seq<byte>>, rest: seq<byte>, now: Relay, out: seq<Chunk>)
    requires Relaying(buf, meaning, model, sends, st, sent, cut, rest, now, out) && IndexByte(rest, NEWLINE) < 0
    ensures Converts(buf, meaning, model, sends, st, sent, rest, now, out, false)
  {
    NoLineLeft(rest);
    Units(cut);
  }

  /** A line without an event, or [DONE]. */
  lemma RelayingNoEvent(buf: seq<byte>, meaning: seq<byte> -> Meaning<Event>, model: string, sends: Option<nat>, st: Relay, sent: seq<Chunk>,
                        cut: seq<seq<byte>>, rest: seq<byte>, now: Relay, out: seq<Chunk>, idx: nat)
    requires Relaying(buf, meaning, model, sends, st, sent, cut, rest, now, out) && idx == IndexByte(rest, NEWLINE)
    requires !meaning(rest[..idx]).Item?
    ensures meaning(rest[..idx]).Ignored? ==>
              Relaying(buf, meaning, model, sends, st, sent, cut + [rest[..idx]], rest[idx + 1..], now, out)
    ensures meaning(rest[..idx]).Done? ==> Converts(buf, meaning, model, sends, st, sent, rest, now, out, true)
  {
    LineStep(buf, cut, rest, idx, meaning);
    Units(Items(cut, meaning));
  }

  /** A line with an event: message_stop, a refused send, or one more converted event. */
  lemma RelayingEvent(buf: seq<byte>, meaning: seq<byte> -> Meaning<Event>, model: string, sends: Option<nat>, st: Relay, sent: seq<Chunk>,
                      cut: seq<seq<byte>>, rest: seq<byte>, now: Relay, out: seq<Chunk>, idx: nat, ev: Event)
    requires Relaying(buf, meaning, model, sends, st, sent, cut, rest, now, out) && idx == IndexByte(rest, NEWLINE)
    requires meaning(rest[..idx]) == Item(ev)
    ensures if ev.MessageStop? || (sends == Some(|out|) && ChunksOf(now, ev, model) != [])
            then Converts(buf, meaning, model, sends, st, sent, rest, now, out, true)
            else Relaying(buf, meaning, model, sends, st, sent, cut + [rest[..idx]], rest[idx + 1..],
                          NextRelay(now, ev), out + ChunksOf(now, ev, model))
  {
    LineStep(buf, cut, rest, idx, meaning);
    var items, all := Items(cut, meaning), Items(Lines(buf), meaning);
    EventStep(st, items, ev, all, model);
    var before, more := Convert(st, items, model), ChunksOf(now, ev, model);
    if !ev.MessageStop? {
      if sends == Some(|out|) && more != [] {
        assert more == [more[0]];
        StoppedSend(sent, before, more[0], Convert(st, all, model));
      } else {
        Assoc(sent, before, more);
      }
    }
  }

  /** The inner loop of `parseAnthropicSSE`: cut lines, decode, convert and send. */
  method ConvertLines(buf: seq<byte>, meaning: seq<byte> -> Meaning<Event>, model: string, sends: Option<nat>,
                      st: Relay, sent: seq<Chunk>)
    returns (rest: seq<byte>, st': Relay, out: seq<Chunk>, stopped: bool)
    requires sends.Some? ==> |sent| <= sends.value
    ensures Converts(buf, meaning, model, sends, st, sent, rest, st', out, stopped)
  {
    rest, out, st' := buf, sent, st;
    ghost var cut: seq<seq<byte>> := [];
    RelayingStart(buf, meaning, model, sends, st, sent);
    var idx := IndexByte(rest, NEWLINE);
    while idx >= 0
      invariant idx == IndexByte(rest, NEWLINE)
      invariant Relaying(buf, meaning, model, sends, st, sent, cut, rest, st', out)
      decreases |rest|
    {
      var line := rest[..idx];
      match meaning(line) {
        case Ignored =>
          RelayingNoEvent(buf, meaning, model, sends, st, sent, cut, rest, st', out, idx);
        case Done =>
          RelayingNoEvent(buf, meaning, model, sends, st, sent, cut, rest, st', out, idx);
          return rest, st', out, true;
        case Item(ev) =>
          RelayingEvent(buf, meaning, model, sends, st, sent, cut, rest, st', out, idx, ev);
          if ev.MessageStop? {
            return rest, st', out, true;
          }
          var next, chunk := HandleEvent(st', ev, model);
          if chunk.Some? {
            if sends == Some(|out|) {
              return rest, st', out, true;
            }
            out := out + [chunk.value];
          } else {
            Units(out);
          }
          st' := next;
      }
      rest, cut := rest[idx + 1..], cut + [line];
      idx := IndexByte(rest, NEWLINE);
    }
    RelayingEnd(buf, meaning, model, sends, st, sent, cut, rest, st', out);
    stopped := false;
  }

  /** The event switch of `parseAnthropicSSE`. */
  method HandleEvent(st: Relay, ev: Event, model: string) returns (st': Relay, chunk: Option<Chunk>)
    requires !ev.MessageStop?
    ensures st' == NextRelay(st, ev)
    ensures ChunksOf(st, ev, model) == if chunk.Some? then [chunk.value] else []
  {
    var msgId, outputTokens := st.msgId, st.outputTokens;
    chunk := None;
    match ev {
      case MessageStart(m) =>
        if m.Some? {
          msgId := m.value.id;
          outputTokens := m.value.usage.outputTokens;
        }
      case BlockDelta(i, delta) =>
        if delta.text.Some? {
          chunk := Some(Chunk(msgId, model, ContentDelta(i, delta.text.value), None));
        }
      case MessageDelta(usage, reason, _) =>
        if usage.Some? {
          outputTokens := usage.value.outputTokens;
        }
        var stopReason := reason;
        if stopReason == "end_turn" { stopReason := "stop"; }
        var fr := stopReason;
        if fr == "" { fr := "stop"; }
        chunk := Some(Chunk(msgId, model, Finish(fr), Some(Tokens(0, outputTokens, outputTokens))));
      case _ =>
    }
    st' := Relay(msgId, outputTokens);
  }

  /** What the outer loop keeps. */
  predicate Converting(chunks: seq<seq<byte>>, k: nat, meaning: seq<byte> -> Meaning<Event>, model: string, sends: Option<nat>,
                       lineBuf: seq<byte>, st: Relay, out: seq<Chunk>)
  {
    && k <= AcceptedReads(chunks, 0) && k <= |chunks|
    && lineBuf == Tail(Concat(chunks[..k]))
    && !HitsDone(Lines(Concat(chunks[..k])), meaning)
    && (sends.Some? ==> |out| <= sends.value)
    && var items := Items(Lines(Concat(chunks[..k])), meaning);
       !Halts(items) && st == RelayAfter(START, items) && out == Convert(START, items, model)
  }

  /** All chunks of the accepted part of the body. */
  function AllChunks(chunks: seq<seq<byte>>, meaning: seq<byte> -> Meaning<Event>, model: string): seq<Chunk> {
    Convert(START, Items(Lines(Accepted(chunks)), meaning), model)
  }

  lemma ConvertingStart(chunks: seq<seq<byte>>, meaning: seq<byte> -> Meaning<Event>, model: string, sends: Option<nat>)
    ensures Converting(chunks, 0, meaning, model, sends, [], START, [])
  {
    assert chunks[..0] == [];
  }

  lemma ConvertingStep(chunks: seq<seq<byte>>, k: nat, meaning: seq<byte> -> Meaning<Event>, model: string, sends: Option<nat>,
                       lineBuf: seq<byte>, st: Relay, sent: seq<Chunk>, rest: seq<byte>, st': Relay, out: seq<Chunk>)
    requires Converting(chunks, k, meaning, model, sends, lineBuf, st, sent) && k < |chunks|
    requires |lineBuf + chunks[k]| <= MAX_LINE_SIZE
    requires Converts(lineBuf + chunks[k], meaning, model, sends, st, sent, rest, st', out, false)
    ensures Converting(chunks, k + 1, meaning, model, sends, rest, st', out)
  {
    ReadFits(chunks, k, meaning);
    ConvertAppend(START, Items(Lines(Concat(chunks[..k])), meaning), Items(Lines(lineBuf + chunks[k]), meaning), model);
  }

  lemma ConvertingStop(chunks: seq<seq<byte>>, k: nat, meaning: seq<byte> -> Meaning<Event>, model: string, sends: Option<nat>,
                       lineBuf: seq<byte>, st: Relay, sent: seq<Chunk>, rest: seq<byte>, st': Relay, out: seq<Chunk>)
    requires Converting(chunks, k, meaning, model, sends, lineBuf, st, sent) && k < |chunks|
    requires |lineBuf + chunks[k]| <= MAX_LINE_SIZE
    requires Converts(lineBuf + chunks[k], meaning, model, sends, st, sent, rest, st', out, true)
    ensures out == Limited(AllChunks(chunks, meaning, model), sends)
  {
    ReadFits(chunks, k, meaning);
    var items := Items(Lines(Concat(chunks[..k])), meaning);
    ConvertAppend(START, items, Items(Lines(lineBuf + chunks[k]), meaning), model);
    AcceptedExtends(chunks, k + 1, meaning);
    var part := Items(Lines(Concat(chunks[..k + 1])), meaning);
    ConvertPrefix(START, part, Items(Lines(Accepted(chunks)), meaning), model);
  }

  lemma ConvertingEnd(chunks: seq<seq<byte>>, k: nat, meaning: seq<byte> -> Meaning<Event>, model: string, sends: Option<nat>,
                      lineBuf: seq<byte>, st: Relay, out: seq<Chunk>)
    requires Converting(chunks, k, meaning, model, sends, lineBuf, st, out)
    requires k < |chunks| ==> |lineBuf + chunks[k]| > MAX_LINE_SIZE
    ensures out == Limited(AllChunks(chunks, meaning, model), sends)
  {
    assert k < |chunks| ==> Overflows(chunks, k);
    assert k == AcceptedReads(chunks, 0);
  }

  /** `parseAnthropicSSE`: one pass over the reads. */
  method ParseAnthropicSse(chunks: seq<seq<byte>>, meaning: seq<byte> -> Meaning<Event>, model: string, sends: Option<nat>)
    returns (out: seq<Chunk>)
    ensures out == Limited(AllChunks(chunks, meaning, model), sends)
  {
    out := [];
    var st := START;
    var lineBuf: seq<byte> := [];
    var k := 0;
    ConvertingStart(chunks, meaning, model, sends);
    while k < |chunks|
      invariant Converting(chunks, k, meaning, model, sends, lineBuf, st, out)
    {
      ghost var before, sent, st0 := lineBuf, out, st;
      Units(before);
      var n := |chunks[k]|;
      if n > 0 {
        lineBuf := lineBuf + chunks[k];
        if |lineBuf| > MAX_LINE_SIZE {
          ConvertingEnd(chunks, k, meaning, model, sends, before, st, out);
          return;
        }
      } else {
        BufferWithinCap(chunks, k);
      }
      var stopped;
      lineBuf, st, out, stopped := ConvertLines(lineBuf, meaning, model, sends, st, out);
      if stopped {
        ConvertingStop(chunks, k, meaning, model, sends, before, st0, sent, lineBuf, st, out);
        return;
      }
      ConvertingStep(chunks, k, meaning, model, sends, before, st0, sent, lineBuf, st, out);
      k := k + 1;
    }
    ConvertingEnd(chunks, k, meaning, model, sends, lineBuf, st, out);
  }

  // ---------------------------------------------------------------- fusion

  /** The two forms agree: for the same reads without cancellation the one-pass converter
      emits exactly the chunks that the relay makes of the raw parser's events. */
  method FusedEqualsTwoStage(chunks: seq<seq<byte>>, meaning: seq<byte> -> Meaning<Event>, model: string)
    returns (fused: seq<Chunk>, staged: seq<Chunk>)
    ensures fused == staged == AllChunks(chunks, meaning, model)
  {
    fused := ParseAnthropicSse(chunks, meaning, model, None);
    var evs, end := ParseStream(chunks, meaning, [], None, true);
    Units(evs);
    Units(Items(Lines(Accepted(chunks)), meaning));
    staged := EventsToChunks(evs, model, None);
  }

  /** With the raw parser cut off after any number of events and the relay after any number
      of chunks, the two-stage form emits a prefix of what the one-pass form would. */
  lemma StagedIsAPrefix(chunks: seq<seq<byte>>, meaning: seq<byte> -> Meaning<Event>, model: string,
                        rawSends: Option<nat>, taken: bool, relaySends: Option<nat>, evs: seq<Event>, end: End)
    requires Parses(chunks, meaning, [], rawSends, taken, evs, end)
    ensures Limited(Convert(START, evs, model), relaySends) <= AllChunks(chunks, meaning, model)
  {
    var all := Items(Lines(Accepted(chunks)), meaning);
    Units(all);
    ConvertPrefix(START, evs, all, model);
  }

  // ---------------------------------------------------------------- what the chunks say

  function StartId(ev: Event): Option<string> {
    if ev.MessageStart? && ev.message.Some? then Some(ev.message.value.id) else None
  }

  /** The output count an event reports. */
  function OutputCount(ev: Event): Option<int> {
    if ev.MessageStart? && ev.message.Some? then Some(ev.message.value.usage.outputTokens)
    else if ev.MessageDelta? && ev.usage.Some? then Some(ev.usage.value.outputTokens)
    else None
  }

  predicate HasText(ev: Event) { ev.BlockDelta? && ev.delta.text.Some? }

  /** The events that make a chunk. */
  predicate Speaks(ev: Event) { HasText(ev) || ev.MessageDelta? }

  /** The finish reason for a given stop reason. */
  predicate ReasonFor(given: string, reason: string) {
    && (reason == "stop" <==> given == "" || given == "end_turn" || given == "stop")
    && (reason != "stop" ==> reason == given)
  }

  /** `c` is the chunk of event `p`: it carries the id of the last message_start before it. A
      text delta's chunk has its index and text and no usage; a message_delta's chunk has the
      finish reason and, as completion and total, the latest output count up to that event. */
  ghost predicate Tells(evs: seq<Event>, p: nat, model: string, c: Chunk)
    requires p < |evs|
  {
    && c.model == model && Latest(evs[..p], StartId, "", c.id)
    && (HasText(evs[p]) ==> c.choice == ContentDelta(evs[p].index, evs[p].delta.text.value) && c.usage == None)
    && (evs[p].MessageDelta? ==>
          && c.choice.Finish? && ReasonFor(evs[p].stopReason, c.choice.reason)
          && c.usage.Some? && c.usage.value.prompt == 0 && c.usage.value.total == c.usage.value.completion
          && Latest(evs[..p + 1], OutputCount, 0, c.usage.value.completion))
  }

  ghost function Telling(evs: seq<Event>, model: string): (Chunk, nat) -> bool {
    (c: Chunk, p: nat) => p < |evs| && Tells(evs, p, model, c)
  }

  /** `out` is one chunk for each speaking event, in order. */
  ghost predicate TellsAll(evs: seq<Event>, at: seq<nat>, model: string, out: seq<Chunk>) {
    TracksAt(out, evs, Speaks, Telling(evs, model), at)
  }

  lemma RelaySnoc(evs: seq<Event>, ev: Event)
    ensures RelayAfter(START, evs + [ev]) == NextRelay(RelayAfter(START, evs), ev)
  {
    ConvertAppend(START, evs, [ev], "");
    ConvertOne(RelayAfter(START, evs), ev, "");
  }

  lemma {:induction false} RelayIsLatest(evs: seq<Event>)
    ensures Latest(evs, StartId, "", RelayAfter(START, evs).msgId)
    ensures Latest(evs, OutputCount, 0, RelayAfter(START, evs).outputTokens)
  {
    if evs != [] {
      var before, ev := evs[..|evs| - 1], evs[|evs| - 1];
      var st := RelayAfter(START, before);
      RelayIsLatest(before);
      SnocSplit(evs);
      RelaySnoc(before, ev);
      LatestSnoc(before, ev, StartId, "", st.msgId);
      LatestSnoc(before, ev, OutputCount, 0, st.outputTokens);
    }
  }

  lemma TellsStays(evs: seq<Event>, p: nat, model: string, c: Chunk, ev: Event)
    requires p < |evs| && Tells(evs, p, model, c)
    ensures Tells(evs + [ev], p, model, c)
  {
    assert (evs + [ev])[..p] == evs[..p] && (evs + [ev])[..p + 1] == evs[..p + 1];
  }

  lemma LastSlices(evs: seq<Event>, ev: Event)
    ensures var all := evs + [ev]; all[|evs|] == ev && all[..|evs|] == evs && all[..|evs| + 1] == all
  {
  }

  lemma TextTells(evs: seq<Event>, ev: Event, model: string, st: Relay)
    requires HasText(ev) && Latest(evs, StartId, "", st.msgId)
    ensures |ChunksOf(st, ev, model)| == 1 && Tells(evs + [ev], |evs|, model, ChunksOf(st, ev, model)[0])
  {
    LastSlices(evs, ev);
  }

  lemma FinishTells(evs: seq<Event>, ev: Event, model: string, st: Relay)
    requires ev.MessageDelta? && Latest(evs, StartId, "", st.msgId)
    requires Latest(evs + [ev], OutputCount, 0, NextRelay(st, ev).outputTokens)
    ensures |ChunksOf(st, ev, model)| == 1 && Tells(evs + [ev], |evs|, model, ChunksOf(st, ev, model)[0])
  {
    LastSlices(evs, ev);
  }

  /** The last event, if it speaks, makes the right chunk. */
  lemma LastTells(evs: seq<Event>, ev: Event, model: string)
    requires !ev.MessageStop?
    ensures |ChunksOf(RelayAfter(START, evs), ev, model)| == if Speaks(ev) then 1 else 0
    ensures Speaks(ev) ==> Tells(evs + [ev], |evs|, model, ChunksOf(RelayAfter(START, evs), ev, model)[0])
  {
    var st := RelayAfter(START, evs);
    RelayIsLatest(evs);
    if HasText(ev) {
      TextTells(evs, ev, model, st);
    } else if ev.MessageDelta? {
      RelayIsLatest(evs + [ev]);
      RelaySnoc(evs, ev);
      FinishTells(evs, ev, model, st);
    }
  }

  lemma TellsSnoc(evs: seq<Event>, at: seq<nat>, model: string, out: seq<Chunk>, ev: Event, more: seq<Chunk>)
    requires TellsAll(evs, at, model, out) && |more| == (if Speaks(ev) then 1 else 0)
    requires Speaks(ev) ==> Tells(evs + [ev], |evs|, model, more[0])
    ensures TellsAll(evs + [ev], if Speaks(ev) then at + [|evs|] else at, model, out + more)
  {
    var rel := Telling(evs + [ev], model);
    forall j | 0 <= j < |at| ensures rel(out[j], at[j]) {
      assert Telling(evs, model)(out[j], at[j]);
      TellsStays(evs, at[j], model, out[j], ev);
    }
    TracksAtSnoc(out, evs, Speaks, rel, at, ev, more);
  }

  lemma {:induction false} ConvertTells(evs: seq<Event>, model: string) returns (at: seq<nat>)
    requires forall k :: 0 <= k < |evs| ==> !evs[k].MessageStop?
    ensures TellsAll(evs, at, model, Convert(START, evs, model)) && !Halts(evs)
    decreases |evs|
  {
    if evs == [] {
      at := [];
    } else {
      var before, ev := evs[..|evs| - 1], evs[|evs| - 1];
      at := ConvertTells(before, model);
      SnocSplit(evs);
      ConvertSnoc(START, before, ev, model);
      LastTells(before, ev, model);
      TellsSnoc(before, at, model, Convert(START, before, model), ev, ChunksOf(RelayAfter(START, before), ev, model));
      at := if Speaks(ev) then at + [|before|] else at;
    }
  }

  /** The position of the first message_stop, or the length. */
  lemma {:induction false} FirstStop(evs: seq<Event>) returns (n: nat)
    ensures n <= |evs| && (n < |evs| ==> evs[n].MessageStop?)
    ensures forall k :: 0 <= k < n ==> !evs[k].MessageStop?
    decreases |evs|
  {
    if evs == [] || evs[0].MessageStop? {
      n := 0;
    } else {
      n := FirstStop(evs[1..]);
      n := n + 1;
    }
  }

  /** What the relay and the one-pass converter emit, for every list of events: one chunk for
      each text delta and each message_delta before the first message_stop, in order, with the
      id, text, index, finish reason and token counts that the events give. */
  lemma ChunksTellTheEvents(evs: seq<Event>, model: string) returns (n: nat, at: seq<nat>)
    ensures n <= |evs| && (n < |evs| ==> evs[n].MessageStop?)
    ensures forall k :: 0 <= k < n ==> !evs[k].MessageStop?
    ensures TellsAll(evs[..n], at, model, Convert(START, evs, model))
  {
    n := FirstStop(evs);
    at := ConvertTells(evs[..n], model);
    assert evs == evs[..n] + evs[n..];
    ConvertAppend(START, evs[..n], evs[n..], model);
    Units(Convert(START, evs[..n], model));
    if n < |evs| {
      assert evs[n..][0].MessageStop?;
    } else {
      assert evs[n..] == [];
    }
  }

  /** The contents of the chunks for one index. */
  function ContentsAt(out: seq<Chunk>, i: nat): seq<string> {
    if out == [] then []
    else
      var c := out[|out| - 1].choice;
      ContentsAt(out[..|out| - 1], i) + if c.ContentDelta? && c.index == i then [c.content] else []
  }

  /** The texts of the text deltas for one index. */
  function TextsAt(evs: seq<Event>, i: nat): seq<string> {
    if evs == [] then []
    else
      var ev := evs[|evs| - 1];
      TextsAt(evs[..|evs| - 1], i) + if HasText(ev) && ev.index == i then [ev.delta.text.value] else []
  }

  lemma ContentsSnoc(out: seq<Chunk>, c: Chunk, i: nat)
    ensures ContentsAt(out + [c], i) == ContentsAt(out, i) + if c.choice.ContentDelta? && c.choice.index == i then [c.choice.content] else []
  {
    assert (out + [c])[..|out|] == out;
  }

  /** For every index the contents of the chunks are the texts of its deltas, one by one and so
      also concatenated. */
  lemma {:induction false} TextOfEachIndex(evs: seq<Event>, model: string, i: nat)
    requires forall k :: 0 <= k < |evs| ==> !evs[k].MessageStop?
    ensures ContentsAt(Convert(START, evs, model), i) == TextsAt(evs, i)
    ensures Concat(ContentsAt(Convert(START, evs, model), i)) == Concat(TextsAt(evs, i))
    decreases |evs|
  {
    if evs != [] {
      var before, ev := evs[..|evs| - 1], evs[|evs| - 1];
      TextOfEachIndex(before, model, i);
      var at := ConvertTells(before, model);
      SnocSplit(evs);
      ConvertSnoc(START, before, ev, model);
      LastTells(before, ev, model);
      var out, more := Convert(START, before, model), ChunksOf(RelayAfter(START, before), ev, model);
      if Speaks(ev) {
        assert more == [more[0]];
        ContentsSnoc(out, more[0], i);
      } else {
        Units(out);
        Units(TextsAt(before, i));
      }
    }
  }
}
