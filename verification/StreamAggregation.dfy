/** `AggregateAnthropicStreamEvents` (internal/adapter/cloud_signed.go): rebuilding one
    message from a stream of block fragments. */
module StreamAggregation {
  import opened Prelude
  import opened AnthropicTypes

  /** How the wait for further events ends when no event ended the aggregation. */
  datatype Ending = ChannelClosed | IdleTimeout | Canceled

  datatype Outcome = Aggregated(resp: Response) | UpstreamError(message: string) | Idle | Cancelled

  /** The three variables the loop updates. */
  datatype Acc = Acc(resp: Response, blocks: seq<ContentBlock>, bufs: map<nat, string>)

  const EMPTY_RESPONSE: Response := Response("", "assistant", "", [], "", None, Usage(0, 0, 0, 0))

  function Start(): Acc { Acc(EMPTY_RESPONSE, [], map[]) }

  predicate EndsAggregation(ev: Event) { ev.MessageStop? || ev.ErrorEvent? }

  // ---------------------------------------------------------------- specification functions

  function Padded(blocks: seq<ContentBlock>, n: nat): (r: seq<ContentBlock>)
    ensures |r| == if |blocks| < n then n else |blocks|
    ensures forall k :: 0 <= k < |blocks| ==> r[k] == blocks[k]
  {
    if |blocks| < n then blocks + seq(n - |blocks|, _ => EMPTY_BLOCK) else blocks
  }

  function Buf(bufs: map<nat, string>, idx: nat): string {
    if idx in bufs then bufs[idx] else ""
  }

  /** The bytes an input_json_delta contributes. */
  function Fragment(d: Delta): string
    requires d.InputJsonDelta?
  {
    if d.raw == "" then "" else if d.decoded.Some? then d.decoded.value else d.raw
  }

  function StartBlock(acc: Acc, idx: nat, blk: ContentBlock): Acc {
    var bufs := if blk.typ == "tool_use" then acc.bufs[idx := ""] else acc.bufs;
    acc.(blocks := Padded(acc.blocks, idx + 1)[idx := blk], bufs := bufs)
  }

  function ApplyDelta(acc: Acc, idx: nat, delta: Option<Delta>): Acc {
    if idx >= |acc.blocks| || delta.None? then acc else
    var b := acc.blocks[idx];
    match delta.value
    case TextDelta(t) => acc.(blocks := acc.blocks[idx := b.(text := b.text + t)])
    case ThinkingDelta(t) => acc.(blocks := acc.blocks[idx := b.(thinking := b.thinking + t)])
    case SignatureDelta(t) => acc.(blocks := acc.blocks[idx := b.(signature := b.signature + t)])
    case InputJsonDelta(raw, _) =>
      if raw == "" then acc else acc.(bufs := acc.bufs[idx := Buf(acc.bufs, idx) + Fragment(delta.value)])
    case OtherDelta => acc
  }

  function StopBlock(acc: Acc, idx: nat): Acc {
    if Buf(acc.bufs, idx) != "" && idx < |acc.blocks|
    then acc.(blocks := acc.blocks[idx := acc.blocks[idx].(input := acc.bufs[idx])]) else acc
  }

  function StartMessage(resp: Response, m: Response): Response {
    resp.(id := m.id, model := m.model, role := if m.role == "" then "assistant" else m.role, usage := m.usage)
  }

  function UpdateUsage(u: Usage, d: Usage): Usage {
    Usage(if d.inputTokens > 0 then d.inputTokens else u.inputTokens,
          d.outputTokens,
          if d.cacheCreation > 0 then d.cacheCreation else u.cacheCreation,
          if d.cacheRead > 0 then d.cacheRead else u.cacheRead)
  }

  function ApplyMessageDelta(resp: Response, usage: Option<Usage>, stopReason: string, stopSequence: Option<string>): Response {
    resp.(usage := if usage.Some? then UpdateUsage(resp.usage, usage.value) else resp.usage,
          stopReason := if stopReason != "" then stopReason else resp.stopReason,
          stopSequence := if stopSequence.Some? then stopSequence else resp.stopSequence)
  }

  function Apply(acc: Acc, ev: Event): Acc {
    match ev
    case MessageStart(Some(m)) => acc.(resp := StartMessage(acc.resp, m))
    case BlockStart(idx, Some(blk)) => StartBlock(acc, idx, blk)
    case BlockDelta(idx, d) => ApplyDelta(acc, idx, d.full)
    case BlockStop(idx) => StopBlock(acc, idx)
    case MessageDelta(u, r, q) => acc.(resp := ApplyMessageDelta(acc.resp, u, r, q))
    case _ => acc
  }

  function Fold(evs: seq<Event>): Acc {
    if evs == [] then Start() else Apply(Fold(evs[..|evs| - 1]), evs[|evs| - 1])
  }

  /** The position of the first event that ends the aggregation, or the length. */
  function FirstEnd(evs: seq<Event>): (n: nat)
    ensures n <= |evs| && (n < |evs| ==> EndsAggregation(evs[n]))
    ensures forall k :: 0 <= k < n ==> !EndsAggregation(evs[k])
  {
    if evs == [] || EndsAggregation(evs[0]) then 0 else 1 + FirstEnd(evs[1..])
  }

  function Aggregate(evs: seq<Event>, ending: Ending): Outcome {
    var n := FirstEnd(evs);
    var acc := Fold(evs[..n]);
    var resp := acc.resp.(content := acc.blocks);
    if n < |evs| then
      match evs[n]
      case ErrorEvent(m) => UpstreamError(if m.Some? && m.value != "" then m.value else "upstream stream error")
      case _ => Aggregated(resp)
    else
      match ending
      case ChannelClosed => Aggregated(if resp.stopReason == "" then resp.(stopReason := "end_turn") else resp)
      case IdleTimeout => Idle
      case Canceled => Cancelled
  }

  // ---------------------------------------------------------------- the imperative form

  method FlushBlock(blocks: seq<ContentBlock>, bufs: map<nat, string>, idx: nat, blk: ContentBlock)
    returns (blocks': seq<ContentBlock>)
    ensures blocks' == Padded(blocks, idx + 1)
      [idx := if blk.typ == "tool_use" && Buf(bufs, idx) != "" then blk.(input := bufs[idx]) else blk]
  {
    blocks' := blocks;
    var i := |blocks|;
    while i <= idx
      invariant |blocks| <= i && (i <= idx + 1 || i == |blocks|)
      invariant blocks' == blocks + seq(i - |blocks|, _ => EMPTY_BLOCK)
    {
      blocks' := blocks' + [EMPTY_BLOCK];
      i := i + 1;
    }
    assert blocks' == Padded(blocks, idx + 1);
    var b := blk;
    if blk.typ == "tool_use" && idx in bufs && |bufs[idx]| > 0 {
      b := b.(input := bufs[idx]);
    }
    blocks' := blocks'[idx := b];
  }

  /** The event switch, for the events that do not end the aggregation. */
  method HandleEvent(resp0: Response, blocks0: seq<ContentBlock>, bufs0: map<nat, string>, ev: Event)
    returns (resp: Response, blocks: seq<ContentBlock>, bufs: map<nat, string>)
    requires !EndsAggregation(ev)
    ensures Acc(resp, blocks, bufs) == Apply(Acc(resp0, blocks0, bufs0), ev)
  {
    resp, blocks, bufs := resp0, blocks0, bufs0;
    match ev {
      case MessageStart(m) =>
        if m.Some? {
          resp := resp.(id := m.value.id, model := m.value.model, role := m.value.role);
          if m.value.role == "" {
            resp := resp.(role := "assistant");
          }
          resp := resp.(usage := m.value.usage);
        }
      case BlockStart(idx, blk) =>
        if blk.Some? {
          if blk.value.typ == "tool_use" {
            bufs := bufs[idx := ""];
          }
          blocks := FlushBlock(blocks, bufs, idx, blk.value);
        }
      case BlockDelta(idx, view) =>
        if idx < |blocks| && view.full.Some? {
          match view.full.value {
            case TextDelta(t) => blocks := blocks[idx := blocks[idx].(text := blocks[idx].text + t)];
            case ThinkingDelta(t) => blocks := blocks[idx := blocks[idx].(thinking := blocks[idx].thinking + t)];
            case SignatureDelta(t) => blocks := blocks[idx := blocks[idx].(signature := blocks[idx].signature + t)];
            case InputJsonDelta(raw, decoded) =>
              if |raw| > 0 {
                var more := if decoded.Some? then decoded.value else raw;
                bufs := bufs[idx := (if idx in bufs then bufs[idx] else "") + more];
              }
            case OtherDelta =>
          }
        }
      case BlockStop(idx) =>
        if idx in bufs && |bufs[idx]| > 0 && idx < |blocks| {
          blocks := blocks[idx := blocks[idx].(input := bufs[idx])];
        }
      case MessageDelta(usage, stopReason, stopSequence) =>
        if usage.Some? {
          var u := usage.value;
          resp := resp.(usage := resp.usage.(outputTokens := u.outputTokens));
          if u.inputTokens > 0 { resp := resp.(usage := resp.usage.(inputTokens := u.inputTokens)); }
          if u.cacheCreation > 0 { resp := resp.(usage := resp.usage.(cacheCreation := u.cacheCreation)); }
          if u.cacheRead > 0 { resp := resp.(usage := resp.usage.(cacheRead := u.cacheRead)); }
        }
        if stopReason != "" { resp := resp.(stopReason := stopReason); }
        if stopSequence.Some? { resp := resp.(stopSequence := stopSequence); }
      case OtherEvent =>
    }
  }

  /** The loop over the channel: `evs` are the events received before `ending`. */
  method AggregateStreamEvents(evs: seq<Event>, ending: Ending) returns (r: Outcome)
    ensures r == Aggregate(evs, ending)
  {
    var resp := EMPTY_RESPONSE;
    var blocks: seq<ContentBlock> := [];
    var bufs: map<nat, string> := map[];
    var k := 0;
    while k < |evs|
      invariant Aggregating(evs, k, Acc(resp, blocks, bufs))
    {
      AggregatingStep(evs, k, Acc(resp, blocks, bufs), ending);
      match evs[k] {
        case MessageStop =>
          return Aggregated(resp.(content := blocks));
        case ErrorEvent(m) =>
          var msg := "upstream stream error";
          if m.Some? && m.value != "" { msg := m.value; }
          return UpstreamError(msg);
        case _ =>
          resp, blocks, bufs := HandleEvent(resp, blocks, bufs, evs[k]);
      }
      k := k + 1;
    }
    AggregatingEnd(evs, Acc(resp, blocks, bufs), ending);
    match ending {
      case IdleTimeout => return Idle;
      case Canceled => return Cancelled;
      case ChannelClosed =>
        resp := resp.(content := blocks);
        if resp.stopReason == "" { resp := resp.(stopReason := "end_turn"); }
        return Aggregated(resp);
    }
  }

  /** What the loop keeps: none of the first `k` events ends it, and `acc` is their fold. */
  predicate Aggregating(evs: seq<Event>, k: nat, acc: Acc) {
    k <= FirstEnd(evs) && k <= |evs| && acc == Fold(evs[..k])
  }

  /** The outcome of an event that ends the aggregation. */
  function EndOutcome(acc: Acc, ev: Event): Outcome {
    match ev
    case ErrorEvent(m) => UpstreamError(if m.Some? && m.value != "" then m.value else "upstream stream error")
    case _ => Aggregated(acc.resp.(content := acc.blocks))
  }

  lemma AggregatingStep(evs: seq<Event>, k: nat, acc: Acc, ending: Ending)
    requires Aggregating(evs, k, acc) && k < |evs|
    ensures EndsAggregation(evs[k]) ==> Aggregate(evs, ending) == EndOutcome(acc, evs[k])
    ensures !EndsAggregation(evs[k]) ==> Aggregating(evs, k + 1, Apply(acc, evs[k]))
  {
    if EndsAggregation(evs[k]) {
      assert k == FirstEnd(evs);
    } else {
      assert evs[..k + 1][..k] == evs[..k];
    }
  }

  lemma AggregatingEnd(evs: seq<Event>, acc: Acc, ending: Ending)
    requires Aggregating(evs, |evs|, acc)
    ensures Aggregate(evs, ending) ==
            match ending
            case ChannelClosed =>
              var resp := acc.resp.(content := acc.blocks);
              Aggregated(if resp.stopReason == "" then resp.(stopReason := "end_turn") else resp)
            case IdleTimeout => Idle
            case Canceled => Cancelled
  {
    assert evs[..|evs|] == evs;
  }

  // ---------------------------------------------------------------- one block at a time

  /** The events that concern block `i`. */
  predicate Concerns(ev: Event, i: nat) {
    match ev
    case BlockStart(idx, blk) => idx == i && blk.Some?
    case BlockDelta(idx, _) => idx == i
    case BlockStop(idx) => idx == i
    case _ => false
  }

  /** The subsequence of events that concern block `i`. */
  function Project(evs: seq<Event>, i: nat): seq<Event> {
    if evs == [] then []
    else
      var before := Project(evs[..|evs| - 1], i);
      var last := evs[|evs| - 1];
      if Concerns(last, i) then before + [last] else before
  }

  /** One start, first; then deltas and stops. */
  predicate StartsOnce(p: seq<Event>) {
    p != [] ==>
      && p[0].BlockStart? && p[0].block.Some?
      && forall k :: 1 <= k < |p| ==> p[k].BlockDelta? || p[k].BlockStop?
  }

  /** A block under construction: its value so far and the JSON bytes collected for it. */
  datatype Cell = Cell(block: ContentBlock, buf: string)

  function StepCell(c: Cell, ev: Event): Cell {
    match ev
    case BlockDelta(_, DeltaView(Some(TextDelta(t)), _)) => c.(block := c.block.(text := c.block.text + t))
    case BlockDelta(_, DeltaView(Some(ThinkingDelta(t)), _)) => c.(block := c.block.(thinking := c.block.thinking + t))
    case BlockDelta(_, DeltaView(Some(SignatureDelta(t)), _)) => c.(block := c.block.(signature := c.block.signature + t))
    case BlockDelta(_, DeltaView(Some(InputJsonDelta(raw, decoded)), _)) =>
      c.(buf := c.buf + Fragment(InputJsonDelta(raw, decoded)))
    case BlockStop(_) => if c.buf == "" then c else c.(block := c.block.(input := c.buf))
    case _ => c
  }

  function CellOf(p: seq<Event>): Cell
    requires p != [] && StartsOnce(p)
  {
    if |p| == 1 then Cell(p[0].block.value, "")
    else StepCell(CellOf(p[..|p| - 1]), p[|p| - 1])
  }

  /** An event that does not concern block `i` leaves its block and its buffer alone. */
  lemma OthersLeaveAlone(acc: Acc, ev: Event, i: nat)
    requires !Concerns(ev, i)
    ensures var acc' := Apply(acc, ev);
            && |acc.blocks| <= |acc'.blocks|
            && (i < |acc'.blocks| ==> acc'.blocks[i] == if i < |acc.blocks| then acc.blocks[i] else EMPTY_BLOCK)
            && (i in acc'.bufs <==> i in acc.bufs)
            && Buf(acc'.bufs, i) == Buf(acc.bufs, i)
  {
  }

  /** An event of block `i` moves it as its cell moves. */
  lemma OwnStep(acc: Acc, ev: Event, i: nat)
    requires Concerns(ev, i) && (ev.BlockStart? || i < |acc.blocks|)
    ensures var acc' := Apply(acc, ev);
            && i < |acc'.blocks|
            && (ev.BlockStart? ==> acc'.blocks[i] == ev.block.value)
            && (ev.BlockStart? && (i !in acc.bufs || ev.block.value.typ == "tool_use") ==> Buf(acc'.bufs, i) == "")
            && (!ev.BlockStart? ==>
                  Cell(acc'.blocks[i], Buf(acc'.bufs, i)) == StepCell(Cell(acc.blocks[i], Buf(acc.bufs, i)), ev))
  {
    if ev.BlockDelta? && ev.delta.full.Some? && ev.delta.full.value.InputJsonDelta? {
      assert Buf(acc.bufs, i) + "" == Buf(acc.bufs, i);
    }
  }

  /** What the events of block `i` alone make of it; without any it is the empty block that
      fills a gap. */
  ghost predicate AsOwnEvents(acc: Acc, p: seq<Event>, i: nat) {
    StartsOnce(p) &&
    if p == [] then i !in acc.bufs && (i < |acc.blocks| ==> acc.blocks[i] == EMPTY_BLOCK)
    else i < |acc.blocks| && acc.blocks[i] == CellOf(p).block && Buf(acc.bufs, i) == CellOf(p).buf
  }

  lemma StartsOnceFront(q: seq<Event>, ev: Event)
    requires StartsOnce(q + [ev])
    ensures StartsOnce(q) && (q == [] ==> ev.BlockStart? && ev.block.Some?) && (q != [] ==> ev.BlockDelta? || ev.BlockStop?)
  {
    var p := q + [ev];
    assert p[|q|] == ev && forall k :: 0 <= k < |q| ==> q[k] == p[k];
  }

  lemma CellSnoc(q: seq<Event>, ev: Event)
    requires StartsOnce(q + [ev]) && StartsOnce(q)
    ensures q == [] ==> CellOf(q + [ev]) == Cell(ev.block.value, "")
    ensures q != [] ==> CellOf(q + [ev]) == StepCell(CellOf(q), ev)
  {
    var p := q + [ev];
    assert p[..|p| - 1] == q && p[|p| - 1] == ev;
  }

  lemma OwnEvent(acc: Acc, q: seq<Event>, ev: Event, i: nat)
    requires AsOwnEvents(acc, q, i) && Concerns(ev, i) && StartsOnce(q + [ev])
    ensures AsOwnEvents(Apply(acc, ev), q + [ev], i)
  {
    StartsOnceFront(q, ev);
    CellSnoc(q, ev);
    OwnStep(acc, ev, i);
  }

  lemma ForeignEvent(acc: Acc, q: seq<Event>, ev: Event, i: nat)
    requires AsOwnEvents(acc, q, i) && !Concerns(ev, i)
    ensures AsOwnEvents(Apply(acc, ev), q, i)
  {
    OthersLeaveAlone(acc, ev, i);
  }

  /** Interleaving does not matter: whatever events of other blocks and of the message come
      in between, the state of block `i` is the one its own events build. */
  lemma {:induction false} BlocksAreIndependent(evs: seq<Event>, i: nat)
    requires StartsOnce(Project(evs, i))
    ensures AsOwnEvents(Fold(evs), Project(evs, i), i)
  {
    if evs != [] {
      var before, ev := evs[..|evs| - 1], evs[|evs| - 1];
      var q := Project(before, i);
      if Concerns(ev, i) {
        StartsOnceFront(q, ev);
        BlocksAreIndependent(before, i);
        OwnEvent(Fold(before), q, ev, i);
      } else {
        BlocksAreIndependent(before, i);
        ForeignEvent(Fold(before), q, ev, i);
      }
    }
  }

  predicate StartsBlock(ev: Event, i: nat) { ev.BlockStart? && ev.block.Some? && ev.index == i }

  lemma {:induction false} ProjectKeeps(evs: seq<Event>, i: nat)
    requires forall k :: 0 <= k < |evs| ==> !StartsBlock(evs[k], i)
    ensures forall k :: 0 <= k < |Project(evs, i)| ==> Project(evs, i)[k].BlockDelta? || Project(evs, i)[k].BlockStop?
  {
    if evs != [] { ProjectKeeps(evs[..|evs| - 1], i); }
  }

  /** A new start of a tool_use block forgets what came before: afterwards the block is what the
      start and the events of the block behind it build, whatever happened earlier. */
  lemma {:induction false} LastStartDecides(pre: seq<Event>, start: Event, post: seq<Event>, i: nat)
    requires StartsBlock(start, i) && start.block.value.typ == "tool_use"
    requires forall k :: 0 <= k < |post| ==> !StartsBlock(post[k], i)
    ensures AsOwnEvents(Fold(pre + [start] + post), [start] + Project(post, i), i)
    decreases |post|
  {
    if post == [] {
      Units(pre + [start]);
      Units([start]);
      assert (pre + [start])[..|pre|] == pre;
      OwnStep(Fold(pre), start, i);
    } else {
      var before, ev := post[..|post| - 1], post[|post| - 1];
      LastStartDecides(pre, start, before, i);
      SnocSplit(post);
      Assoc(pre + [start], before, [ev]);
      var all := pre + [start] + post;
      assert all[..|all| - 1] == pre + [start] + before && all[|all| - 1] == ev;
      ProjectKeeps(post, i);
      if Concerns(ev, i) {
        Assoc([start], Project(before, i), [ev]);
        OwnEvent(Fold(pre + [start] + before), [start] + Project(before, i), ev, i);
      } else {
        ForeignEvent(Fold(pre + [start] + before), [start] + Project(before, i), ev, i);
      }
    }
  }

  lemma {:induction false} BlockCount(evs: seq<Event>, n: nat)
    requires forall k, i: nat :: 0 <= k < |evs| && Concerns(evs[k], i) ==> i < n
    ensures |Fold(evs).blocks| <= n
  {
    if evs != [] {
      var before, ev := evs[..|evs| - 1], evs[|evs| - 1];
      BlockCount(before, n);
      if ev.BlockStart? { assert Concerns(ev, ev.index) <==> ev.block.Some?; }
    }
  }

  // ---------------------------------------------------------------- what a rendering is

  function TextPiece(ev: Event): string {
    match ev case BlockDelta(_, DeltaView(Some(TextDelta(t)), _)) => t case _ => ""
  }

  function ThinkingPiece(ev: Event): string {
    match ev case BlockDelta(_, DeltaView(Some(ThinkingDelta(t)), _)) => t case _ => ""
  }

  function SignaturePiece(ev: Event): string {
    match ev case BlockDelta(_, DeltaView(Some(SignatureDelta(t)), _)) => t case _ => ""
  }

  function InputPiece(ev: Event): string {
    match ev
    case BlockDelta(_, DeltaView(Some(InputJsonDelta(raw, decoded)), _)) => Fragment(InputJsonDelta(raw, decoded))
    case _ => ""
  }

  function Pieces(evs: seq<Event>, piece: Event -> string): seq<string> {
    seq(|evs|, k requires 0 <= k < |evs| => piece(evs[k]))
  }

  /** `p` renders `block`: a start with any initial content, any number of deltas of any
      kinds in any order, and a stop; the initial content and the fragments of each kind
      concatenate to the block's fields. The input is the concatenation of its fragments
      when that is non-empty, and the start block's input otherwise. */
  predicate Renders(p: seq<Event>, block: ContentBlock) {
    && |p| >= 2
    && p[0].BlockStart? && p[0].block.Some? && p[|p| - 1].BlockStop?
    && (forall k :: 1 <= k < |p| - 1 ==> p[k].BlockDelta?)
    && var first, mid := p[0].block.value, p[1..|p| - 1];
       var input := Concat(Pieces(mid, InputPiece));
       block == first.(
         text := first.text + Concat(Pieces(mid, TextPiece)),
         thinking := first.thinking + Concat(Pieces(mid, ThinkingPiece)),
         signature := first.signature + Concat(Pieces(mid, SignaturePiece)),
         input := if input == "" then first.input else input)
  }

  /** Every interleaving of renderings of `blocks`: each block's own events are in order,
      events that concern no block may stand anywhere, and nothing ends the stream. */
  ghost predicate Interleaves(evs: seq<Event>, blocks: seq<ContentBlock>) {
    && (forall k :: 0 <= k < |evs| ==> !EndsAggregation(evs[k]))
    && (forall k, i: nat :: 0 <= k < |evs| && Concerns(evs[k], i) ==> i < |blocks|)
    && (forall i :: 0 <= i < |blocks| ==> Renders(Project(evs, i), blocks[i]))
  }

  lemma PiecesSnoc(evs: seq<Event>, ev: Event, piece: Event -> string)
    ensures Concat(Pieces(evs + [ev], piece)) == Concat(Pieces(evs, piece)) + piece(ev)
  {
    assert Pieces(evs + [ev], piece) == Pieces(evs, piece) + [piece(ev)];
    ConcatSnoc(Pieces(evs, piece), piece(ev));
  }

  /** Start and deltas, before the stop: the cell in closed form. */
  lemma {:induction false} CellClosedForm(p: seq<Event>)
    requires p != [] && StartsOnce(p) && forall k :: 1 <= k < |p| ==> p[k].BlockDelta?
    ensures var first, mid := p[0].block.value, p[1..];
            CellOf(p) == Cell(
              first.(text := first.text + Concat(Pieces(mid, TextPiece)),
                     thinking := first.thinking + Concat(Pieces(mid, ThinkingPiece)),
                     signature := first.signature + Concat(Pieces(mid, SignaturePiece))),
              Concat(Pieces(mid, InputPiece)))
  {
    var first, mid := p[0].block.value, p[1..];
    if |p| == 1 {
      assert Pieces(mid, TextPiece) == [] && Pieces(mid, ThinkingPiece) == [];
      assert Pieces(mid, SignaturePiece) == [] && Pieces(mid, InputPiece) == [];
      assert first.text + [] == first.text && first.thinking + [] == first.thinking;
      assert first.signature + [] == first.signature;
    } else {
      var q, ev := p[..|p| - 1], p[|p| - 1];
      CellClosedForm(q);
      assert mid == q[1..] + [ev];
      PiecesSnoc(q[1..], ev, TextPiece);
      PiecesSnoc(q[1..], ev, ThinkingPiece);
      PiecesSnoc(q[1..], ev, SignaturePiece);
      PiecesSnoc(q[1..], ev, InputPiece);
      ClosedFormStep(CellOf(q), ev, first,
                     Concat(Pieces(q[1..], TextPiece)), Concat(Pieces(q[1..], ThinkingPiece)),
                     Concat(Pieces(q[1..], SignaturePiece)), Concat(Pieces(q[1..], InputPiece)));
    }
  }

  lemma ClosedFormStep(c: Cell, ev: Event, first: ContentBlock, text: string, thinking: string, signature: string, input: string)
    requires ev.BlockDelta?
    requires c == Cell(first.(text := first.text + text, thinking := first.thinking + thinking,
                              signature := first.signature + signature), input)
    ensures StepCell(c, ev) == Cell(
              first.(text := first.text + (text + TextPiece(ev)),
                     thinking := first.thinking + (thinking + ThinkingPiece(ev)),
                     signature := first.signature + (signature + SignaturePiece(ev))),
              input + InputPiece(ev))
  {
    assert first.text + (text + TextPiece(ev)) == (first.text + text) + TextPiece(ev);
    assert first.thinking + (thinking + ThinkingPiece(ev)) == (first.thinking + thinking) + ThinkingPiece(ev);
    assert first.signature + (signature + SignaturePiece(ev)) == (first.signature + signature) + SignaturePiece(ev);
    assert text + "" == text && thinking + "" == thinking && signature + "" == signature && input + "" == input;
  }

  lemma RenderedCell(p: seq<Event>, block: ContentBlock)
    requires Renders(p, block)
    ensures StartsOnce(p) && CellOf(p).block == block
  {
    var q := p[..|p| - 1];
    assert q[1..] == p[1..|p| - 1];
    assert StartsOnce(p) && StartsOnce(q);
    CellClosedForm(q);
  }

  /** Block `i` of the aggregate is `block`. */
  predicate Built(evs: seq<Event>, i: nat, block: ContentBlock) {
    i < |Fold(evs).blocks| && Fold(evs).blocks[i] == block
  }

  lemma Assembled(evs: seq<Event>, blocks: seq<ContentBlock>)
    requires |Fold(evs).blocks| <= |blocks| && forall i :: 0 <= i < |blocks| ==> Built(evs, i, blocks[i])
    ensures Fold(evs).blocks == blocks
  {
    if |blocks| > 0 {
      assert Built(evs, |blocks| - 1, blocks[|blocks| - 1]);
    }
  }

  /** Reconstruction: after any interleaving of any fragmentation the blocks are the
      original ones, each at its index. */
  lemma InterleavingRebuildsBlocks(evs: seq<Event>, blocks: seq<ContentBlock>)
    requires Interleaves(evs, blocks)
    ensures Fold(evs).blocks == blocks
  {
    BlockCount(evs, |blocks|);
    forall i | 0 <= i < |blocks| ensures Built(evs, i, blocks[i]) {
      BlockRebuilt(evs, blocks[i], i);
    }
    Assembled(evs, blocks);
  }

  lemma BlockRebuilt(evs: seq<Event>, block: ContentBlock, i: nat)
    requires Renders(Project(evs, i), block)
    ensures Built(evs, i, block)
  {
    RenderedCell(Project(evs, i), block);
    BlocksAreIndependent(evs, i);
  }

  lemma {:induction false} FirstEndSkips(evs: seq<Event>, last: Event, rest: seq<Event>)
    requires forall k :: 0 <= k < |evs| ==> !EndsAggregation(evs[k])
    requires EndsAggregation(last)
    ensures FirstEnd(evs + [last] + rest) == |evs|
  {
    var all := evs + [last] + rest;
    assert all[|evs|] == last;
    assert forall k :: 0 <= k < |evs| ==> all[k] == evs[k];
  }

  /** The round trip. For every list of blocks, every fragmentation and every interleaving,
      followed by message_stop and then anything at all, the aggregate succeeds with exactly
      the original blocks as its content. */
  lemma AggregateRoundTrip(evs: seq<Event>, blocks: seq<ContentBlock>, rest: seq<Event>, ending: Ending)
    requires Interleaves(evs, blocks)
    ensures var r := Aggregate(evs + [MessageStop] + rest, ending);
            r.Aggregated? && r.resp.content == blocks
  {
    FirstEndSkips(evs, MessageStop, rest);
    var all := evs + [MessageStop] + rest;
    assert all[..|evs|] == evs && all[|evs|] == MessageStop;
    InterleavingRebuildsBlocks(evs, blocks);
  }

  // ---------------------------------------------------------------- every message has a rendering

  function OneDelta(i: nat, d: Delta): Event { BlockDelta(i, DeltaView(Some(d), None)) }

  /** A block as one start, one delta per field and a stop. */
  function EncodeBlock(b: ContentBlock, i: nat): seq<Event> {
    [BlockStart(i, Some(b.(text := "", thinking := "", signature := "", input := ""))),
     OneDelta(i, TextDelta(b.text)), OneDelta(i, ThinkingDelta(b.thinking)),
     OneDelta(i, SignatureDelta(b.signature)), OneDelta(i, InputJsonDelta(b.input, None)),
     BlockStop(i)]
  }

  /** All blocks, one after the other. */
  function Encode(blocks: seq<ContentBlock>): seq<Event> {
    if blocks == [] then []
    else Encode(blocks[..|blocks| - 1]) + EncodeBlock(blocks[|blocks| - 1], |blocks| - 1)
  }

  lemma PiecesOfFour(a: Event, b: Event, c: Event, d: Event, piece: Event -> string)
    ensures Concat(Pieces([a, b, c, d], piece)) == piece(a) + piece(b) + piece(c) + piece(d)
  {
    assert Pieces([a, b, c, d], piece) == [piece(a), piece(b), piece(c), piece(d)];
    ConcatFour(piece(a), piece(b), piece(c), piece(d));
  }

  lemma ConcatFour(a: string, b: string, c: string, d: string)
    ensures Concat([a, b, c, d]) == a + b + c + d
  {
    ConcatSnoc([], a);
    ConcatSnoc([a], b);
    ConcatSnoc([a, b], c);
    ConcatSnoc([a, b, c], d);
    Units(a);
    assert [] + [a] == [a] && [a] + [b] == [a, b] && [a, b] + [c] == [a, b, c] && [a, b, c] + [d] == [a, b, c, d];
  }

  lemma EncodedBlockRenders(b: ContentBlock, i: nat)
    ensures Renders(EncodeBlock(b, i), b)
  {
    var p := EncodeBlock(b, i);
    var t, h, s, j := p[1], p[2], p[3], p[4];
    assert p[1..|p| - 1] == [t, h, s, j];
    PiecesOfFour(t, h, s, j, TextPiece);
    PiecesOfFour(t, h, s, j, ThinkingPiece);
    PiecesOfFour(t, h, s, j, SignaturePiece);
    PiecesOfFour(t, h, s, j, InputPiece);
  }

  lemma {:induction false} ProjectAppend(a: seq<Event>, b: seq<Event>, i: nat)
    ensures Project(a + b, i) == Project(a, i) + Project(b, i)
  {
    if b == [] {
      assert a + b == a;
    } else {
      assert (a + b)[..|a + b| - 1] == a + b[..|b| - 1];
      ProjectAppend(a, b[..|b| - 1], i);
    }
  }

  lemma {:induction false} ProjectUniform(p: seq<Event>, i: nat, own: bool)
    requires forall k :: 0 <= k < |p| ==> Concerns(p[k], i) == own
    ensures Project(p, i) == if own then p else []
  {
    if p != [] {
      ProjectUniform(p[..|p| - 1], i, own);
      assert p[..|p| - 1] + [p[|p| - 1]] == p;
    }
  }

  lemma {:induction false} EncodeIsOrderly(blocks: seq<ContentBlock>)
    ensures forall k :: 0 <= k < |Encode(blocks)| ==> !EndsAggregation(Encode(blocks)[k])
    ensures forall k, i: nat :: 0 <= k < |Encode(blocks)| && Concerns(Encode(blocks)[k], i) ==> i < |blocks|
  {
    if blocks != [] {
      EncodeIsOrderly(blocks[..|blocks| - 1]);
    }
  }

  lemma {:induction false} EncodeProjects(blocks: seq<ContentBlock>, i: nat)
    requires i < |blocks|
    ensures Project(Encode(blocks), i) == EncodeBlock(blocks[i], i)
  {
    var n := |blocks| - 1;
    var before, last := Encode(blocks[..n]), EncodeBlock(blocks[n], n);
    ProjectAppend(before, last, i);
    ProjectUniform(last, i, i == n);
    if i == n {
      EncodeIsOrderly(blocks[..n]);
      ProjectUniform(before, n, false);
      Units(last);
    } else {
      EncodeProjects(blocks[..n], i);
      Units(Project(before, i));
    }
  }

  lemma EncodeInterleaves(blocks: seq<ContentBlock>)
    ensures Interleaves(Encode(blocks), blocks)
  {
    EncodeIsOrderly(blocks);
    forall i | 0 <= i < |blocks| ensures Renders(Project(Encode(blocks), i), blocks[i]) {
      EncodeProjects(blocks, i);
      EncodedBlockRenders(blocks[i], i);
    }
  }

  /** Encoding a message and aggregating the stream is the identity on its content. */
  lemma EncodeThenAggregate(blocks: seq<ContentBlock>, ending: Ending)
    ensures var r := Aggregate(Encode(blocks) + [MessageStop], ending);
            r.Aggregated? && r.resp.content == blocks
  {
    EncodeInterleaves(blocks);
    AggregateRoundTrip(Encode(blocks), blocks, [], ending);
    assert Encode(blocks) + [MessageStop] + [] == Encode(blocks) + [MessageStop];
  }

  // ---------------------------------------------------------------- how many blocks there are

  predicate Starts(ev: Event) { ev.BlockStart? && ev.block.Some? }

  lemma CountStep(acc: Acc, ev: Event)
    ensures |Apply(acc, ev).blocks| ==
            if Starts(ev) && ev.index >= |acc.blocks| then ev.index + 1 else |acc.blocks|
  {
  }

  /** There are as many blocks as the largest started index asks for: every started index is
      below their number, and if there are any, the last index has been started. */
  lemma {:induction false} BlockCountIs(evs: seq<Event>)
    ensures var n := |Fold(evs).blocks|;
            && (forall k :: 0 <= k < |evs| && Starts(evs[k]) ==> evs[k].index < n)
            && (n > 0 ==> exists k :: 0 <= k < |evs| && Starts(evs[k]) && evs[k].index == n - 1)
  {
    if evs != [] {
      var before, ev := evs[..|evs| - 1], evs[|evs| - 1];
      BlockCountIs(before);
      CountStep(Fold(before), ev);
      assert forall k :: 0 <= k < |before| ==> before[k] == evs[k];
    }
  }

  /** A delta or a stop for an index at which there is no block yet changes nothing. */
  lemma TooEarlyIsIgnored(evs: seq<Event>, ev: Event)
    requires (ev.BlockDelta? || ev.BlockStop?) && forall k :: 0 <= k < |evs| && Starts(evs[k]) ==> evs[k].index < ev.index
    ensures Fold(evs + [ev]) == Fold(evs)
  {
    BlockCountIs(evs);
    assert (evs + [ev])[..|evs|] == evs;
  }

  // ---------------------------------------------------------------- the head of the message

  function IdOf(ev: Event): Option<string> {
    if ev.MessageStart? && ev.message.Some? then Some(ev.message.value.id) else None
  }

  function ModelOf(ev: Event): Option<string> {
    if ev.MessageStart? && ev.message.Some? then Some(ev.message.value.model) else None
  }

  /** An empty role reads as assistant. */
  function RoleOf(ev: Event): Option<string> {
    if ev.MessageStart? && ev.message.Some?
    then Some(if ev.message.value.role == "" then "assistant" else ev.message.value.role) else None
  }

  /** A message_delta gives a stop reason when it is not empty. */
  function ReasonOf(ev: Event): Option<string> {
    if ev.MessageDelta? && ev.stopReason != "" then Some(ev.stopReason) else None
  }

  function SequenceOf(ev: Event): Option<Option<string>> {
    if ev.MessageDelta? && ev.stopSequence.Some? then Some(ev.stopSequence) else None
  }

  /** Id, model and role are those of the last message_start that carries a message; stop
      reason and stop sequence are those of the last message_delta that gives one. */
  ghost predicate HeadIs(evs: seq<Event>, r: Response) {
    && Latest(evs, IdOf, "", r.id) && Latest(evs, ModelOf, "", r.model) && Latest(evs, RoleOf, "assistant", r.role)
    && Latest(evs, ReasonOf, "", r.stopReason) && Latest(evs, SequenceOf, None, r.stopSequence)
  }

  lemma HeadStep(acc: Acc, ev: Event)
    ensures var r, r' := acc.resp, Apply(acc, ev).resp;
            && r'.id == (if IdOf(ev).Some? then IdOf(ev).value else r.id)
            && r'.model == (if ModelOf(ev).Some? then ModelOf(ev).value else r.model)
            && r'.role == (if RoleOf(ev).Some? then RoleOf(ev).value else r.role)
            && r'.stopReason == (if ReasonOf(ev).Some? then ReasonOf(ev).value else r.stopReason)
            && r'.stopSequence == (if SequenceOf(ev).Some? then SequenceOf(ev).value else r.stopSequence)
  {
  }

  lemma {:induction false} HeadIsLatest(evs: seq<Event>)
    ensures HeadIs(evs, Fold(evs).resp)
  {
    if evs != [] {
      var before, ev := evs[..|evs| - 1], evs[|evs| - 1];
      var r := Fold(before).resp;
      HeadIsLatest(before);
      HeadStep(Fold(before), ev);
      LatestSnoc(before, ev, IdOf, "", r.id);
      LatestSnoc(before, ev, ModelOf, "", r.model);
      LatestSnoc(before, ev, RoleOf, "assistant", r.role);
      LatestSnoc(before, ev, ReasonOf, "", r.stopReason);
      LatestSnoc(before, ev, SequenceOf, None, r.stopSequence);
      SnocSplit(evs);
    }
  }

  /** No event gives a stop reason. */
  ghost predicate NoReason(evs: seq<Event>) { forall k :: 0 <= k < |evs| ==> ReasonOf(evs[k]).None? }

  /** The response to a stream of events that message_stop ends. */
  ghost predicate Responds(evs: seq<Event>, r: Response) { HeadIs(evs, r) && LatestReports(evs, r.usage) }

  /** The response to a stream that the channel ends: the same, with end_turn exactly when no
      stop reason was given. */
  ghost predicate RespondsAtClose(evs: seq<Event>, r: Response) {
    if NoReason(evs) then r.stopReason == "end_turn" && Responds(evs, r.(stopReason := "")) else Responds(evs, r)
  }

  /** What the whole aggregation returns, in terms of the events alone. The events before the
      first message_stop or error decide; the channel's end decides when there is none. */
  ghost predicate Returns(evs: seq<Event>, ending: Ending, n: nat, r: Outcome)
    requires n <= |evs|
  {
    if n < |evs| && evs[n].ErrorEvent? then
      r == UpstreamError(if evs[n].message' == None || evs[n].message' == Some("") then "upstream stream error" else evs[n].message'.value)
    else if n < |evs| then r.Aggregated? && Responds(evs[..n], r.resp)
    else if ending.ChannelClosed? then r.Aggregated? && RespondsAtClose(evs, r.resp)
    else r == if ending.IdleTimeout? then Idle else Cancelled
  }

  lemma FoldResponds(evs: seq<Event>, content: seq<ContentBlock>)
    ensures Responds(evs, Fold(evs).resp.(content := content))
    ensures Fold(evs).resp.stopReason == "" <==> NoReason(evs)
  {
    HeadIsLatest(evs);
    ReportsExist(evs);
  }

  /** Head, usage, stop reason, errors and endings of the aggregate, for every list of events
      and every way the channel ends: `n` is the position of the first event that ends the
      aggregation. */
  lemma AggregateReturns(evs: seq<Event>, ending: Ending) returns (n: nat)
    ensures n <= |evs| && (n < |evs| ==> evs[n].MessageStop? || evs[n].ErrorEvent?)
    ensures forall k :: 0 <= k < n ==> !evs[k].MessageStop? && !evs[k].ErrorEvent?
    ensures Returns(evs, ending, n, Aggregate(evs, ending))
  {
    n := FirstEnd(evs);
    FoldResponds(evs[..n], Fold(evs[..n]).blocks);
    if n == |evs| {
      assert evs[..n] == evs;
      if ending.ChannelClosed? { CloseResponds(evs, Fold(evs).resp.(content := Fold(evs).blocks)); }
    }
  }

  lemma CloseResponds(evs: seq<Event>, r: Response)
    requires Responds(evs, r) && (r.stopReason == "" <==> NoReason(evs))
    ensures RespondsAtClose(evs, if r.stopReason == "" then r.(stopReason := "end_turn") else r)
  {
    if r.stopReason == "" { assert r.(stopReason := "end_turn").(stopReason := "") == r; }
  }

  // ---------------------------------------------------------------- usage accounting

  datatype Counter = InputTokens | OutputTokens | CacheCreation | CacheRead

  function Get(u: Usage, c: Counter): int {
    match c
    case InputTokens => u.inputTokens
    case OutputTokens => u.outputTokens
    case CacheCreation => u.cacheCreation
    case CacheRead => u.cacheRead
  }

  /** The value an event reports for a counter: a message_start reports all four, a
      message_delta its output tokens and the others when they are positive. */
  function Reported(ev: Event, c: Counter): Option<int> {
    match ev
    case MessageStart(Some(m)) => Some(Get(m.usage, c))
    case MessageDelta(Some(u), _, _) => if c.OutputTokens? || Get(u, c) > 0 then Some(Get(u, c)) else None
    case _ => None
  }

  /** `value` is what the last reporting event says, or zero when no event reports. */
  predicate IsLatestReport(evs: seq<Event>, c: Counter, value: int) {
    || (value == 0 && forall k :: 0 <= k < |evs| ==> Reported(evs[k], c).None?)
    || exists k :: 0 <= k < |evs| && Reported(evs[k], c) == Some(value) &&
                   forall j :: k < j < |evs| ==> Reported(evs[j], c).None?
  }

  lemma UsageStep(acc: Acc, ev: Event, c: Counter)
    ensures Get(Apply(acc, ev).resp.usage, c) ==
            if Reported(ev, c).Some? then Reported(ev, c).value else Get(acc.resp.usage, c)
  {
  }

  lemma LatestReportSnoc(evs: seq<Event>, ev: Event, c: Counter, value: int)
    requires IsLatestReport(evs, c, value)
    ensures IsLatestReport(evs + [ev], c, if Reported(ev, c).Some? then Reported(ev, c).value else value)
  {
    var all, n := evs + [ev], |evs|;
    assert all[n] == ev && forall k :: 0 <= k < n ==> all[k] == evs[k];
    if Reported(ev, c).None? && exists k :: 0 <= k < n && Reported(evs[k], c).Some? {
      var k :| 0 <= k < n && Reported(evs[k], c) == Some(value) &&
               forall j :: k < j < n ==> Reported(evs[j], c).None?;
      assert Reported(all[k], c) == Some(value);
    }
  }

  /** Each of the four counts of the aggregate is the latest reported value. */
  lemma {:induction false} UsageIsLatestReport(evs: seq<Event>, c: Counter)
    ensures IsLatestReport(evs, c, Get(Fold(evs).resp.usage, c))
  {
    if evs != [] {
      var before, ev := evs[..|evs| - 1], evs[|evs| - 1];
      UsageIsLatestReport(before, c);
      UsageStep(Fold(before), ev, c);
      LatestReportSnoc(before, ev, c, Get(Fold(before).resp.usage, c));
      assert before + [ev] == evs;
    }
  }

  /** OpenAI usage of a response, as `AnthropicToOpenAI` computes it. */
  datatype ChatUsage = ChatUsage(prompt: int, completion: int, total: int, cached: int)

  function ToChatUsage(u: Usage): ChatUsage {
    ChatUsage(u.inputTokens + u.cacheCreation + u.cacheRead,
              u.outputTokens,
              u.inputTokens + u.cacheCreation + u.cacheRead + u.outputTokens,
              u.cacheRead)
  }

  predicate NonNegative(u: Usage) {
    u.inputTokens >= 0 && u.outputTokens >= 0 && u.cacheCreation >= 0 && u.cacheRead >= 0
  }

  lemma LatestIsNatural(evs: seq<Event>, c: Counter, value: int)
    requires forall k :: 0 <= k < |evs| ==> Reported(evs[k], c).Some? ==> Reported(evs[k], c).value >= 0
    requires IsLatestReport(evs, c, value)
    ensures value >= 0
  {
  }

  lemma UsageSums(u: Usage)
    requires forall c :: Get(u, c) >= 0
    ensures var t := ToChatUsage(u); 0 <= t.cached <= t.prompt && t.total == t.prompt + t.completion && t.completion >= 0
  {
    assert Get(u, InputTokens) >= 0 && Get(u, OutputTokens) >= 0;
    assert Get(u, CacheCreation) >= 0 && Get(u, CacheRead) >= 0;
  }

  /** The latest reports of a stream, one for each counter. */
  ghost predicate LatestReports(evs: seq<Event>, u: Usage) { forall c :: IsLatestReport(evs, c, Get(u, c)) }

  /** The converted usage in terms of the stream: with `u` the latest reports, the prompt is the
      sum of the input, cache creation and cache read counts, the completion the output count,
      cached the cache read count, and the total all four. No other usage has these reports. */
  lemma ConvertedUsageIsLatest(evs: seq<Event>, u: Usage)
    requires LatestReports(evs, u)
    ensures var t := ToChatUsage(Fold(evs).resp.usage);
            && t.prompt == u.inputTokens + u.cacheCreation + u.cacheRead && t.completion == u.outputTokens
            && t.total == t.prompt + t.completion && t.cached == u.cacheRead
  {
    OneLatest(evs, InputTokens, u);
    OneLatest(evs, OutputTokens, u);
    OneLatest(evs, CacheCreation, u);
    OneLatest(evs, CacheRead, u);
  }

  lemma OneLatest(evs: seq<Event>, c: Counter, u: Usage)
    requires IsLatestReport(evs, c, Get(u, c))
    ensures Get(Fold(evs).resp.usage, c) == Get(u, c)
  {
    UsageIsLatestReport(evs, c);
    LatestIsUnique(evs, c, Get(u, c), Get(Fold(evs).resp.usage, c));
  }

  lemma LatestIsUnique(evs: seq<Event>, c: Counter, a: int, b: int)
    requires IsLatestReport(evs, c, a) && IsLatestReport(evs, c, b)
    ensures a == b
  {
  }

  lemma ReportsExist(evs: seq<Event>)
    ensures LatestReports(evs, Fold(evs).resp.usage)
  {
    forall c ensures IsLatestReport(evs, c, Get(Fold(evs).resp.usage, c)) { UsageIsLatestReport(evs, c); }
  }

  /** After any stream of events with nonnegative counts the converted usage is consistent. */
  lemma ConvertedUsageIsConsistent(evs: seq<Event>)
    requires forall k :: 0 <= k < |evs| ==>
               && (evs[k].MessageStart? && evs[k].message.Some? ==> NonNegative(evs[k].message.value.usage))
               && (evs[k].MessageDelta? && evs[k].usage.Some? ==> NonNegative(evs[k].usage.value))
    ensures var c := ToChatUsage(Fold(evs).resp.usage);
            0 <= c.cached <= c.prompt && c.total == c.prompt + c.completion && c.completion >= 0
  {
    forall c ensures Get(Fold(evs).resp.usage, c) >= 0 {
      UsageIsLatestReport(evs, c);
      LatestIsNatural(evs, c, Get(Fold(evs).resp.usage, c));
    }
    UsageSums(Fold(evs).resp.usage);
  }
}
