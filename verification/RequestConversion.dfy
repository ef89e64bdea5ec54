/** The message part of `AnthropicToOpenAIChatRequest` (internal/adapter/anthropic.go):
    tool_use blocks become tool_calls and tool_result blocks become `tool` messages. The
    flattened system text is an input. */
module RequestConversion {
  import opened Prelude
  import opened AnthropicTypes
  import opened ContentConversion

  datatype Message = Message(role: string, content: seq<ContentBlock>)

  datatype ToolCall = ToolCall(id: string, name: string, arguments: string)

  datatype ChatMessage = ChatMessage(role: string, content: Content, toolCalls: seq<ToolCall>, toolCallId: string)

  // ---------------------------------------------------------------- specification functions

  function Select(blocks: seq<ContentBlock>, keep: ContentBlock -> bool): seq<ContentBlock> {
    if blocks == [] then []
    else
      var before, last := Select(blocks[..|blocks| - 1], keep), blocks[|blocks| - 1];
      if keep(last) then before + [last] else before
  }

  predicate IsText(b: ContentBlock) { b.typ == "text" }
  predicate IsToolUse(b: ContentBlock) { b.typ == "tool_use" }
  predicate IsToolResult(b: ContentBlock) { b.typ == "tool_result" }
  predicate IsExtra(b: ContentBlock) { b.typ != "text" && b.typ != "tool_use" }
  predicate IsRemaining(b: ContentBlock) { b.typ != "tool_result" }

  function Texts(blocks: seq<ContentBlock>): seq<string> {
    seq(|blocks|, k requires 0 <= k < |blocks| => blocks[k].text)
  }

  function Calls(blocks: seq<ContentBlock>): seq<ToolCall> {
    seq(|blocks|, k requires 0 <= k < |blocks| => ToolCall(blocks[k].id, blocks[k].name, blocks[k].input))
  }

  /** The texts of the text blocks, concatenated in order. */
  function JoinedText(m: Message): string { Concat(Texts(Select(m.content, IsText))) }

  /** The tool calls of the tool_use blocks, in order. */
  function CallsOf(m: Message): seq<ToolCall> { Calls(Select(m.content, IsToolUse)) }

  function AssistantMessage(m: Message): ChatMessage {
    var extras := Select(m.content, IsExtra);
    ChatMessage("assistant",
                if extras == [] then Text(JoinedText(m)) else ToContent([TextBlock(JoinedText(m))] + extras),
                CallsOf(m), "")
  }

  function ItemText(item: ToolItem): seq<string> {
    match item
    case NotAnObject => []
    case Object(typ, text) =>
      if typ == "text" then (if text.Some? then [text.value] else []) else ["[" + typ + " omitted]"]
  }

  function ItemTexts(items: seq<ToolItem>): seq<string> {
    if items == [] then [] else ItemTexts(items[..|items| - 1]) + ItemText(items[|items| - 1])
  }

  function JoinLines(parts: seq<string>): string {
    if parts == [] then ""
    else if |parts| == 1 then parts[0]
    else JoinLines(parts[..|parts| - 1]) + "\n" + parts[|parts| - 1]
  }

  function ResultText(content: ToolContent): string {
    match content
    case Absent => ""
    case PlainText(s) => s
    case ItemList(items) => JoinLines(ItemTexts(items))
    case OtherJson(raw) => raw
  }

  function ToolMessage(b: ContentBlock): ChatMessage {
    ChatMessage("tool", Text(ResultText(b.content)), [], b.toolUseId)
  }

  function ToolMessages(blocks: seq<ContentBlock>): seq<ChatMessage> {
    seq(|blocks|, k requires 0 <= k < |blocks| => ToolMessage(blocks[k]))
  }

  function UserMessages(m: Message): seq<ChatMessage> {
    var tools, remaining := ToolMessages(Select(m.content, IsToolResult)), Select(m.content, IsRemaining);
    tools + if remaining != [] then [ChatMessage("user", ToContent(remaining), [], "")]
            else if tools == [] then [ChatMessage("user", Text(""), [], "")]
            else []
  }

  function ConvertMessage(m: Message): (r: seq<ChatMessage>)
    ensures r != []
  {
    if m.role == "assistant" then [AssistantMessage(m)]
    else if m.role == "user" then UserMessages(m)
    else [ChatMessage(m.role, ToContent(m.content), [], "")]
  }

  function ConvertAll(msgs: seq<Message>): seq<ChatMessage> {
    if msgs == [] then [] else ConvertMessage(msgs[0]) + ConvertAll(msgs[1..])
  }

  function SystemMessages(system: string): seq<ChatMessage> {
    if system == "" then [] else [ChatMessage("system", Text(system), [], "")]
  }

  // ---------------------------------------------------------------- the imperative form

  /** The switch over the blocks of an assistant message. */
  method ConvertAssistant(m: Message) returns (msg: ChatMessage)
    ensures msg == AssistantMessage(m)
  {
    var text := "";
    var toolCalls: seq<ToolCall> := [];
    var extras: seq<ContentBlock> := [];
    for k := 0 to |m.content|
      invariant text == Concat(Texts(Select(m.content[..k], IsText)))
      invariant toolCalls == Calls(Select(m.content[..k], IsToolUse))
      invariant extras == Select(m.content[..k], IsExtra)
    {
      var b := m.content[k];
      ghost var before := m.content[..k];
      assert m.content[..k + 1][..k] == before;
      if b.typ == "text" {
        TextsSnoc(Select(before, IsText), b);
        text := text + b.text;
      } else if b.typ == "tool_use" {
        assert Calls(Select(before, IsToolUse) + [b]) == Calls(Select(before, IsToolUse)) + [ToolCall(b.id, b.name, b.input)];
        toolCalls := toolCalls + [ToolCall(b.id, b.name, b.input)];
      } else {
        extras := extras + [b];
      }
    }
    assert m.content[..|m.content|] == m.content;
    var content := Text(text);
    if |extras| > 0 {
      content := BlocksToContent([TextBlock(text)] + extras);
    }
    msg := ChatMessage("assistant", content, toolCalls, "");
  }

  lemma TextsSnoc(blocks: seq<ContentBlock>, b: ContentBlock)
    ensures Concat(Texts(blocks + [b])) == Concat(Texts(blocks)) + b.text
  {
    assert Texts(blocks + [b]) == Texts(blocks) + [b.text];
    ConcatSnoc(Texts(blocks), b.text);
  }

  method FlattenResult(content: ToolContent) returns (text: string)
    ensures text == ResultText(content)
  {
    match content {
      case Absent => return "";
      case PlainText(s) => return s;
      case OtherJson(raw) => return raw;
      case ItemList(items) =>
        var parts: seq<string> := [];
        for k := 0 to |items|
          invariant parts == ItemTexts(items[..k])
        {
          assert items[..k + 1][..k] == items[..k];
          match items[k] {
            case NotAnObject =>
            case Object(typ, t) =>
              if typ == "text" {
                if t.Some? { parts := parts + [t.value]; }
              } else {
                parts := parts + ["[" + typ + " omitted]"];
              }
          }
        }
        assert items[..|items|] == items;
        return JoinLines(parts);
    }
  }

  /** The split of a user message into tool results and the rest. */
  method ConvertUser(m: Message) returns (msgs: seq<ChatMessage>)
    ensures msgs == UserMessages(m)
  {
    msgs := [];
    var remaining: seq<ContentBlock> := [];
    for k := 0 to |m.content|
      invariant msgs == ToolMessages(Select(m.content[..k], IsToolResult))
      invariant remaining == Select(m.content[..k], IsRemaining)
    {
      var b := m.content[k];
      ghost var before := Select(m.content[..k], IsToolResult);
      assert m.content[..k + 1][..k] == m.content[..k];
      if b.typ == "tool_result" {
        var text := FlattenResult(b.content);
        assert ToolMessages(before + [b]) == ToolMessages(before) + [ToolMessage(b)];
        msgs := msgs + [ChatMessage("tool", Text(text), [], b.toolUseId)];
      } else {
        remaining := remaining + [b];
      }
    }
    assert m.content[..|m.content|] == m.content;
    if |remaining| > 0 {
      var content := BlocksToContent(remaining);
      msgs := msgs + [ChatMessage("user", content, [], "")];
    } else if |msgs| == 0 {
      msgs := msgs + [ChatMessage("user", Text(""), [], "")];
    }
  }

  method ConvertRequest(system: string, msgs: seq<Message>) returns (out: seq<ChatMessage>)
    ensures out == SystemMessages(system) + ConvertAll(msgs)
  {
    out := [];
    if system != "" {
      out := [ChatMessage("system", Text(system), [], "")];
    }
    Units(out);
    for k := 0 to |msgs|
      invariant out == SystemMessages(system) + ConvertAll(msgs[..k])
    {
      var more;
      if msgs[k].role == "assistant" {
        var msg := ConvertAssistant(msgs[k]);
        more := [msg];
      } else if msgs[k].role == "user" {
        more := ConvertUser(msgs[k]);
      } else {
        var content := BlocksToContent(msgs[k].content);
        more := [ChatMessage(msgs[k].role, content, [], "")];
      }
      ConvertNext(system, msgs, k);
      out := out + more;
    }
    assert msgs[..|msgs|] == msgs;
  }

  lemma {:induction false} ConvertSnoc(msgs: seq<Message>, m: Message)
    ensures ConvertAll(msgs + [m]) == ConvertAll(msgs) + ConvertMessage(m)
    decreases |msgs|
  {
    if msgs == [] {
      assert msgs + [m] == [m] && [m][1..] == [];
    } else {
      assert (msgs + [m])[1..] == msgs[1..] + [m];
      ConvertSnoc(msgs[1..], m);
      Assoc(ConvertMessage(msgs[0]), ConvertAll(msgs[1..]), ConvertMessage(m));
    }
  }

  lemma ConvertNext(system: string, msgs: seq<Message>, k: nat)
    requires k < |msgs|
    ensures SystemMessages(system) + ConvertAll(msgs[..k + 1]) ==
            (SystemMessages(system) + ConvertAll(msgs[..k])) + ConvertMessage(msgs[k])
  {
    ConvertSnoc(msgs[..k], msgs[k]);
    assert msgs[..k + 1] == msgs[..k] + [msgs[k]];
    Assoc(SystemMessages(system), ConvertAll(msgs[..k]), ConvertMessage(msgs[k]));
  }

  // ---------------------------------------------------------------- tool pairing

  /** The ids an assistant message calls. */
  function UseIds(m: Message): seq<string> {
    if m.role != "assistant" then [] else
    var uses := Select(m.content, IsToolUse);
    seq(|uses|, k requires 0 <= k < |uses| => uses[k].id)
  }

  /** The ids a user message answers. */
  function ResultIds(m: Message): seq<string> {
    if m.role != "user" then [] else
    var results := Select(m.content, IsToolResult);
    seq(|results|, k requires 0 <= k < |results| => results[k].toolUseId)
  }

  /** Every assistant message with tool uses is directly followed by a user message whose
      results answer a permutation of them. */
  ghost predicate UsesAreAnswered(msgs: seq<Message>) {
    forall i :: 0 <= i < |msgs| && UseIds(msgs[i]) != [] ==>
      i + 1 < |msgs| && msgs[i + 1].role == "user" && multiset(ResultIds(msgs[i + 1])) == multiset(UseIds(msgs[i]))
  }

  /** Results stand only behind tool uses, and `tool` is not a role of the input. */
  ghost predicate NoStrayResults(msgs: seq<Message>) {
    && (forall i :: 0 <= i < |msgs| ==> msgs[i].role != "tool")
    && (forall i :: 1 <= i < |msgs| && ResultIds(msgs[i]) != [] ==> UseIds(msgs[i - 1]) != [])
  }

  function CallIds(c: ChatMessage): seq<string> {
    seq(|c.toolCalls|, k requires 0 <= k < |c.toolCalls| => c.toolCalls[k].id)
  }

  /** `out` begins with exactly one tool message per id, in some order. */
  predicate BeginsWithTools(out: seq<ChatMessage>, ids: seq<string>) {
    && |ids| <= |out|
    && (forall k :: 0 <= k < |ids| ==> out[k].role == "tool" && out[k].toolCalls == [])
    && multiset(seq(|ids|, k requires 0 <= k < |ids| => out[k].toolCallId)) == multiset(ids)
  }

  /** Every message with tool calls is directly followed by one tool message per call id. */
  ghost predicate CallsAreAnswered(out: seq<ChatMessage>) {
    forall j :: 0 <= j < |out| && out[j].toolCalls != [] ==>
      out[j].role == "assistant" && BeginsWithTools(out[j + 1..], CallIds(out[j]))
  }

  /** And the run of tool messages ends there. */
  ghost predicate NoStrayTools(out: seq<ChatMessage>) {
    forall j :: 0 <= j < |out| && out[j].toolCalls != [] ==>
      var next := j + 1 + |out[j].toolCalls|; next < |out| ==> out[next].role != "tool"
  }

  lemma AssistantIds(m: Message)
    requires m.role == "assistant"
    ensures CallIds(AssistantMessage(m)) == UseIds(m)
  {
  }

  /** The converted user message begins with its tool results. */
  lemma UserBegins(m: Message, rest: seq<ChatMessage>, ids: seq<string>)
    requires m.role == "user" && ids != [] && multiset(ResultIds(m)) == multiset(ids)
    ensures BeginsWithTools(ConvertMessage(m) + rest, ids)
  {
    var results := ResultIds(m);
    assert |results| == |multiset(results)| == |multiset(ids)| == |ids|;
    var out := ConvertMessage(m) + rest;
    assert seq(|ids|, k requires 0 <= k < |ids| => out[k].toolCallId) == results;
  }

  lemma TailOfAnswered(msgs: seq<Message>)
    requires msgs != []
    ensures UsesAreAnswered(msgs) ==> UsesAreAnswered(msgs[1..])
    ensures NoStrayResults(msgs) ==> NoStrayResults(msgs[1..])
  {
    var rest := msgs[1..];
    assert forall i :: 0 <= i < |rest| ==> rest[i] == msgs[i + 1];
  }

  /** Messages without calls in front change nothing. */
  lemma PrependPlain(front: seq<ChatMessage>, out: seq<ChatMessage>)
    requires forall k :: 0 <= k < |front| ==> front[k].toolCalls == []
    ensures CallsAreAnswered(out) ==> CallsAreAnswered(front + out)
    ensures NoStrayTools(out) ==> NoStrayTools(front + out)
  {
    var all, n := front + out, |front|;
    forall j | 0 <= j < |all| && all[j].toolCalls != []
      ensures n <= j && all[j] == out[j - n] && all[j + 1..] == out[j - n + 1..]
    {
    }
  }

  lemma PrependCall(c: ChatMessage, out: seq<ChatMessage>)
    requires c.role == "assistant" && CallsAreAnswered(out) && BeginsWithTools(out, CallIds(c))
    ensures CallsAreAnswered([c] + out)
  {
    var all := [c] + out;
    assert all[1..] == out;
    forall j | 0 <= j < |all| && all[j].toolCalls != []
      ensures all[j].role == "assistant" && BeginsWithTools(all[j + 1..], CallIds(all[j]))
    {
      if j > 0 { assert all[j] == out[j - 1] && all[j + 1..] == out[j..]; }
    }
  }

  lemma ConvertedHaveNoCalls(m: Message)
    requires UseIds(m) == []
    ensures forall k :: 0 <= k < |ConvertMessage(m)| ==> ConvertMessage(m)[k].toolCalls == []
  {
    if m.role == "assistant" {
      assert |CallsOf(m)| == |UseIds(m)|;
    }
  }

  /** Tool pairing is kept: when every tool use is answered in the Anthropic conversation,
      every assistant message with tool calls of the converted conversation is directly
      followed by exactly one tool message per call id. */
  lemma {:induction false} PairingIsKept(msgs: seq<Message>)
    requires UsesAreAnswered(msgs)
    ensures CallsAreAnswered(ConvertAll(msgs))
    decreases |msgs|
  {
    if msgs != [] {
      var m, rest := msgs[0], msgs[1..];
      TailOfAnswered(msgs);
      PairingIsKept(rest);
      if UseIds(m) == [] {
        ConvertedHaveNoCalls(m);
        PrependPlain(ConvertMessage(m), ConvertAll(rest));
      } else {
        assert rest[0] == msgs[1];
        UserBegins(rest[0], ConvertAll(rest[1..]), UseIds(m));
        AssistantIds(m);
        PrependCall(AssistantMessage(m), ConvertAll(rest));
      }
    }
  }

  /** What a message that answers nothing begins with. */
  lemma FirstIsNoTool(m: Message)
    requires m.role != "tool" && ResultIds(m) == []
    ensures ConvertMessage(m)[0].role != "tool"
  {
    if m.role == "user" {
      assert |ToolMessages(Select(m.content, IsToolResult))| == |ResultIds(m)|;
    }
  }

  /** What stands behind the tool messages of a user message. */
  lemma BehindTheTools(m: Message, rest: seq<Message>)
    requires m.role == "user" && ResultIds(m) != [] && UseIds(m) == []
    requires NoStrayResults([m] + rest)
    ensures var out, n := ConvertMessage(m) + ConvertAll(rest), |ResultIds(m)|;
            n < |out| ==> out[n].role != "tool"
  {
    var tools := ToolMessages(Select(m.content, IsToolResult));
    if Select(m.content, IsRemaining) == [] && rest != [] {
      var all := [m] + rest;
      assert all[0] == m && all[1] == rest[0];
      assert ResultIds(all[1]) != [] ==> UseIds(m) != [];
      assert ConvertMessage(m) == tools + [] == tools;
      FirstIsNoTool(rest[0]);
    }
  }

  /** With no stray results in the input, nothing else follows in the run of tool messages. */
  lemma {:induction false} NoOtherToolMessages(msgs: seq<Message>)
    requires UsesAreAnswered(msgs) && NoStrayResults(msgs)
    ensures NoStrayTools(ConvertAll(msgs))
    decreases |msgs|
  {
    if msgs != [] {
      var m, rest := msgs[0], msgs[1..];
      TailOfAnswered(msgs);
      NoOtherToolMessages(rest);
      if UseIds(m) == [] {
        ConvertedHaveNoCalls(m);
        PrependPlain(ConvertMessage(m), ConvertAll(rest));
      } else {
        var u, later := rest[0], rest[1..];
        assert u == msgs[1] && [u] + later == rest;
        assert |multiset(ResultIds(u))| == |multiset(UseIds(m))|;
        assert |ResultIds(u)| == |UseIds(m)|;
        BehindTheTools(u, later);
        AssistantIds(m);
        OneStrayFree(AssistantMessage(m), ConvertAll(rest));
      }
    }
  }

  lemma OneStrayFree(c: ChatMessage, out: seq<ChatMessage>)
    requires NoStrayTools(out)
    requires |c.toolCalls| < |out| ==> out[|c.toolCalls|].role != "tool"
    ensures NoStrayTools([c] + out)
  {
    var all := [c] + out;
    forall j | 0 <= j < |all| && all[j].toolCalls != []
      ensures var next := j + 1 + |all[j].toolCalls|; next < |all| ==> all[next].role != "tool"
    {
      if j > 0 { assert all[j] == out[j - 1]; }
    }
  }

  /** The whole request, with its system message. */
  lemma RequestPairing(system: string, msgs: seq<Message>)
    requires UsesAreAnswered(msgs)
    ensures var out := SystemMessages(system) + ConvertAll(msgs);
            CallsAreAnswered(out) && (NoStrayResults(msgs) ==> NoStrayTools(out))
  {
    PairingIsKept(msgs);
    if NoStrayResults(msgs) { NoOtherToolMessages(msgs); }
    PrependPlain(SystemMessages(system), ConvertAll(msgs));
  }

  // ---------------------------------------------------------------- nothing is lost or reordered

  function WithRole(out: seq<ChatMessage>, role: string): seq<ChatMessage> {
    if out == [] then []
    else (if out[0].role == role then [out[0]] else []) + WithRole(out[1..], role)
  }

  lemma {:induction false} WithRoleAppend(a: seq<ChatMessage>, b: seq<ChatMessage>, role: string)
    ensures WithRole(a + b, role) == WithRole(a, role) + WithRole(b, role)
    decreases |a|
  {
    if a == [] {
      Units(b);
      Units(WithRole(b, role));
    } else {
      var first := if a[0].role == role then [a[0]] else [];
      assert (a + b)[0] == a[0] && (a + b)[1..] == a[1..] + b;
      WithRoleAppend(a[1..], b, role);
      Assoc(first, WithRole(a[1..], role), WithRole(b, role));
    }
  }

  lemma {:induction false} WithRoleUniform(a: seq<ChatMessage>, role: string, same: bool)
    requires forall k :: 0 <= k < |a| ==> (a[k].role == role) == same
    ensures WithRole(a, role) == if same then a else []
    decreases |a|
  {
    if a != [] {
      WithRoleUniform(a[1..], role, same);
      assert [a[0]] + a[1..] == a;
    }
  }

  /** What a user message holds beside its tool results: the other blocks, and an empty
      message where there is neither. */
  function Rest(m: Message): seq<ChatMessage> {
    var remaining := Select(m.content, IsRemaining);
    if remaining != [] then [ChatMessage("user", ToContent(remaining), [], "")]
    else if Select(m.content, IsToolResult) == [] then [ChatMessage("user", Text(""), [], "")]
    else []
  }

  /** What one message contributes to a role of the converted conversation. */
  function Contribution(m: Message, role: string): seq<ChatMessage> {
    if m.role == "user" then
      if role == "tool" then ToolMessages(Select(m.content, IsToolResult))
      else if role == "user" then Rest(m)
      else []
    else if m.role != role then []
    else if role == "assistant" then [AssistantMessage(m)]
    else [ChatMessage(role, ToContent(m.content), [], "")]
  }

  function Contributions(msgs: seq<Message>, role: string): seq<ChatMessage> {
    if msgs == [] then [] else Contribution(msgs[0], role) + Contributions(msgs[1..], role)
  }

  lemma UserSplits(m: Message)
    requires m.role == "user"
    ensures ConvertMessage(m) == ToolMessages(Select(m.content, IsToolResult)) + Rest(m)
  {
  }

  lemma ToolPart(blocks: seq<ContentBlock>, role: string)
    ensures WithRole(ToolMessages(blocks), role) == if role == "tool" then ToolMessages(blocks) else []
  {
    WithRoleUniform(ToolMessages(blocks), role, role == "tool");
  }

  lemma RestPart(m: Message, role: string)
    ensures WithRole(Rest(m), role) == if role == "user" then Rest(m) else []
  {
    WithRoleUniform(Rest(m), role, role == "user");
  }

  lemma RolesOfUser(m: Message, role: string)
    requires m.role == "user"
    ensures WithRole(ConvertMessage(m), role) == Contribution(m, role)
  {
    var tools, rest := ToolMessages(Select(m.content, IsToolResult)), Rest(m);
    UserSplits(m);
    WithRoleAppend(tools, rest, role);
    ToolPart(Select(m.content, IsToolResult), role);
    RestPart(m, role);
    Units(tools);
    Units(rest);
  }

  lemma RolesOfOther(m: Message, role: string)
    requires m.role != "user"
    ensures WithRole(ConvertMessage(m), role) == if m.role == role then ConvertMessage(m) else []
  {
    WithRoleUniform(ConvertMessage(m), role, m.role == role);
  }

  /** Order is kept, for the whole conversation and every role: the messages of a role in the
      converted conversation are the contributions of the input messages in their order,
      none lost, added or exchanged. The assistant messages have their own text and calls,
      the tool messages are the tool results, the user messages are what stands beside them,
      and a message of any other role is converted by itself. */
  lemma {:induction false} OrderIsKept(msgs: seq<Message>, role: string)
    ensures WithRole(ConvertAll(msgs), role) == Contributions(msgs, role)
    decreases |msgs|
  {
    if msgs != [] {
      OrderIsKept(msgs[1..], role);
      WithRoleAppend(ConvertMessage(msgs[0]), ConvertAll(msgs[1..]), role);
      if msgs[0].role == "user" { RolesOfUser(msgs[0], role); } else { RolesOfOther(msgs[0], role); }
    }
  }

  // ---------------------------------------------------------------- what the messages show

  predicate ShowsCall(c: ToolCall, b: ContentBlock) { c.id == b.id && c.name == b.name && c.arguments == b.input }

  predicate ShowsText(t: string, b: ContentBlock) { t == b.text }

  predicate Same(a: ContentBlock, b: ContentBlock) { a == b }

  lemma {:induction false} SelectTracks(blocks: seq<ContentBlock>, keep: ContentBlock -> bool) returns (at: seq<nat>)
    ensures Tracks(Select(blocks, keep), blocks, keep, Same, at)
    decreases |blocks|
  {
    at := [];
    if blocks != [] {
      var before, b := blocks[..|blocks| - 1], blocks[|blocks| - 1];
      at := SelectTracks(before, keep);
      TracksSnoc(Select(before, keep), before, keep, Same, at, b, if keep(b) then [b] else []);
      SnocSplit(blocks);
      Units(Select(before, keep));
      at := if keep(b) then at + [|before|] else at;
    }
  }

  lemma CallsTrack(content: seq<ContentBlock>) returns (at: seq<nat>)
    ensures Tracks(Calls(Select(content, IsToolUse)), content, IsToolUse, ShowsCall, at)
  {
    at := SelectTracks(content, IsToolUse);
  }

  lemma TextsTrack(content: seq<ContentBlock>) returns (at: seq<nat>)
    ensures Tracks(Texts(Select(content, IsText)), content, IsText, ShowsText, at)
  {
    at := SelectTracks(content, IsText);
  }

  /** The content of an assistant message: the texts of its text blocks, concatenated by
      position, alone or as the first part in front of the content of the other blocks. */
  ghost predicate AssistantContent(c: Content, content: seq<ContentBlock>, texts: seq<string>) {
    && (exists at :: Tracks(texts, content, IsText, ShowsText, at))
    && if forall b :: b in content ==> b.typ == "text" || b.typ == "tool_use" then c == Text(Concat(texts))
       else
         exists extras: seq<ContentBlock>, at :: Tracks(extras, content, IsExtra, Same, at) &&
           c.Parts? && |c.parts| > 0 && c.parts[0] == TextPart(Concat(texts)) &&
           exists places :: Tracks(c.parts[1..], extras, Makes, Shows, places)
  }

  ghost predicate AssistantShows(c: ChatMessage, content: seq<ContentBlock>) {
    && c.role == "assistant" && c.toolCallId == ""
    && (exists at :: Tracks(c.toolCalls, content, IsToolUse, ShowsCall, at))
    && exists texts :: AssistantContent(c.content, content, texts)
  }

  lemma {:induction false} TextPartFirst(t: string, extras: seq<ContentBlock>)
    ensures AllParts([TextBlock(t)] + extras) == [TextPart(t)] + AllParts(extras)
    decreases |extras|
  {
    if extras == [] {
      Units([TextBlock(t)]);
      AllPartsSnoc([], TextBlock(t));
      Units([TextPart(t)]);
    } else {
      var before, b := extras[..|extras| - 1], extras[|extras| - 1];
      TextPartFirst(t, before);
      SnocSplit(extras);
      Assoc([TextBlock(t)], before, [b]);
      AllPartsSnoc([TextBlock(t)] + before, b);
      AllPartsSnoc(before, b);
      Assoc([TextPart(t)], AllParts(before), PartsOf(b));
    }
  }

  lemma ExtrasShow(content: seq<ContentBlock>, t: string)
    requires Select(content, IsExtra) != []
    ensures var c := ToContent([TextBlock(t)] + Select(content, IsExtra));
            c.Parts? && |c.parts| > 0 && c.parts[0] == TextPart(t) && c.parts[1..] == AllParts(Select(content, IsExtra))
  {
    TextPartFirst(t, Select(content, IsExtra));
  }

  lemma NoExtrasIff(content: seq<ContentBlock>, extras: seq<ContentBlock>, at: seq<nat>)
    requires Tracks(extras, content, IsExtra, Same, at)
    ensures extras == [] <==> forall b :: b in content ==> b.typ == "text" || b.typ == "tool_use"
  {
    if extras == [] {
      forall b | b in content ensures !IsExtra(b) {
        var i :| 0 <= i < |content| && content[i] == b;
      }
    } else {
      assert IsExtra(content[at[0]]) && content[at[0]] in content;
    }
  }

  lemma AssistantContentShows(m: Message)
    ensures AssistantContent(AssistantMessage(m).content, m.content, Texts(Select(m.content, IsText)))
  {
    var content, texts, extras := m.content, Texts(Select(m.content, IsText)), Select(m.content, IsExtra);
    var where := TextsTrack(content);
    var at := SelectTracks(content, IsExtra);
    NoExtrasIff(content, extras, at);
    if extras != [] {
      ExtrasShow(content, Concat(texts));
      var places := PartsShowBlocks(extras);
      assert Tracks(AssistantMessage(m).content.parts[1..], extras, Makes, Shows, places);
    }
  }

  /** An assistant message becomes one message: its calls are its tool_use blocks, id for id,
      name for name and input for arguments, and its text is that of its text blocks. */
  lemma AssistantIsShown(m: Message)
    requires m.role == "assistant"
    ensures |ConvertMessage(m)| == 1 && AssistantShows(ConvertMessage(m)[0], m.content)
  {
    var at := CallsTrack(m.content);
    AssistantContentShows(m);
    assert Tracks(AssistantMessage(m).toolCalls, m.content, IsToolUse, ShowsCall, at);
  }

  // ---------------------------------------------------------------- tool results

  /** The items of a result list that contribute a line. */
  predicate HasLine(item: ToolItem) { item.Object? && (item.typ == "text" ==> item.text.Some?) }

  /** A text gives itself, any other object a placeholder with its type. */
  predicate IsLine(line: string, item: ToolItem) {
    item.Object? && if item.typ == "text" then item.text == Some(line) else line == "[" + item.typ + " omitted]"
  }

  /** Lines, each behind a newline. */
  function Led(lines: seq<string>): seq<string> {
    seq(|lines|, k requires 0 <= k < |lines| => "\n" + lines[k])
  }

  lemma {:induction false} JoinedLines(lines: seq<string>)
    requires lines != []
    ensures "\n" + JoinLines(lines) == Concat(Led(lines))
    decreases |lines|
  {
    if |lines| == 1 {
      assert Led(lines) == ["\n" + lines[0]];
      ConcatSnoc([], "\n" + lines[0]);
      Units(["\n" + lines[0]]);
    } else {
      var before, last := lines[..|lines| - 1], lines[|lines| - 1];
      JoinedLines(before);
      assert Led(lines) == Led(before) + ["\n" + last];
      ConcatSnoc(Led(before), "\n" + last);
      Assoc("\n", JoinLines(before), "\n" + last);
      Assoc(JoinLines(before), "\n", last);
    }
  }

  lemma {:induction false} ItemsTrack(items: seq<ToolItem>) returns (at: seq<nat>)
    ensures Tracks(ItemTexts(items), items, HasLine, IsLine, at)
    decreases |items|
  {
    at := [];
    if items != [] {
      var before, item := items[..|items| - 1], items[|items| - 1];
      at := ItemsTrack(before);
      TracksSnoc(ItemTexts(before), before, HasLine, IsLine, at, item, ItemText(item));
      SnocSplit(items);
      at := if HasLine(item) then at + [|before|] else at;
    }
  }

  /** The lines of a result list in order. */
  ghost predicate ListShows(t: string, items: seq<ToolItem>, lines: seq<string>) {
    && (exists at :: Tracks(lines, items, HasLine, IsLine, at))
    && if lines == [] then t == "" else "\n" + t == Concat(Led(lines))
  }

  /** The string of a tool result: nothing, the string itself, the lines of a list joined by
      newlines, or the JSON form of anything else. */
  ghost predicate ResultShows(t: string, content: ToolContent) {
    match content
    case Absent => t == ""
    case PlainText(s) => t == s
    case OtherJson(raw) => t == raw
    case ItemList(items) => exists lines :: ListShows(t, items, lines)
  }

  lemma ResultIsShown(content: ToolContent)
    ensures ResultShows(ResultText(content), content)
  {
    if content.ItemList? {
      var lines := ItemTexts(content.items);
      var at := ItemsTrack(content.items);
      if lines != [] { JoinedLines(lines); }
      assert ListShows(ResultText(content), content.items, lines);
    }
  }

  /** A tool message answers a tool_result block. */
  ghost predicate ShowsResult(c: ChatMessage, b: ContentBlock) {
    && c.role == "tool" && c.toolCalls == [] && c.toolCallId == b.toolUseId
    && c.content.Text? && ResultShows(c.content.text, b.content)
  }

  lemma ResultsTrack(content: seq<ContentBlock>) returns (at: seq<nat>)
    ensures Tracks(ToolMessages(Select(content, IsToolResult)), content, IsToolResult, ShowsResult, at)
  {
    var results := Select(content, IsToolResult);
    at := SelectTracks(content, IsToolResult);
    var out := ToolMessages(results);
    forall j | 0 <= j < |at| ensures at[j] < |content| && ShowsResult(out[j], content[at[j]]) {
      ResultIsShown(results[j].content);
    }
  }

  /** A user message becomes one tool message per tool_result block, in order, and then one user
      message with the content of the other blocks, if there are any or if there is nothing. */
  ghost predicate UserShows(out: seq<ChatMessage>, content: seq<ContentBlock>, tools: seq<ChatMessage>, rest: seq<ContentBlock>) {
    && (exists at :: Tracks(tools, content, IsToolResult, ShowsResult, at))
    && (exists at :: Tracks(rest, content, IsRemaining, Same, at))
    && if rest == [] && tools != [] then out == tools
       else
         && |out| == |tools| + 1 && out[..|tools|] == tools
         && var last := out[|tools|];
            last.role == "user" && last.toolCalls == [] && last.toolCallId == "" && ContentShows(last.content, rest)
  }

  lemma UserIsShown(m: Message)
    requires m.role == "user"
    ensures UserShows(ConvertMessage(m), m.content, ToolMessages(Select(m.content, IsToolResult)), Select(m.content, IsRemaining))
  {
    var tools, rest := ToolMessages(Select(m.content, IsToolResult)), Select(m.content, IsRemaining);
    var at := ResultsTrack(m.content);
    var places := SelectTracks(m.content, IsRemaining);
    ContentShowsBlocks(rest);
    Units(tools);
    if rest != [] || tools == [] { assert ConvertMessage(m)[..|tools|] == tools; }
  }

  // ---------------------------------------------------------------- the whole conversation

  ghost predicate MessageShows(out: seq<ChatMessage>, m: Message) {
    if m.role == "assistant" then |out| == 1 && AssistantShows(out[0], m.content)
    else if m.role == "user" then exists tools, rest :: UserShows(out, m.content, tools, rest)
    else |out| == 1 && out[0].role == m.role && out[0].toolCalls == [] && out[0].toolCallId == "" && ContentShows(out[0].content, m.content)
  }

  lemma MessageIsShown(m: Message)
    ensures MessageShows(ConvertMessage(m), m)
  {
    if m.role == "assistant" {
      AssistantIsShown(m);
    } else if m.role == "user" {
      UserIsShown(m);
    } else {
      ContentShowsBlocks(m.content);
    }
  }

  function Pieces(msgs: seq<Message>): seq<seq<ChatMessage>> {
    seq(|msgs|, k requires 0 <= k < |msgs| => ConvertMessage(msgs[k]))
  }

  lemma {:induction false} PiecesConcat(msgs: seq<Message>)
    ensures Concat(Pieces(msgs)) == ConvertAll(msgs)
    decreases |msgs|
  {
    if msgs != [] {
      assert Pieces(msgs)[1..] == Pieces(msgs[1..]);
      PiecesConcat(msgs[1..]);
    }
  }

  /** What a converted request is, in terms of the input alone: a system message with the given
      text, if there is one, and for each message in turn what shows it. */
  lemma RequestIsShown(system: string, msgs: seq<Message>) returns (pieces: seq<seq<ChatMessage>>)
    ensures |pieces| == |msgs| && forall k :: 0 <= k < |msgs| ==> MessageShows(pieces[k], msgs[k])
    ensures var out := SystemMessages(system) + ConvertAll(msgs);
            if system == "" then out == Concat(pieces)
            else |out| > 0 && out[0] == ChatMessage("system", Text(system), [], "") && out[1..] == Concat(pieces)
  {
    pieces := Pieces(msgs);
    PiecesConcat(msgs);
    Units(ConvertAll(msgs));
    forall k | 0 <= k < |msgs| ensures MessageShows(pieces[k], msgs[k]) { MessageIsShown(msgs[k]); }
  }
}
