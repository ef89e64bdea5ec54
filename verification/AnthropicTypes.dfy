/** The Anthropic message records (internal/adapter/anthropic.go) after JSON decoding.
    Byte strings such as a tool input are strings here. */
module AnthropicTypes {
  import opened Prelude

  datatype ImageSource = ImageSource(typ: string, mediaType: string, data: string, url: string)

  /** The content of a tool_result block, an untyped JSON value in the source. */
  datatype ToolContent = Absent | PlainText(value: string) | ItemList(items: seq<ToolItem>) | OtherJson(raw: string)

  /** One element of a tool_result content list: a JSON object with its type and, when it
      is a string, its text; or something that is not an object. */
  datatype ToolItem = Object(typ: string, text: Option<string>) | NotAnObject

  datatype ContentBlock = ContentBlock(
    typ: string, text: string, source: Option<ImageSource>,
    id: string, name: string, input: string,
    toolUseId: string, content: ToolContent, isError: bool,
    thinking: string, signature: string)

  /** The zero value of a content block. */
  const EMPTY_BLOCK: ContentBlock := ContentBlock("", "", None, "", "", "", "", Absent, false, "", "")

  datatype Usage = Usage(inputTokens: int, outputTokens: int, cacheCreation: int, cacheRead: int)

  datatype Response = Response(
    id: string, role: string, model: string, content: seq<ContentBlock>,
    stopReason: string, stopSequence: Option<string>, usage: Usage)

  /** A decoded content_block_delta. The partial JSON of an input delta keeps the raw
      bytes and, when they are a JSON string, the decoded string. */
  datatype Delta =
    | TextDelta(text: string)
    | ThinkingDelta(thinking: string)
    | SignatureDelta(signature: string)
    | InputJsonDelta(raw: string, decoded: Option<string>)
    | OtherDelta

  /** A delta as the two readers see it: `full` is the aggregator's decoding, `text` the
      text when the chunk converter, which decodes fewer fields, reads a text_delta. */
  datatype DeltaView = DeltaView(full: Option<Delta>, text: Option<string>)

  /** A stream event. Block indices are natural numbers. */
  datatype Event =
    | MessageStart(message: Option<Response>)
    | BlockStart(index: nat, block: Option<ContentBlock>)
    | BlockDelta(index: nat, delta: DeltaView)
    | BlockStop(index: nat)
    | MessageDelta(usage: Option<Usage>, stopReason: string, stopSequence: Option<string>)
    | MessageStop
    | ErrorEvent(message': Option<string>)
    | OtherEvent
}
