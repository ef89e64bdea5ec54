/** Content blocks to OpenAI content and back: `anthropicBlocksToContent` and
    `convertContentToBlocks` (internal/adapter/anthropic.go). Images travel as data URLs
    (section 3 of RFC 2397). Quoting a string as JSON is an arbitrary function. */
module ContentConversion {
  import opened Prelude
  import opened AnthropicTypes

  /** The input of a tool-use part: a string, or anything else in its JSON form. */
  datatype PartInput = StringInput(text: string) | JsonInput(raw: string)

  /** A part of an OpenAI message. A field that is missing or has another type reads as the
      empty string. */
  datatype Part =
    | TextPart(text: string)
    | ImagePart(url: string)
    | ToolUsePart(id: string, name: string, input: PartInput)
    | ToolResultPart(toolUseId: string, content: ToolContent, isError: bool)
    | RawPart(block: ContentBlock)  // the JSON form of any other block
    | NonObjectPart                 // an item that is no JSON object

  /** OpenAI message content: a plain string, a list of parts, nothing, or any other value with
      its JSON form if it has one. */
  datatype Content = Text(text: string) | Parts(parts: seq<Part>) | NoContent | OtherContent(json: Option<string>)

  function TextBlock(text: string): ContentBlock { EMPTY_BLOCK.(typ := "text", text := text) }

  function ImageBlock(source: ImageSource): ContentBlock { EMPTY_BLOCK.(typ := "image", source := Some(source)) }

  // ---------------------------------------------------------------- data URLs

  function DataUrl(mediaType: string, data: string): string {
    "data:" + mediaType + ";base64," + data
  }

  /** What precedes the first `c`, or everything. */
  function Before(s: string, c: char): string {
    if s == "" || s[0] == c then "" else [s[0]] + Before(s[1..], c)
  }

  /** What follows the first `c`. */
  function After(s: string, c: char): Option<string> {
    if s == "" then None else if s[0] == c then Some(s[1..]) else After(s[1..], c)
  }

  function TrimPrefix(s: string, prefix: string): string {
    if prefix <= s then s[|prefix|..] else s
  }

  function MediaTypeOf(url: string): string { TrimPrefix(Before(url, ';'), "data:") }

  function DataOf(url: string): string {
    match After(url, ',') case Some(data) => data case None => ""
  }

  // ---------------------------------------------------------------- the two conversions

  function PartsOf(b: ContentBlock): seq<Part> {
    if b.typ == "text" then [TextPart(b.text)]
    else if b.typ == "image" then
      if b.source.Some? then [ImagePart(DataUrl(b.source.value.mediaType, b.source.value.data))] else []
    else if b.typ == "tool_use" then [ToolUsePart(b.id, b.name, StringInput(b.input))]
    else if b.typ == "tool_result" then [ToolResultPart(b.toolUseId, b.content, b.isError)]
    else [RawPart(b)]
  }

  function AllParts(blocks: seq<ContentBlock>): seq<Part> {
    if blocks == [] then [] else AllParts(blocks[..|blocks| - 1]) + PartsOf(blocks[|blocks| - 1])
  }

  function ToContent(blocks: seq<ContentBlock>): Content {
    if blocks == [] then Text("")
    else if |blocks| == 1 && blocks[0].typ == "text" then Text(blocks[0].text)
    else Parts(AllParts(blocks))
  }

  method BlocksToContent(blocks: seq<ContentBlock>) returns (content: Content)
    ensures content == ToContent(blocks)
  {
    if |blocks| == 0 { return Text(""); }
    if |blocks| == 1 && blocks[0].typ == "text" { return Text(blocks[0].text); }
    var parts: seq<Part> := [];
    for k := 0 to |blocks|
      invariant parts == AllParts(blocks[..k])
    {
      var b := blocks[k];
      assert blocks[..k + 1][..k] == blocks[..k];
      if b.typ == "text" {
        parts := parts + [TextPart(b.text)];
      } else if b.typ == "image" {
        if b.source.Some? {
          var src := b.source.value;
          parts := parts + [ImagePart("data:" + src.mediaType + ";base64," + src.data)];
        }
      } else if b.typ == "tool_use" {
        parts := parts + [ToolUsePart(b.id, b.name, StringInput(b.input))];
      } else if b.typ == "tool_result" {
        parts := parts + [ToolResultPart(b.toolUseId, b.content, b.isError)];
      } else {
        parts := parts + [RawPart(b)];
      }
    }
    assert blocks[..|blocks|] == blocks;
    content := Parts(parts);
  }

  function BlockOfUrl(url: string): ContentBlock {
    if "data:" <= url then ImageBlock(ImageSource("base64", MediaTypeOf(url), DataOf(url), ""))
    else ImageBlock(ImageSource("url", "", "", url))
  }

  /** A raw part keeps the type of its block, so it can only be read back as an image part
      without a URL. */
  function BlocksOfPart(p: Part, quote: string -> string): seq<ContentBlock> {
    match p
    case TextPart(t) => [TextBlock(t)]
    case ImagePart(url) => [BlockOfUrl(url)]
    case ToolUsePart(id, name, input) =>
      [EMPTY_BLOCK.(typ := "tool_use", id := id, name := name, input := match input case StringInput(t) => quote(t) case JsonInput(raw) => raw)]
    case ToolResultPart(id, content, _) => [EMPTY_BLOCK.(typ := "tool_result", toolUseId := id, content := content)]
    case RawPart(b) => if b.typ == "image_url" then [BlockOfUrl("")] else []
    case NonObjectPart => []
  }

  function AllBlocks(parts: seq<Part>, quote: string -> string): seq<ContentBlock> {
    if parts == [] then [] else AllBlocks(parts[..|parts| - 1], quote) + BlocksOfPart(parts[|parts| - 1], quote)
  }

  function ToBlocks(content: Content, quote: string -> string): seq<ContentBlock> {
    match content
    case Text(t) => if t == "" then [] else [TextBlock(t)]
    case Parts(parts) => AllBlocks(parts, quote)
    case NoContent => []
    case OtherContent(json) => if json.Some? then [TextBlock(json.value)] else []
  }

  method ContentToBlocks(content: Content, quote: string -> string) returns (blocks: seq<ContentBlock>)
    ensures blocks == ToBlocks(content, quote)
  {
    match content {
      case Text(t) =>
        if t == "" { return []; }
        return [TextBlock(t)];
      case Parts(parts) =>
        blocks := [];
        for k := 0 to |parts|
          invariant blocks == AllBlocks(parts[..k], quote)
        {
          assert parts[..k + 1][..k] == parts[..k];
          match parts[k] {
            case TextPart(text) => blocks := blocks + [TextBlock(text)];
            case ImagePart(url) => blocks := blocks + [BlockOfUrl(url)];
            case ToolUsePart(id, name, input) =>
              var json := if input.StringInput? then quote(input.text) else input.raw;
              blocks := blocks + [EMPTY_BLOCK.(typ := "tool_use", id := id, name := name, input := json)];
            case ToolResultPart(id, c, _) =>
              blocks := blocks + [EMPTY_BLOCK.(typ := "tool_result", toolUseId := id, content := c)];
            case RawPart(b) =>
              if b.typ == "image_url" { blocks := blocks + [BlockOfUrl("")]; }
            case NonObjectPart =>
          }
        }
        assert parts[..|parts|] == parts;
      case NoContent => return [];
      case OtherContent(json) =>
        if json.None? { return []; }
        return [TextBlock(json.value)];
    }
  }

  // ---------------------------------------------------------------- print and parse of a data URL

  lemma {:induction false} BeforeFirst(a: string, c: char, b: string)
    ensures c !in a ==> Before(a + [c] + b, c) == a
    ensures c in a ==> |Before(a + [c] + b, c)| < |a|
    decreases |a|
  {
    var s := a + [c] + b;
    if a != "" {
      assert s[0] == a[0] && s[1..] == a[1..] + [c] + b;
      BeforeFirst(a[1..], c, b);
    }
  }

  lemma {:induction false} AfterFirst(a: string, c: char, b: string)
    ensures c !in a ==> After(a + [c] + b, c) == Some(b)
    ensures c in a ==> After(a + [c] + b, c).Some? && |After(a + [c] + b, c).value| > |b|
    decreases |a|
  {
    var s := a + [c] + b;
    if a == "" {
      assert s[1..] == b;
    } else {
      assert s[0] == a[0] && s[1..] == a[1..] + [c] + b;
      AfterFirst(a[1..], c, b);
    }
  }

  lemma MediaTypeComesBack(mediaType: string, data: string)
    ensures MediaTypeOf(DataUrl(mediaType, data)) == mediaType <==> ';' !in mediaType
  {
    var url, a, b := DataUrl(mediaType, data), "data:" + mediaType, "base64," + data;
    assert url == a + [';'] + b;
    assert ';' in a <==> ';' in mediaType by {
      assert forall k :: 0 <= k < |mediaType| ==> a[5 + k] == mediaType[k];
    }
    BeforeFirst(a, ';', b);
    if ';' !in a {
      assert "data:" <= a && a[5..] == mediaType;
    } else {
      var before := Before(url, ';');
      PrefixBefore("data:", mediaType + ";base64," + data, ';');
      assert url == "data:" + (mediaType + ";base64," + data);
      assert |TrimPrefix(before, "data:")| < |mediaType|;
    }
  }

  lemma {:induction false} PrefixBefore(p: string, s: string, c: char)
    requires c !in p
    ensures p <= Before(p + s, c)
    decreases |p|
  {
    if p != "" {
      assert (p + s)[0] == p[0] && (p + s)[1..] == p[1..] + s;
      PrefixBefore(p[1..], s, c);
    }
  }

  lemma DataComesBack(mediaType: string, data: string)
    ensures DataOf(DataUrl(mediaType, data)) == data <==> ',' !in mediaType
  {
    var url, a := DataUrl(mediaType, data), "data:" + mediaType + ";base64";
    assert url == a + [','] + data;
    assert ',' in a <==> ',' in mediaType by {
      assert forall k :: 0 <= k < |mediaType| ==> a[5 + k] == mediaType[k];
    }
    AfterFirst(a, ',', data);
  }

  // ---------------------------------------------------------------- round trip of content lists

  /** An inline image whose media type has no separator of the data URL syntax. */
  predicate Inline(s: ImageSource) {
    s.typ == "base64" && s.url == "" && ';' !in s.mediaType && ',' !in s.mediaType
  }

  /** A block that survives on its own inside a list: a text block, an image with an inline
      source, a tool use whose input is its own quoted form (quoting as JSON never leaves a
      string as it is), and a tool result that is no error; none with any further field. */
  predicate Survives(b: ContentBlock, quote: string -> string) {
    if b.typ == "text" then b == TextBlock(b.text)
    else if b.typ == "image" then b.source.Some? && b == ImageBlock(b.source.value) && Inline(b.source.value)
    else if b.typ == "tool_use" then
      b == EMPTY_BLOCK.(typ := "tool_use", id := b.id, name := b.name, input := b.input) && quote(b.input) == b.input
    else
      b.typ == "tool_result" && b == EMPTY_BLOCK.(typ := "tool_result", toolUseId := b.toolUseId, content := b.content)
  }

  /** What a block comes back as inside a list. */
  function Back(b: ContentBlock, quote: string -> string): seq<ContentBlock> { AllBlocks(PartsOf(b), quote) }

  lemma OnePart(p: Part, quote: string -> string)
    ensures AllBlocks([p], quote) == BlocksOfPart(p, quote)
  {
    assert [p][..0] == [] && AllBlocks([], quote) == [];
    Units(BlocksOfPart(p, quote));
  }

  /** A block comes back as nothing or as one block, and as itself exactly when it survives. */
  lemma OneBlock(b: ContentBlock, quote: string -> string)
    ensures |Back(b, quote)| <= 1 && (Back(b, quote) == [b] <==> Survives(b, quote))
  {
    if PartsOf(b) != [] {
      var p := PartsOf(b)[0];
      OnePart(p, quote);
      assert PartsOf(b) == [p];
      if b.typ == "image" { OneImage(b.source.value); }
    }
  }

  /** A printed data URL is read as the source it was printed from exactly when that is inline. */
  lemma OneImage(s: ImageSource)
    ensures BlockOfUrl(DataUrl(s.mediaType, s.data)) == ImageBlock(s) <==> Inline(s)
    ensures BlockOfUrl(DataUrl(s.mediaType, s.data)).source.Some?
  {
    MediaTypeComesBack(s.mediaType, s.data);
    DataComesBack(s.mediaType, s.data);
    assert "data:" <= DataUrl(s.mediaType, s.data);
  }

  lemma AllPartsSnoc(blocks: seq<ContentBlock>, b: ContentBlock)
    ensures AllParts(blocks + [b]) == AllParts(blocks) + PartsOf(b)
  {
    var all := blocks + [b];
    assert all[..|all| - 1] == blocks && all[|all| - 1] == b;
  }

  lemma {:induction false} AllBlocksAppend(x: seq<Part>, y: seq<Part>, quote: string -> string)
    ensures AllBlocks(x + y, quote) == AllBlocks(x, quote) + AllBlocks(y, quote)
    decreases |y|
  {
    if y == [] {
      Units(x);
      Units(AllBlocks(x, quote));
    } else {
      var before, p := y[..|y| - 1], y[|y| - 1];
      assert (x + y)[..|x + y| - 1] == x + before;
      AllBlocksAppend(x, before, quote);
      Assoc(AllBlocks(x, quote), AllBlocks(before, quote), BlocksOfPart(p, quote));
    }
  }

  predicate AllSurvive(blocks: seq<ContentBlock>, quote: string -> string) {
    forall b :: b in blocks ==> Survives(b, quote)
  }

  lemma AllSurviveSnoc(before: seq<ContentBlock>, b: ContentBlock, quote: string -> string)
    ensures AllSurvive(before + [b], quote) <==> AllSurvive(before, quote) && Survives(b, quote)
  {
    if AllSurvive(before + [b], quote) {
      forall c | c in before ensures Survives(c, quote) { assert c in before + [b]; }
      assert b in before + [b];
    }
  }

  /** A list comes back no longer than it was, and unchanged exactly when every block of it
      survives. */
  ghost predicate ComesBack(blocks: seq<ContentBlock>, quote: string -> string) {
    var back := AllBlocks(AllParts(blocks), quote);
    |back| <= |blocks| && (back == blocks <==> AllSurvive(blocks, quote))
  }

  lemma ListStep(before: seq<ContentBlock>, b: ContentBlock, quote: string -> string)
    requires ComesBack(before, quote)
    ensures ComesBack(before + [b], quote)
  {
    OneBlock(b, quote);
    AllPartsSnoc(before, b);
    AllBlocksAppend(AllParts(before), PartsOf(b), quote);
    SameSnoc(AllBlocks(AllParts(before), quote), Back(b, quote), before, b);
    AllSurviveSnoc(before, b, quote);
  }

  lemma {:induction false} ListOfBlocks(blocks: seq<ContentBlock>, quote: string -> string)
    ensures ComesBack(blocks, quote)
    decreases |blocks|
  {
    if blocks != [] {
      var before, b := blocks[..|blocks| - 1], blocks[|blocks| - 1];
      ListOfBlocks(before, quote);
      ListStep(before, b, quote);
      SnocSplit(blocks);
    }
  }

  lemma SameSnoc<T>(x: seq<T>, y: seq<T>, before: seq<T>, b: T)
    requires |x| <= |before| && |y| <= 1
    ensures x + y == before + [b] <==> x == before && y == [b]
  {
    if x + y == before + [b] {
      assert |x| == |before| && |y| == 1;
      assert x == (x + y)[..|x|] && before == (before + [b])[..|x|];
      assert y[0] == (x + y)[|x|] && b == (before + [b])[|x|];
    }
  }

  /** Which content lists round-trip, of all lists: a list comes back unchanged exactly when
      it is not a lone empty text block and every block of it survives. In particular an
      image given by URL never comes back, and one without a source is dropped. */
  lemma ContentRoundTrip(blocks: seq<ContentBlock>, quote: string -> string)
    ensures ToBlocks(ToContent(blocks), quote) == blocks <==> blocks != [TextBlock("")] && AllSurvive(blocks, quote)
  {
    ListOfBlocks(blocks, quote);
    if |blocks| == 1 && blocks[0].typ == "text" {
      LoneText(blocks[0], quote);
      assert blocks == [blocks[0]];
    } else if |blocks| == 1 {
      assert blocks[0].typ != TextBlock("").typ;
    }
  }

  lemma LoneText(b: ContentBlock, quote: string -> string)
    requires b.typ == "text"
    ensures ToBlocks(ToContent([b]), quote) == if b.text == "" then [] else [TextBlock(b.text)]
    ensures Survives(b, quote) <==> b == TextBlock(b.text)
  {
  }

  /** The lists of text blocks and inline images: all of them come back but a lone empty text. */
  lemma TextAndInlineImages(blocks: seq<ContentBlock>, quote: string -> string)
    requires forall b :: b in blocks ==>
               b == TextBlock(b.text) || (b.source.Some? && b == ImageBlock(b.source.value) && Inline(b.source.value))
    requires blocks != [TextBlock("")]
    ensures ToBlocks(ToContent(blocks), quote) == blocks
  {
    ContentRoundTrip(blocks, quote);
  }

  // ---------------------------------------------------------------- what the parts show

  /** The blocks that make a part: all but images without a source. */
  predicate Makes(b: ContentBlock) { b.typ != "image" || b.source.Some? }

  /** `p` shows `b`: its text, its data URL, or its own fields. */
  predicate Shows(p: Part, b: ContentBlock) {
    if b.typ == "text" then p.TextPart? && p.text == b.text
    else if b.typ == "image" then
      b.source.Some? && p.ImagePart? && p.url == "data:" + b.source.value.mediaType + ";base64," + b.source.value.data
    else if b.typ == "tool_use" then p.ToolUsePart? && p.id == b.id && p.name == b.name && p.input == StringInput(b.input)
    else if b.typ == "tool_result" then
      p.ToolResultPart? && p.toolUseId == b.toolUseId && p.content == b.content && p.isError == b.isError
    else p.RawPart? && p.block == b
  }

  lemma {:induction false} PartsShowBlocks(blocks: seq<ContentBlock>) returns (at: seq<nat>)
    ensures Tracks(AllParts(blocks), blocks, Makes, Shows, at)
    decreases |blocks|
  {
    at := [];
    if blocks != [] {
      var before, b := blocks[..|blocks| - 1], blocks[|blocks| - 1];
      at := PartsShowBlocks(before);
      TracksSnoc(AllParts(before), before, Makes, Shows, at, b, PartsOf(b));
      SnocSplit(blocks);
      at := if Makes(b) then at + [|before|] else at;
    }
  }

  /** What the content of a list of blocks is: the empty string for none, the text of a lone
      text block, and otherwise one part for each block that makes one, in order. */
  ghost predicate ContentShows(c: Content, blocks: seq<ContentBlock>) {
    if blocks == [] then c == Text("")
    else if |blocks| == 1 && blocks[0].typ == "text" then c == Text(blocks[0].text)
    else c.Parts? && exists at :: Tracks(c.parts, blocks, Makes, Shows, at)
  }

  lemma ContentShowsBlocks(blocks: seq<ContentBlock>)
    ensures ContentShows(ToContent(blocks), blocks)
  {
    var at := PartsShowBlocks(blocks);
    assert Tracks(AllParts(blocks), blocks, Makes, Shows, at);
  }

  // ---------------------------------------------------------------- what the blocks read

  /** The media type and the data of a data URL: what stands between the scheme and the first
      semicolon, and what follows the first comma. */
  ghost predicate ReadsUrl(s: ImageSource, url: string) {
    && s.typ == "base64" && s.url == "" && ';' !in s.mediaType
    && (url == "data:" + s.mediaType || "data:" + s.mediaType + ";" <= url)
    && if ',' in url then exists front: string :: ',' !in front && url == front + "," + s.data else s.data == ""
  }

  /** The parts that are read as a block. */
  predicate IsRead(p: Part) { !p.NonObjectPart? && (p.RawPart? ==> p.block.typ == "image_url") }

  /** `b` is what a part is read as, with no further field set. An image part is a data URL or
      any other URL, which is kept as it is; an unknown part reads as an image without one. */
  ghost predicate ReadsAs(b: ContentBlock, p: Part, quote: string -> string) {
    match p
    case TextPart(t) => b == EMPTY_BLOCK.(typ := "text", text := t)
    case ImagePart(url) =>
      && b.source.Some? && b == EMPTY_BLOCK.(typ := "image", source := b.source)
      && if "data:" <= url then ReadsUrl(b.source.value, url) else b.source.value == ImageSource("url", "", "", url)
    case ToolUsePart(id, name, input) =>
      && b == EMPTY_BLOCK.(typ := "tool_use", id := id, name := name, input := b.input)
      && (input.StringInput? ==> b.input == quote(input.text)) && (input.JsonInput? ==> b.input == input.raw)
    case ToolResultPart(id, content, _) => b == EMPTY_BLOCK.(typ := "tool_result", toolUseId := id, content := content)
    case RawPart(_) => b == EMPTY_BLOCK.(typ := "image", source := Some(ImageSource("url", "", "", "")))
    case NonObjectPart => false
  }

  lemma {:induction false} BeforeSplits(s: string, c: char)
    ensures c !in Before(s, c) && (s == Before(s, c) || Before(s, c) + [c] <= s)
    decreases |s|
  {
    if s != "" && s[0] != c { BeforeSplits(s[1..], c); }
  }

  lemma {:induction false} AfterSplits(s: string, c: char) returns (front: string)
    ensures After(s, c).None? <==> c !in s
    ensures After(s, c).Some? ==> s == front + [c] + After(s, c).value && c !in front
    decreases |s|
  {
    front := "";
    if s != "" && s[0] != c {
      front := AfterSplits(s[1..], c);
      front := [s[0]] + front;
      assert s == [s[0]] + s[1..];
    }
  }

  lemma MediaTypeReads(url: string)
    requires "data:" <= url
    ensures var media := MediaTypeOf(url); ';' !in media && (url == "data:" + media || "data:" + media + ";" <= url)
  {
    var before, media := Before(url, ';'), MediaTypeOf(url);
    BeforeSplits(url, ';');
    PrefixBefore("data:", url[5..], ';');
    assert url == "data:" + url[5..];
    assert before == "data:" + media;
    assert forall k :: 0 <= k < |media| ==> media[k] == before[5 + k];
    if url != before { assert "data:" + media + ";" == before + [';']; }
  }

  lemma DataUrlReads(url: string)
    requires "data:" <= url
    ensures ReadsUrl(ImageSource("base64", MediaTypeOf(url), DataOf(url), ""), url)
  {
    MediaTypeReads(url);
    var front := AfterSplits(url, ',');
    assert [','] == ",";
  }

  lemma OnePartReads(p: Part, quote: string -> string)
    ensures |BlocksOfPart(p, quote)| == if IsRead(p) then 1 else 0
    ensures IsRead(p) ==> ReadsAs(BlocksOfPart(p, quote)[0], p, quote)
  {
    if p.ImagePart? && "data:" <= p.url { DataUrlReads(p.url); }
  }

  /** `ReadsAs` for a given quoting. */
  ghost function Reading(quote: string -> string): (ContentBlock, Part) -> bool { (b, p) => ReadsAs(b, p, quote) }

  lemma {:induction false} BlocksReadParts(parts: seq<Part>, quote: string -> string) returns (at: seq<nat>)
    ensures Tracks(AllBlocks(parts, quote), parts, IsRead, Reading(quote), at)
    decreases |parts|
  {
    at := [];
    if parts != [] {
      var before, p := parts[..|parts| - 1], parts[|parts| - 1];
      at := BlocksReadParts(before, quote);
      OnePartReads(p, quote);
      TracksSnoc(AllBlocks(before, quote), before, IsRead, Reading(quote), at, p, BlocksOfPart(p, quote));
      SnocSplit(parts);
      at := if IsRead(p) then at + [|before|] else at;
    }
  }

  /** What any content is read as: nothing for none and for the empty string, one text block for
      a string and for the JSON form of an unknown value, and one block for each part that is
      read, in order. */
  lemma BlocksReadContent(content: Content, quote: string -> string)
    ensures var blocks := ToBlocks(content, quote);
            match content
            case NoContent => blocks == []
            case Text(t) => blocks == if t == "" then [] else [EMPTY_BLOCK.(typ := "text", text := t)]
            case OtherContent(json) => blocks == if json.None? then [] else [EMPTY_BLOCK.(typ := "text", text := json.value)]
            case Parts(parts) => exists at :: Tracks(blocks, parts, IsRead, Reading(quote), at)
  {
    if content.Parts? {
      var at := BlocksReadParts(content.parts, quote);
      assert Tracks(ToBlocks(content, quote), content.parts, IsRead, Reading(quote), at);
    }
  }
}
