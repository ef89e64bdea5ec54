/** The incremental SSE line parsers: `parseSSEStream` (internal/adapter/openai_compatible.go),
    `parseAnthropicStreamEvents` (internal/adapter/anthropic.go), `parseAnthropicEventStreamRaw`
    (internal/adapter/cloud_signed.go) and `parseBedrockEventStream` (internal/adapter/bedrock.go).

    The four share one loop and differ in how a payload is decoded, in whether [DONE] is
    forwarded, and in what stops a send; those are parameters here. JSON decoding is an
    arbitrary partial function. */
module SseParsing {
  import opened Prelude

  /** A byte, as the character with that code. */
  type byte = char

  const NEWLINE: byte := '\n'
  const COLON: byte := ':'
  const QUOTE: byte := 0x22 as char
  const DATA_PREFIX: seq<byte> := "data: "
  const DONE: seq<byte> := "[DONE]"
  const MAX_LINE_SIZE := 0x10_0000
  const READ_SIZE := 4096

  // ---------------------------------------------------------------- one line

  /** The UTF-8 encodings of the white space characters that `bytes.TrimSpace` removes. */
  predicate IsSpace(r: seq<byte>) {
    var c := seq(|r|, i requires 0 <= i < |r| => r[i] as int);
    || (|c| == 1 && (9 <= c[0] <= 13 || c[0] == 32))
    || (|c| == 2 && c[0] == 0xC2 && (c[1] == 0x85 || c[1] == 0xA0))
    || (|c| == 3 && c[0] == 0xE1 && c[1] == 0x9A && c[2] == 0x80)
    || (|c| == 3 && c[0] == 0xE2 && c[1] == 0x80 && (0x80 <= c[2] <= 0x8A || c[2] == 0xA8 || c[2] == 0xA9 || c[2] == 0xAF))
    || (|c| == 3 && c[0] == 0xE2 && c[1] == 0x81 && c[2] == 0x9F)
    || (|c| == 3 && c[0] == 0xE3 && c[1] == 0x80 && c[2] == 0x80)
  }

  predicate StartsWithSpace(s: seq<byte>, n: nat) { n <= |s| && IsSpace(s[..n]) }

  predicate EndsWithSpace(s: seq<byte>, n: nat) { n <= |s| && IsSpace(s[|s| - n..]) }

  function TrimLeft(s: seq<byte>): (r: seq<byte>) {
    if StartsWithSpace(s, 1) then TrimLeft(s[1..])
    else if StartsWithSpace(s, 2) then TrimLeft(s[2..])
    else if StartsWithSpace(s, 3) then TrimLeft(s[3..])
    else s
  }

  function TrimRight(s: seq<byte>): (r: seq<byte>) {
    if EndsWithSpace(s, 1) then TrimRight(s[..|s| - 1])
    else if EndsWithSpace(s, 2) then TrimRight(s[..|s| - 2])
    else if EndsWithSpace(s, 3) then TrimRight(s[..|s| - 3])
    else s
  }

  /** What a line means to the reader. */
  datatype Meaning<+T> = Ignored | Done | Item(item: T)

  /** The meaning of a line after trimming, for a given payload decoder. */
  function MeaningOfLine<T>(raw: seq<byte>, decode: seq<byte> -> Option<T>): Meaning<T> {
    var line := TrimRight(TrimLeft(raw));
    if line == [] || line[0] == COLON then Ignored
    else if !(DATA_PREFIX <= line) then Ignored
    else
      var data := line[|DATA_PREFIX|..];
      if data == DONE then Done
      else match decode(data) case Some(x) => Item(x) case None => Ignored
  }

  /** The line reader of the four parsers. The loops below work for any reader. */
  function Reader<T>(decode: seq<byte> -> Option<T>): seq<byte> -> Meaning<T> {
    raw => MeaningOfLine(raw, decode)
  }

  /** A line counts exactly when, after trimming, it is the prefix and a payload that is
      [DONE] or decodes. */
  lemma WhatLinesCount<T>(raw: seq<byte>, decode: seq<byte> -> Option<T>, x: T)
    ensures Reader(decode)(raw).Done? <==> TrimRight(TrimLeft(raw)) == DATA_PREFIX + DONE
    ensures Reader(decode)(raw) == Item(x) <==>
            exists data :: TrimRight(TrimLeft(raw)) == DATA_PREFIX + data && data != DONE && decode(data) == Some(x)
  {
    var line := TrimRight(TrimLeft(raw));
    if DATA_PREFIX <= line {
      assert line == DATA_PREFIX + line[|DATA_PREFIX|..];
    }
    forall data | line == DATA_PREFIX + data ensures line[|DATA_PREFIX|..] == data && DATA_PREFIX <= line {
      assert (DATA_PREFIX + data)[|DATA_PREFIX|..] == data;
    }
  }

  // ---------------------------------------------------------------- what trimming computes

  /** The UTF-8 encoding of a code point below 0x10000. */
  function Utf8(p: nat): seq<byte>
    requires p < 0xD800
  {
    if p < 0x80 then [p as char]
    else if p < 0x800 then [(0xC0 + p / 0x40) as char, (0x80 + p % 0x40) as char]
    else [(0xE0 + p / 0x1000) as char, (0x80 + p / 0x40 % 0x40) as char, (0x80 + p % 0x40) as char]
  }

  /** The code points with the Unicode property White_Space. */
  predicate WhiteSpace(p: nat) {
    || 0x09 <= p <= 0x0D || p == 0x20 || p == 0x85 || p == 0xA0 || p == 0x1680 || 0x2000 <= p <= 0x200A
    || p == 0x2028 || p == 0x2029 || p == 0x202F || p == 0x205F || p == 0x3000
  }

  lemma SpaceEncodes(p: nat)
    requires WhiteSpace(p)
    ensures IsSpace(Utf8(p))
  {
    if 0x2000 <= p < 0x2040 { assert p / 0x40 == 0x80 && p / 0x1000 == 2 && p % 0x40 == p - 0x2000; }
  }

  /** The space characters are exactly the encodings of the white space code points. */
  lemma SpacesAreUnicode(r: seq<byte>)
    ensures IsSpace(r) <==> exists p: nat :: WhiteSpace(p) && Utf8(p) == r
  {
    forall p: nat | WhiteSpace(p) ensures IsSpace(Utf8(p)) { SpaceEncodes(p); }
    if IsSpace(r) {
      var p: nat :=
        if |r| == 1 then r[0] as int
        else if |r| == 2 then r[1] as int
        else if r[0] as int == 0xE1 then 0x1680
        else if r[0] as int == 0xE3 then 0x3000
        else if r[1] as int == 0x81 then 0x205F
        else 0x2000 + (r[2] as int - 0x80);
      assert WhiteSpace(p);
      SpaceEncodes(p);
      SpaceDecodes(r, p);
    }
  }

  lemma SpaceDecodes(r: seq<byte>, p: nat)
    requires IsSpace(r) && WhiteSpace(p)
    requires p == if |r| == 1 then r[0] as int else if |r| == 2 then r[1] as int
                  else if r[0] as int == 0xE1 then 0x1680 else if r[0] as int == 0xE3 then 0x3000
                  else if r[1] as int == 0x81 then 0x205F else 0x2000 + (r[2] as int - 0x80)
    ensures Utf8(p) == r
  {
    if 0x2000 <= p < 0x2040 { assert p / 0x40 == 0x80 && p / 0x1000 == 2 && p % 0x40 == p - 0x2000; }
  }

  /** Concatenated space characters. */
  ghost predicate Blank(cs: seq<seq<byte>>) { forall c :: c in cs ==> IsSpace(c) }

  predicate NoSpaceFirst(s: seq<byte>) { !StartsWithSpace(s, 1) && !StartsWithSpace(s, 2) && !StartsWithSpace(s, 3) }

  predicate NoSpaceLast(s: seq<byte>) { !EndsWithSpace(s, 1) && !EndsWithSpace(s, 2) && !EndsWithSpace(s, 3) }

  /** The length of a space character follows from its first byte and from its last ones: no
      space character begins or ends another. */
  lemma SpaceShape(c: seq<byte>)
    requires IsSpace(c)
    ensures 1 <= |c| <= 3
    ensures |c| == 1 <==> c[0] as int < 0x80
    ensures |c| == 2 <==> c[0] as int == 0xC2
    ensures |c| == 3 <==> 0xE1 <= c[0] as int <= 0xE3
    ensures forall k :: 1 <= k < |c| ==> 0x80 <= c[k] as int < 0xC0
  {
  }

  lemma SpaceFirst(c: seq<byte>, rest: seq<byte>)
    requires IsSpace(c)
    ensures TrimLeft(c + rest) == TrimLeft(rest)
  {
    var s := c + rest;
    SpaceShape(c);
    assert s[..|c|] == c && s[|c|..] == rest && StartsWithSpace(s, |c|);
    forall n | 1 <= n < |c| ensures !StartsWithSpace(s, n) {
      if IsSpace(s[..n]) { SpaceShape(s[..n]); }
    }
  }

  lemma SpaceLast(rest: seq<byte>, c: seq<byte>)
    requires IsSpace(c)
    ensures TrimRight(rest + c) == TrimRight(rest)
  {
    var s := rest + c;
    SpaceShape(c);
    assert s[|s| - |c|..] == c && s[..|s| - |c|] == rest && EndsWithSpace(s, |c|);
    forall n | 1 <= n < |c| ensures !EndsWithSpace(s, n) {
      if IsSpace(s[|s| - n..]) { SpaceShape(s[|s| - n..]); }
    }
  }

  lemma {:induction false} BlankFirst(cs: seq<seq<byte>>, rest: seq<byte>)
    requires Blank(cs)
    ensures TrimLeft(Concat(cs) + rest) == TrimLeft(rest)
    decreases |cs|
  {
    if cs == [] {
      Units(rest);
    } else {
      Assoc(cs[0], Concat(cs[1..]), rest);
      SpaceFirst(cs[0], Concat(cs[1..]) + rest);
      BlankFirst(cs[1..], rest);
    }
  }

  lemma {:induction false} BlankLast(rest: seq<byte>, cs: seq<seq<byte>>)
    requires Blank(cs)
    ensures TrimRight(rest + Concat(cs)) == TrimRight(rest)
    decreases |cs|
  {
    if cs == [] {
      Units(rest);
    } else {
      var n := |cs| - 1;
      SnocSplit(cs);
      ConcatSnoc(cs[..n], cs[n]);
      Assoc(rest, Concat(cs[..n]), cs[n]);
      SpaceLast(rest + Concat(cs[..n]), cs[n]);
      BlankLast(rest, cs[..n]);
    }
  }

  lemma TrimmedFirst(s: seq<byte>)
    requires NoSpaceFirst(s)
    ensures TrimLeft(s) == s
  {
  }

  lemma TrimmedLast(s: seq<byte>)
    requires NoSpaceLast(s)
    ensures TrimRight(s) == s
  {
  }

  predicate Continuation(b: byte) { 0x80 <= b as int < 0xC0 }

  lemma NoSpaceShape(c: seq<byte>, k: nat)
    requires k < |c| && (if k == 0 then c[0] as int < 0x80 && (|c| > 1 || c[0] == 'd') else !Continuation(c[k]))
    ensures !IsSpace(c)
  {
  }

  lemma StartWithin(mid: seq<byte>, rest: seq<byte>, n: nat)
    requires n <= |mid|
    ensures StartsWithSpace(mid + rest, n) == StartsWithSpace(mid, n)
  {
    assert (mid + rest)[..n] == mid[..n];
  }

  lemma StartAcross(mid: seq<byte>, rest: seq<byte>, n: nat)
    requires 0 < |mid| < n && (rest != [] ==> !Continuation(rest[0]))
    ensures !StartsWithSpace(mid + rest, n)
  {
    if n <= |mid + rest| {
      var c := (mid + rest)[..n];
      assert c[|mid|] == rest[0];
      NoSpaceShape(c, |mid|);
    }
  }

  lemma BlankLead(cs: seq<seq<byte>>)
    requires Blank(cs) && Concat(cs) != []
    ensures !Continuation(Concat(cs)[0])
  {
    assert IsSpace(cs[0]);
    SpaceShape(cs[0]);
    assert Concat(cs)[0] == cs[0][0];
  }

  /** A line with nothing to trim in front keeps that when blanks follow it. */
  lemma BlankBehind(mid: seq<byte>, cs: seq<seq<byte>>)
    requires mid != [] && NoSpaceFirst(mid) && Blank(cs)
    ensures NoSpaceFirst(mid + Concat(cs))
  {
    if Concat(cs) != [] { BlankLead(cs); }
    forall n | 1 <= n <= 3 ensures !StartsWithSpace(mid + Concat(cs), n) {
      if n <= |mid| { StartWithin(mid, Concat(cs), n); } else { StartAcross(mid, Concat(cs), n); }
    }
  }

  lemma AllBlank(cs: seq<seq<byte>>)
    requires Blank(cs)
    ensures TrimLeft(Concat(cs)) == []
  {
    BlankFirst(cs, []);
    Units(Concat(cs));
  }

  /** Trimming takes off exactly the blanks: whatever space characters stand around a line that
      neither begins nor ends with one, the line comes back. */
  lemma TrimIsExact(front: seq<seq<byte>>, line: seq<byte>, back: seq<seq<byte>>)
    requires Blank(front) && Blank(back) && NoSpaceFirst(line) && NoSpaceLast(line)
    ensures TrimRight(TrimLeft(Concat(front) + line + Concat(back))) == line
  {
    Assoc(Concat(front), line, Concat(back));
    BlankFirst(front, line + Concat(back));
    if line == [] {
      Units(Concat(back));
      AllBlank(back);
    } else {
      BlankBehind(line, back);
      TrimmedFirst(line + Concat(back));
      BlankLast(line, back);
      TrimmedLast(line);
    }
  }

  lemma {:induction false} TrimLeftSplits(s: seq<byte>) returns (cs: seq<seq<byte>>)
    ensures Blank(cs) && s == Concat(cs) + TrimLeft(s) && NoSpaceFirst(TrimLeft(s))
    decreases |s|
  {
    if NoSpaceFirst(s) {
      cs := [];
      Units(s);
    } else {
      var n := if StartsWithSpace(s, 1) then 1 else if StartsWithSpace(s, 2) then 2 else 3;
      var rest := TrimLeftSplits(s[n..]);
      cs := [s[..n]] + rest;
      assert s == s[..n] + s[n..] && cs[1..] == rest;
      Assoc(s[..n], Concat(rest), TrimLeft(s[n..]));
    }
  }

  lemma TrimRightStep(s: seq<byte>) returns (m: nat)
    requires !NoSpaceLast(s)
    ensures m < |s| && IsSpace(s[m..]) && TrimRight(s) == TrimRight(s[..m])
  {
    m := |s| - if EndsWithSpace(s, 1) then 1 else if EndsWithSpace(s, 2) then 2 else 3;
    assert s[|s| - (|s| - m)..] == s[m..];
    SpaceShape(s[m..]);
  }

  lemma {:induction false} TrimRightSplits(s: seq<byte>) returns (cs: seq<seq<byte>>)
    ensures Blank(cs) && s == TrimRight(s) + Concat(cs) && NoSpaceLast(TrimRight(s))
    decreases |s|
  {
    if NoSpaceLast(s) {
      cs := [];
      TrimmedLast(s);
      Units(s);
    } else {
      var m := TrimRightStep(s);
      var rest := TrimRightSplits(s[..m]);
      cs := rest + [s[m..]];
      OneSpaceLess(s, m, rest);
    }
  }

  lemma OneSpaceLess(s: seq<byte>, m: nat, rest: seq<seq<byte>>)
    requires m < |s| && IsSpace(s[m..]) && s[..m] == TrimRight(s[..m]) + Concat(rest) && TrimRight(s) == TrimRight(s[..m])
    ensures s == TrimRight(s) + Concat(rest + [s[m..]])
  {
    var t := TrimRight(s[..m]);
    ConcatSnoc(rest, s[m..]);
    Assoc(t, Concat(rest), s[m..]);
    assert s == s[..m] + s[m..];
  }

  lemma PrefixNoSpaceFirst(a: seq<byte>, b: seq<byte>)
    requires a <= b && NoSpaceFirst(b)
    ensures NoSpaceFirst(a)
  {
    assert forall n :: 0 <= n <= |a| ==> a[..n] == b[..n];
  }

  /** What trimming computes: every line is its trimmed form between two runs of space
      characters, and the trimmed form neither begins nor ends with one. By `TrimIsExact` no
      other line is. */
  lemma TrimSplits(raw: seq<byte>) returns (front: seq<seq<byte>>, back: seq<seq<byte>>)
    ensures var line := TrimRight(TrimLeft(raw));
            && Blank(front) && Blank(back) && raw == Concat(front) + line + Concat(back)
            && NoSpaceFirst(line) && NoSpaceLast(line)
  {
    var left := TrimLeft(raw);
    front := TrimLeftSplits(raw);
    back := TrimRightSplits(left);
    assert TrimRight(left) <= left;
    PrefixNoSpaceFirst(TrimRight(left), left);
    Assoc(Concat(front), TrimRight(left), Concat(back));
  }

  lemma EndWithin(front: seq<byte>, data: seq<byte>, n: nat)
    requires n <= |data|
    ensures EndsWithSpace(front + data, n) == EndsWithSpace(data, n)
  {
    assert (front + data)[|front + data| - n..] == data[|data| - n..];
  }

  /** A space character that is one byte long is no part of a longer one. */
  lemma EndAcross(front: seq<byte>, data: seq<byte>, n: nat)
    requires front != [] && front[|front| - 1] == ' ' && 0 < |data| < n
    ensures !EndsWithSpace(front + data, n)
  {
    var s := front + data;
    if n <= |s| {
      var c, k := s[|s| - n..], n - |data| - 1;
      assert c[k] == s[|front| - 1] == ' ';
      NoSpaceShape(c, k);
    }
  }

  lemma DataLine(data: seq<byte>)
    requires data != [] && NoSpaceLast(data)
    ensures NoSpaceFirst(DATA_PREFIX + data) && NoSpaceLast(DATA_PREFIX + data)
  {
    var s := DATA_PREFIX + data;
    forall n | 1 <= n <= 3 ensures !StartsWithSpace(s, n) {
      NoSpaceShape(s[..n], 0);
    }
    forall n | 1 <= n <= 3 ensures !EndsWithSpace(s, n) {
      if n <= |data| { EndWithin(DATA_PREFIX, data, n); } else { EndAcross(DATA_PREFIX, data, n); }
    }
  }

  lemma MeaningOfData<T>(raw: seq<byte>, data: seq<byte>, decode: seq<byte> -> Option<T>)
    requires TrimRight(TrimLeft(raw)) == DATA_PREFIX + data
    ensures MeaningOfLine(raw, decode) ==
            if data == DONE then Done else match decode(data) case Some(x) => Item(x) case None => Ignored
  {
    var line := DATA_PREFIX + data;
    assert line[0] == 'd' && line[|DATA_PREFIX|..] == data && DATA_PREFIX <= line;
  }

  /** What the reader answers on a data line, whatever space characters stand around it, for
      instance the carriage return of a line that ends with both: [DONE] ends the stream, and
      any other payload is its item, if it decodes. */
  lemma BlanksDoNotMatter<T>(front: seq<seq<byte>>, data: seq<byte>, back: seq<seq<byte>>, decode: seq<byte> -> Option<T>)
    requires Blank(front) && Blank(back) && data != [] && NoSpaceLast(data)
    ensures Reader(decode)(Concat(front) + (DATA_PREFIX + data) + Concat(back)) ==
            if data == DONE then Done else match decode(data) case Some(x) => Item(x) case None => Ignored
  {
    DataLine(data);
    TrimIsExact(front, DATA_PREFIX + data, back);
    MeaningOfData(Concat(front) + (DATA_PREFIX + data) + Concat(back), data, decode);
  }

  // ---------------------------------------------------------------- the simple form

  function IndexFrom(s: seq<byte>, c: byte, from: nat): (r: int)
    requires from <= |s|
    ensures r == -1 || from <= r < |s|
    decreases |s| - from
  {
    if from == |s| then -1 else if s[from] == c then from else IndexFrom(s, c, from + 1)
  }

  /** The first position of a byte, or -1. */
  function IndexByte(s: seq<byte>, c: byte): (r: int)
    ensures -1 <= r < |s|
  {
    IndexFrom(s, c, 0)
  }

  lemma {:induction false} IndexFromFirst(s: seq<byte>, c: byte, from: nat)
    requires from <= |s|
    ensures var r := IndexFrom(s, c, from);
            && (r >= 0 ==> s[r] == c)
            && forall k :: from <= k < (if r < 0 then |s| else r) ==> s[k] != c
    decreases |s| - from
  {
    if from < |s| && s[from] != c { IndexFromFirst(s, c, from + 1); }
  }

  lemma IndexByteFirst(s: seq<byte>, c: byte)
    ensures var r := IndexByte(s, c);
            && (r >= 0 ==> s[r] == c)
            && forall k :: 0 <= k < (if r < 0 then |s| else r) ==> s[k] != c
  {
    IndexFromFirst(s, c, 0);
  }

  predicate NoNewline(s: seq<byte>) {
    forall k :: 0 <= k < |s| ==> s[k] != NEWLINE
  }

  /** The newline-terminated lines of a body, without their newlines. */
  function Lines(body: seq<byte>): seq<seq<byte>> {
    var i := IndexByte(body, NEWLINE);
    if i < 0 then [] else [body[..i]] + Lines(body[i + 1..])
  }

  /** What follows the last newline. */
  function Tail(body: seq<byte>): (t: seq<byte>)
    ensures |t| <= |body|
  {
    var i := IndexByte(body, NEWLINE);
    if i < 0 then body else Tail(body[i + 1..])
  }

  /** The items of the lines before [DONE]. */
  function Items<T>(lines: seq<seq<byte>>, meaning: seq<byte> -> Meaning<T>): seq<T> {
    if lines == [] then []
    else
      match meaning(lines[0])
      case Done => []
      case Ignored => Items(lines[1..], meaning)
      case Item(x) => [x] + Items(lines[1..], meaning)
  }

  /** Whether [DONE] is among the lines. */
  predicate HitsDone<T>(lines: seq<seq<byte>>, meaning: seq<byte> -> Meaning<T>) {
    lines != [] && (meaning(lines[0]).Done? || HitsDone(lines[1..], meaning))
  }

  /** The simple form: split into lines, keep the items before [DONE], then `done`. */
  function Simple<T>(body: seq<byte>, meaning: seq<byte> -> Meaning<T>, done: seq<T>): seq<T> {
    Items(Lines(body), meaning) + if HitsDone(Lines(body), meaning) then done else []
  }

  /** The cap is tested after the append and before lines are cut: read `k` overflows when
      the unfinished line left by the earlier reads and the new bytes together exceed it. */
  predicate Overflows(chunks: seq<seq<byte>>, k: nat)
    requires k < |chunks|
  {
    |Tail(Concat(chunks[..k]))| + |chunks[k]| > MAX_LINE_SIZE
  }

  /** How many reads precede the first one, from `from` on, that overflows. */
  function AcceptedReads(chunks: seq<seq<byte>>, from: nat): (n: nat)
    requires from <= |chunks|
    ensures from <= n <= |chunks|
    ensures n < |chunks| ==> Overflows(chunks, n)
    ensures forall k :: from <= k < n ==> !Overflows(chunks, k)
    decreases |chunks| - from
  {
    if from == |chunks| || Overflows(chunks, from) then from else AcceptedReads(chunks, from + 1)
  }

  /** The part of the body read before the first overflow, if any. */
  function Accepted(chunks: seq<seq<byte>>): seq<byte> {
    Concat(chunks[..AcceptedReads(chunks, 0)])
  }

  // ---------------------------------------------------------------- lemmas about the simple form

  lemma FirstNewline(a: seq<byte>, b: seq<byte>)
    requires IndexByte(a, NEWLINE) >= 0
    ensures IndexByte(a + b, NEWLINE) == IndexByte(a, NEWLINE)
  {
    IndexByteFirst(a, NEWLINE);
    IndexByteFirst(a + b, NEWLINE);
    var i, j := IndexByte(a, NEWLINE), IndexByte(a + b, NEWLINE);
    assert (a + b)[i] == NEWLINE;
    assert forall k :: 0 <= k < i ==> (a + b)[k] == a[k];
  }

  lemma LinesNoNewline(s: seq<byte>)
    requires NoNewline(s)
    ensures Lines(s) == [] && Tail(s) == s
  {
    IndexByteFirst(s, NEWLINE);
  }

  lemma IndexByteHit(s: seq<byte>)
    requires IndexByte(s, NEWLINE) >= 0
    ensures s[IndexByte(s, NEWLINE)] == NEWLINE
  {
    IndexByteFirst(s, NEWLINE);
  }

  /** `t` is the end of `body` from `k` on, and begins a line. */
  predicate EndsBody(t: seq<byte>, body: seq<byte>, k: nat) {
    k <= |body| && t == body[k..] && (k == 0 || body[k - 1] == NEWLINE) && NoNewline(t)
  }

  lemma EndsBodyStep(t: seq<byte>, body: seq<byte>, rest: seq<byte>, i: nat, k: nat)
    requires i < |body| && body[i] == NEWLINE && rest == body[i + 1..] && EndsBody(t, rest, k)
    ensures EndsBody(t, body, i + 1 + k)
  {
  }

  lemma WholeEnds(body: seq<byte>)
    requires IndexByte(body, NEWLINE) < 0
    ensures EndsBody(body, body, 0)
  {
    IndexByteFirst(body, NEWLINE);
  }

  /** The tail is the end of the body without a newline, behind one if there is one. */
  lemma {:induction false} TailIsSuffix(body: seq<byte>) returns (k: nat)
    ensures EndsBody(Tail(body), body, k)
    decreases |body|
  {
    var i := IndexByte(body, NEWLINE);
    if i < 0 {
      k := 0;
      NoLineLeft(body);
      WholeEnds(body);
    } else {
      var rest := body[i + 1..];
      IndexByteHit(body);
      FirstLine(body, i);
      k := TailIsSuffix(rest);
      EndsBodyStep(Tail(rest), body, rest, i, k);
      k := i + 1 + k;
    }
  }

  lemma TailNoNewline(body: seq<byte>)
    ensures NoNewline(Tail(body))
  {
    var k := TailIsSuffix(body);
  }

  lemma NoLineLeft(s: seq<byte>)
    requires IndexByte(s, NEWLINE) < 0
    ensures Lines(s) == [] && Tail(s) == s
  {
  }

  lemma SplitAt(a: seq<byte>, b: seq<byte>, i: nat)
    requires i < |a|
    ensures (a + b)[..i] == a[..i] && (a + b)[i + 1..] == a[i + 1..] + b
  {
  }

  lemma FirstLine(s: seq<byte>, i: nat)
    requires i == IndexByte(s, NEWLINE)
    ensures Lines(s) == [s[..i]] + Lines(s[i + 1..]) && Tail(s) == Tail(s[i + 1..])
  {
  }

  /** Lines can be cut as the body arrives. */
  lemma {:induction false} LinesAppend(a: seq<byte>, b: seq<byte>)
    ensures Lines(a + b) == Lines(a) + Lines(Tail(a) + b)
    ensures Tail(a + b) == Tail(Tail(a) + b)
    decreases |a|
  {
    var i := IndexByte(a, NEWLINE);
    if i >= 0 {
      var whole, line, rest := a + b, a[..i], a[i + 1..];
      LinesAppend(rest, b);
      FirstNewline(a, b);
      FirstLine(a, i);
      FirstLine(whole, i);
      SplitAt(a, b, i);
      Assoc([line], Lines(rest), Lines(Tail(rest) + b));
    } else {
      assert Lines(a) == [] && Tail(a) == a;
    }
  }

  function Terminated(lines: seq<seq<byte>>): seq<seq<byte>> {
    seq(|lines|, k requires 0 <= k < |lines| => lines[k] + [NEWLINE])
  }

  /** `Lines` and `Tail` are what they say: the lines with their newlines, followed by the tail,
      are the body, and there is no newline within them. */
  lemma {:induction false} LinesAreTheBody(body: seq<byte>)
    ensures body == Concat(Terminated(Lines(body))) + Tail(body)
    ensures NoNewline(Tail(body)) && forall k :: 0 <= k < |Lines(body)| ==> NoNewline(Lines(body)[k])
    decreases |body|
  {
    var i := IndexByte(body, NEWLINE);
    TailNoNewline(body);
    IndexByteFirst(body, NEWLINE);
    if i < 0 {
      NoLineLeft(body);
      Units(body);
    } else {
      var rest := body[i + 1..];
      FirstLine(body, i);
      LinesAreTheBody(rest);
      OneLineMore(body, i, Lines(rest), Tail(rest));
    }
  }

  lemma OneLineMore(body: seq<byte>, i: nat, lines: seq<seq<byte>>, tail: seq<byte>)
    requires i < |body| && body[i] == NEWLINE && body[i + 1..] == Concat(Terminated(lines)) + tail
    ensures body == Concat(Terminated([body[..i]] + lines)) + tail
  {
    var first := body[..i] + [NEWLINE];
    assert Terminated([body[..i]] + lines) == [first] + Terminated(lines);
    assert ([first] + Terminated(lines))[1..] == Terminated(lines);
    Assoc(first, Concat(Terminated(lines)), tail);
    assert body == first + body[i + 1..];
  }

  lemma {:induction false} ItemsAppend<T>(x: seq<seq<byte>>, y: seq<seq<byte>>, meaning: seq<byte> -> Meaning<T>)
    ensures Items(x + y, meaning) == Items(x, meaning) + if HitsDone(x, meaning) then [] else Items(y, meaning)
    ensures HitsDone(x + y, meaning) <==> HitsDone(x, meaning) || HitsDone(y, meaning)
    decreases |x|
  {
    if x == [] {
      assert x + y == y;
    } else {
      assert (x + y)[0] == x[0] && (x + y)[1..] == x[1..] + y;
      ItemsAppend(x[1..], y, meaning);
    }
  }

  lemma ItemsOfOne<T>(line: seq<byte>, meaning: seq<byte> -> Meaning<T>)
    ensures Items([line], meaning) == match meaning(line) case Item(x) => [x] case _ => []
    ensures HitsDone([line], meaning) <==> meaning(line).Done?
  {
    assert [line][0] == line && [line][1..] == [];
  }

  lemma ConcatReads(chunks: seq<seq<byte>>, k: nat)
    requires k < |chunks|
    ensures Concat(chunks[..k + 1]) == Concat(chunks[..k]) + chunks[k]
  {
    assert chunks[..k + 1] == chunks[..k] + [chunks[k]];
    ConcatSnoc(chunks[..k], chunks[k]);
  }

  lemma ConcatPrefix(chunks: seq<seq<byte>>, k: nat)
    requires k <= |chunks|
    ensures Concat(chunks[..k]) <= Concat(chunks)
  {
    assert chunks == chunks[..k] + chunks[k..];
    ConcatAppend(chunks[..k], chunks[k..]);
  }

  /** A longer body extends the items, unless [DONE] has been seen. */
  lemma PrefixItems<T>(a: seq<byte>, body: seq<byte>, meaning: seq<byte> -> Meaning<T>)
    requires a <= body
    ensures Items(Lines(a), meaning) <= Items(Lines(body), meaning)
    ensures HitsDone(Lines(a), meaning) ==>
              HitsDone(Lines(body), meaning) && Items(Lines(a), meaning) == Items(Lines(body), meaning)
  {
    assert body == a + body[|a|..];
    LinesAppend(a, body[|a|..]);
    ItemsAppend(Lines(a), Lines(Tail(a) + body[|a|..]), meaning);
  }

  lemma PrefixSimple<T>(a: seq<byte>, body: seq<byte>, meaning: seq<byte> -> Meaning<T>, done: seq<T>)
    requires a <= body
    ensures Simple(a, meaning, done) <= Simple(body, meaning, done)
  {
    PrefixItems(a, body, meaning);
  }

  // ---------------------------------------------------------------- the parser

  datatype End = EndOfBody | SawDone | Oversize | SendStopped | SendBlocked

  /** What the parser must emit: the items of the accepted part of the body, cut after
      `sends` items when a send is refused (a cancelled context, or a full channel for
      the non-blocking sender). Forwarding [DONE] is a plain send that no context ends:
      `taken` says that the channel has or gets room for it, and without room the parser
      never returns. */
  predicate Parses<T(==)>(chunks: seq<seq<byte>>, meaning: seq<byte> -> Meaning<T>, done: seq<T>, sends: Option<nat>,
                          taken: bool, out: seq<T>, end: End)
  {
    var body := Accepted(chunks);
    var items, stopped := Items(Lines(body), meaning), HitsDone(Lines(body), meaning);
    if sends.Some? && sends.value < |items| then out == items[..sends.value] && end == SendStopped
    else if stopped && done != [] && !taken then out == items && end == SendBlocked
    else
      && out == Simple(body, meaning, done)
      && (end == SawDone <==> stopped)
      && (end == Oversize <==> !stopped && AcceptedReads(chunks, 0) < |chunks|)
      && end != SendStopped && end != SendBlocked
  }

  /** Cutting one line: `cut` are the lines already taken off `buf`, and `rest` is left. */
  lemma LineStep<T>(buf: seq<byte>, cut: seq<seq<byte>>, rest: seq<byte>, idx: nat, meaning: seq<byte> -> Meaning<T>)
    requires idx == IndexByte(rest, NEWLINE)
    requires Lines(buf) == cut + Lines(rest) && Tail(buf) == Tail(rest)
    requires !HitsDone(cut, meaning)
    ensures var line, cut' := rest[..idx], cut + [rest[..idx]];
            && Lines(buf) == cut' + Lines(rest[idx + 1..]) && Tail(buf) == Tail(rest[idx + 1..])
            && (HitsDone(cut', meaning) <==> meaning(line).Done?)
            && Items(cut', meaning) == Items(cut, meaning) + (match meaning(line) case Item(x) => [x] case _ => [])
            && Items(cut', meaning) <= Items(Lines(buf), meaning)
            && (meaning(line).Done? ==> HitsDone(Lines(buf), meaning) && Items(Lines(buf), meaning) == Items(cut, meaning))
  {
    var line, later := rest[..idx], Lines(rest[idx + 1..]);
    FirstLine(rest, idx);
    Assoc(cut, [line], later);
    ItemsOfOne(line, meaning);
    ItemsAppend(cut, [line], meaning);
    ItemsAppend(cut + [line], later, meaning);
  }

  /** The contract of `CutLines`. */
  predicate Cuts<T(==)>(buf: seq<byte>, meaning: seq<byte> -> Meaning<T>, done: seq<T>, sends: Option<nat>, taken: bool, sent: seq<T>,
                        rest: seq<byte>, out: seq<T>, end: Option<End>)
  {
    var items, stopped := sent + Items(Lines(buf), meaning), HitsDone(Lines(buf), meaning);
    if sends.Some? && sends.value < |items| then out == items[..sends.value] && end == Some(SendStopped)
    else if stopped && done != [] && !taken then out == items && end == Some(SendBlocked)
    else if stopped then out == items + done && end == Some(SawDone)
    else out == items && end == None && rest == Tail(buf)
  }

  lemma StoppedSend<T>(sent: seq<T>, items: seq<T>, x: T, all: seq<T>)
    requires items + [x] <= all
    ensures |sent + items| < |sent + all| && (sent + all)[..|sent + items|] == sent + items
  {
  }

  /** What the inner loop keeps: the lines `cut` are off the buffer and their items are sent. */
  predicate Cutting<T(==)>(buf: seq<byte>, meaning: seq<byte> -> Meaning<T>, sends: Option<nat>, sent: seq<T>,
                           cut: seq<seq<byte>>, rest: seq<byte>, out: seq<T>)
  {
    && Lines(buf) == cut + Lines(rest) && Tail(buf) == Tail(rest)
    && !HitsDone(cut, meaning) && out == sent + Items(cut, meaning)
    && (sends.Some? ==> |out| <= sends.value)
  }

  lemma CuttingStart<T>(buf: seq<byte>, meaning: seq<byte> -> Meaning<T>, sends: Option<nat>, sent: seq<T>)
    requires sends.Some? ==> |sent| <= sends.value
    ensures Cutting(buf, meaning, sends, sent, [], buf, sent)
  {
    Units(Lines(buf));
    Units(sent);
  }

  lemma CuttingEnd<T>(buf: seq<byte>, meaning: seq<byte> -> Meaning<T>, done: seq<T>, sends: Option<nat>, taken: bool, sent: seq<T>,
                      cut: seq<seq<byte>>, rest: seq<byte>, out: seq<T>)
    requires Cutting(buf, meaning, sends, sent, cut, rest, out) && IndexByte(rest, NEWLINE) < 0
    ensures Cuts(buf, meaning, done, sends, taken, sent, rest, out, None)
  {
    NoLineLeft(rest);
    Units(cut);
  }

  /** A line without an item, or [DONE]. */
  lemma CuttingNoItem<T>(buf: seq<byte>, meaning: seq<byte> -> Meaning<T>, done: seq<T>, sends: Option<nat>, taken: bool, sent: seq<T>,
                         cut: seq<seq<byte>>, rest: seq<byte>, out: seq<T>, idx: nat)
    requires Cutting(buf, meaning, sends, sent, cut, rest, out) && idx == IndexByte(rest, NEWLINE)
    requires !meaning(rest[..idx]).Item?
    ensures meaning(rest[..idx]).Ignored? ==> Cutting(buf, meaning, sends, sent, cut + [rest[..idx]], rest[idx + 1..], out)
    ensures meaning(rest[..idx]).Done? ==>
              if done != [] && !taken then Cuts(buf, meaning, done, sends, taken, sent, rest[idx + 1..], out, Some(SendBlocked))
              else Cuts(buf, meaning, done, sends, taken, sent, rest[idx + 1..], out + done, Some(SawDone))
  {
    LineStep(buf, cut, rest, idx, meaning);
    Units(Items(cut, meaning));
  }

  /** A line with an item: its send is refused, or it is sent. */
  lemma CuttingItem<T>(buf: seq<byte>, meaning: seq<byte> -> Meaning<T>, done: seq<T>, sends: Option<nat>, taken: bool, sent: seq<T>,
                       cut: seq<seq<byte>>, rest: seq<byte>, out: seq<T>, idx: nat, x: T)
    requires Cutting(buf, meaning, sends, sent, cut, rest, out) && idx == IndexByte(rest, NEWLINE)
    requires meaning(rest[..idx]) == Item(x)
    ensures if sends == Some(|out|) then Cuts(buf, meaning, done, sends, taken, sent, rest[idx + 1..], out, Some(SendStopped))
            else Cutting(buf, meaning, sends, sent, cut + [rest[..idx]], rest[idx + 1..], out + [x])
  {
    LineStep(buf, cut, rest, idx, meaning);
    var items := Items(cut, meaning);
    if sends == Some(|out|) {
      StoppedSend(sent, items, x, Items(Lines(buf), meaning));
    } else {
      Assoc(sent, items, [x]);
    }
  }

  /** The inner loop: cut the complete lines off the buffer. `None` means that the outer
      loop goes on. */
  method CutLines<T>(buf: seq<byte>, meaning: seq<byte> -> Meaning<T>, done: seq<T>, sends: Option<nat>, taken: bool, sent: seq<T>)
    returns (rest: seq<byte>, out: seq<T>, end: Option<End>)
    requires sends.Some? ==> |sent| <= sends.value
    ensures Cuts(buf, meaning, done, sends, taken, sent, rest, out, end)
  {
    rest, out, end := buf, sent, None;
    ghost var cut: seq<seq<byte>> := [];
    CuttingStart(buf, meaning, sends, sent);
    var idx := IndexByte(rest, NEWLINE);
    while idx >= 0
      invariant idx == IndexByte(rest, NEWLINE)
      invariant Cutting(buf, meaning, sends, sent, cut, rest, out)
      decreases |rest|
    {
      var line := rest[..idx];
      match meaning(line) {
        case Ignored =>
          CuttingNoItem(buf, meaning, done, sends, taken, sent, cut, rest, out, idx);
        case Done =>
          CuttingNoItem(buf, meaning, done, sends, taken, sent, cut, rest, out, idx);
          if |done| > 0 && !taken {
            return rest[idx + 1..], out, Some(SendBlocked);
          }
          return rest[idx + 1..], out + done, Some(SawDone);
        case Item(x) =>
          CuttingItem(buf, meaning, done, sends, taken, sent, cut, rest, out, idx, x);
          if sends == Some(|out|) {
            return rest[idx + 1..], out, Some(SendStopped);
          }
          out := out + [x];
      }
      rest, cut := rest[idx + 1..], cut + [line];
      idx := IndexByte(rest, NEWLINE);
    }
    CuttingEnd(buf, meaning, done, sends, taken, sent, cut, rest, out);
  }

  /** What the outer loop keeps: before read `k` no read overflowed, no [DONE] was seen, the
      buffer is the unfinished line and every item so far was sent. */
  predicate Progress<T(==)>(chunks: seq<seq<byte>>, k: nat, meaning: seq<byte> -> Meaning<T>, sends: Option<nat>,
                            lineBuf: seq<byte>, out: seq<T>)
  {
    && k <= AcceptedReads(chunks, 0) && k <= |chunks|
    && lineBuf == Tail(Concat(chunks[..k]))
    && !HitsDone(Lines(Concat(chunks[..k])), meaning)
    && out == Items(Lines(Concat(chunks[..k])), meaning)
    && (sends.Some? ==> |out| <= sends.value)
  }

  lemma ProgressInit<T>(chunks: seq<seq<byte>>, meaning: seq<byte> -> Meaning<T>, sends: Option<nat>)
    ensures Progress(chunks, 0, meaning, sends, [], [])
  {
    assert chunks[..0] == [];
  }

  lemma ProgressOversize<T>(chunks: seq<seq<byte>>, k: nat, meaning: seq<byte> -> Meaning<T>, done: seq<T>, sends: Option<nat>, taken: bool,
                            lineBuf: seq<byte>, out: seq<T>)
    requires Progress(chunks, k, meaning, sends, lineBuf, out) && k < |chunks|
    requires |lineBuf + chunks[k]| > MAX_LINE_SIZE
    ensures Parses(chunks, meaning, done, sends, taken, out, Oversize)
  {
    assert Overflows(chunks, k) && k == AcceptedReads(chunks, 0);
    Units(out);
  }

  /** A read that does not overflow: its place among the accepted reads and its items. */
  lemma ReadFits<T>(chunks: seq<seq<byte>>, k: nat, meaning: seq<byte> -> Meaning<T>)
    requires k < |chunks| && k <= AcceptedReads(chunks, 0) && !HitsDone(Lines(Concat(chunks[..k])), meaning)
    requires |Tail(Concat(chunks[..k])) + chunks[k]| <= MAX_LINE_SIZE
    ensures k + 1 <= AcceptedReads(chunks, 0)
    ensures var before, after := Concat(chunks[..k]), Concat(chunks[..k + 1]);
            var more := Lines(Tail(before) + chunks[k]);
            && Items(Lines(after), meaning) == Items(Lines(before), meaning) + Items(more, meaning)
            && (HitsDone(Lines(after), meaning) <==> HitsDone(more, meaning))
            && Tail(after) == Tail(Tail(before) + chunks[k])
  {
    assert !Overflows(chunks, k);
    NextRead(chunks, k, meaning);
  }

  lemma ProgressStep<T>(chunks: seq<seq<byte>>, k: nat, meaning: seq<byte> -> Meaning<T>, done: seq<T>, sends: Option<nat>, taken: bool,
                        lineBuf: seq<byte>, out: seq<T>, rest: seq<byte>, out': seq<T>)
    requires Progress(chunks, k, meaning, sends, lineBuf, out) && k < |chunks|
    requires |lineBuf + chunks[k]| <= MAX_LINE_SIZE
    requires Cuts(lineBuf + chunks[k], meaning, done, sends, taken, out, rest, out', None)
    ensures Progress(chunks, k + 1, meaning, sends, rest, out')
  {
    ReadFits(chunks, k, meaning);
  }

  lemma ProgressStop<T>(chunks: seq<seq<byte>>, k: nat, meaning: seq<byte> -> Meaning<T>, done: seq<T>, sends: Option<nat>, taken: bool,
                        lineBuf: seq<byte>, out: seq<T>, rest: seq<byte>, out': seq<T>, end: End)
    requires Progress(chunks, k, meaning, sends, lineBuf, out) && k < |chunks|
    requires |lineBuf + chunks[k]| <= MAX_LINE_SIZE
    requires Cuts(lineBuf + chunks[k], meaning, done, sends, taken, out, rest, out', Some(end))
    ensures Parses(chunks, meaning, done, sends, taken, out', end)
  {
    ReadFits(chunks, k, meaning);
    AcceptedExtends(chunks, k + 1, meaning);
    var part, all := Lines(Concat(chunks[..k + 1])), Lines(Accepted(chunks));
    StopTransfers(Items(part, meaning), HitsDone(part, meaning), Items(all, meaning), HitsDone(all, meaning),
                  done, sends, taken, out', end);
  }

  /** Stopping while only `part` of the items are known is stopping with `all` of them. */
  lemma StopTransfers<T>(part: seq<T>, partDone: bool, all: seq<T>, allDone: bool, done: seq<T>, sends: Option<nat>, taken: bool,
                         out: seq<T>, end: End)
    requires part <= all && (partDone ==> allDone && part == all)
    requires if sends.Some? && sends.value < |part| then out == part[..sends.value] && end == SendStopped
             else if partDone && done != [] && !taken then out == part && end == SendBlocked
             else partDone && out == part + done && end == SawDone
    ensures if sends.Some? && sends.value < |all| then out == all[..sends.value] && end == SendStopped
            else if allDone && done != [] && !taken then out == all && end == SendBlocked
            else allDone && out == all + done && end == SawDone
  {
  }

  lemma ProgressEnd<T>(chunks: seq<seq<byte>>, meaning: seq<byte> -> Meaning<T>, done: seq<T>, sends: Option<nat>, taken: bool,
                       lineBuf: seq<byte>, out: seq<T>)
    requires Progress(chunks, |chunks|, meaning, sends, lineBuf, out)
    ensures Parses(chunks, meaning, done, sends, taken, out, EndOfBody)
  {
    Units(out);
  }

  /** The shared loop. `chunks` are the bytes of the reads the body delivers before it
      reports an error or the end of the file. */
  method ParseStream<T>(chunks: seq<seq<byte>>, meaning: seq<byte> -> Meaning<T>, done: seq<T>, sends: Option<nat>, taken: bool)
    returns (out: seq<T>, end: End)
    ensures Parses(chunks, meaning, done, sends, taken, out, end)
  {
    out := [];
    var lineBuf: seq<byte> := [];
    var k := 0;
    ProgressInit(chunks, meaning, sends);
    while k < |chunks|
      invariant Progress(chunks, k, meaning, sends, lineBuf, out)
    {
      ghost var before, sent := lineBuf, out;
      Units(before);
      var n := |chunks[k]|;
      if n > 0 {
        lineBuf := lineBuf + chunks[k];
        if |lineBuf| > MAX_LINE_SIZE {
          ProgressOversize(chunks, k, meaning, done, sends, taken, before, out);
          return out, Oversize;
        }
      } else {
        BufferWithinCap(chunks, k);
      }
      var stop: Option<End>;
      lineBuf, out, stop := CutLines(lineBuf, meaning, done, sends, taken, out);
      if stop.Some? {
        ProgressStop(chunks, k, meaning, done, sends, taken, before, sent, lineBuf, out, stop.value);
        return out, stop.value;
      }
      ProgressStep(chunks, k, meaning, done, sends, taken, before, sent, lineBuf, out);
      k := k + 1;
    }
    ProgressEnd(chunks, meaning, done, sends, taken, lineBuf, out);
    end := EndOfBody;
  }

  lemma BufferWithinCap(chunks: seq<seq<byte>>, k: nat)
    requires k <= AcceptedReads(chunks, 0)
    ensures |Tail(Concat(chunks[..k]))| <= MAX_LINE_SIZE
  {
    if k == 0 {
      assert chunks[..0] == [];
    } else {
      assert !Overflows(chunks, k - 1);
      ConcatReads(chunks, k - 1);
      LinesAppend(Concat(chunks[..k - 1]), chunks[k - 1]);
    }
  }

  /** The items of one more read. */
  lemma NextRead<T>(chunks: seq<seq<byte>>, k: nat, meaning: seq<byte> -> Meaning<T>)
    requires k < |chunks| && !HitsDone(Lines(Concat(chunks[..k])), meaning)
    ensures var before, after := Concat(chunks[..k]), Concat(chunks[..k + 1]);
            var more := Lines(Tail(before) + chunks[k]);
            && Items(Lines(after), meaning) == Items(Lines(before), meaning) + Items(more, meaning)
            && (HitsDone(Lines(after), meaning) <==> HitsDone(more, meaning))
            && Tail(after) == Tail(Tail(before) + chunks[k])
  {
    ConcatReads(chunks, k);
    LinesAppend(Concat(chunks[..k]), chunks[k]);
    ItemsAppend(Lines(Concat(chunks[..k])), Lines(Tail(Concat(chunks[..k])) + chunks[k]), meaning);
  }

  /** The items of the first `k` accepted reads begin the items of all accepted reads. */
  lemma AcceptedExtends<T>(chunks: seq<seq<byte>>, k: nat, meaning: seq<byte> -> Meaning<T>)
    requires k <= AcceptedReads(chunks, 0)
    ensures var part, all := Lines(Concat(chunks[..k])), Lines(Accepted(chunks));
            && Items(part, meaning) <= Items(all, meaning)
            && (HitsDone(part, meaning) ==> HitsDone(all, meaning) && Items(part, meaning) == Items(all, meaning))
  {
    var n := AcceptedReads(chunks, 0);
    ConcatPrefix(chunks[..n], k);
    assert chunks[..n][..k] == chunks[..k];
    PrefixItems(Concat(chunks[..k]), Accepted(chunks), meaning);
  }

  // ---------------------------------------------------------------- consequences

  /** No stretch of more than `n` bytes without a newline. */
  ghost predicate RunsAtMost(body: seq<byte>, n: nat) {
    forall i, j :: 0 <= i <= j <= |body| && NoNewline(body[i..j]) ==> j - i <= n
  }

  lemma TailIsARun(p: seq<byte>, body: seq<byte>, n: nat)
    requires p <= body && RunsAtMost(body, n)
    ensures |Tail(p)| <= n
  {
    var k := TailIsSuffix(p);
    TailNoNewline(p);
    assert body[k..|p|] == Tail(p);
  }

  /** Whatever the chunking, the cap and a refused send do, what is emitted is a prefix of
      the simple form of the whole body. */
  lemma AlwaysAPrefix<T>(chunks: seq<seq<byte>>, meaning: seq<byte> -> Meaning<T>, done: seq<T>, sends: Option<nat>,
                         taken: bool, out: seq<T>, end: End)
    requires Parses(chunks, meaning, done, sends, taken, out, end)
    ensures out <= Simple(Concat(chunks), meaning, done)
  {
    ConcatPrefix(chunks, AcceptedReads(chunks, 0));
    PrefixSimple(Accepted(chunks), Concat(chunks), meaning, done);
  }

  /** The line buffer never exceeds the cap by more than one read. */
  lemma BufferBounded(chunks: seq<seq<byte>>, k: nat)
    requires forall j :: 0 <= j < |chunks| ==> |chunks[j]| <= READ_SIZE
    requires k < |chunks| && k <= AcceptedReads(chunks, 0)
    ensures |Tail(Concat(chunks[..k])) + chunks[k]| <= 1_048_576 + 4096
  {
    BufferWithinCap(chunks, k);
  }

  lemma {:induction false} ReadCovering(chunks: seq<seq<byte>>, limit: nat) returns (k: nat)
    requires |Concat(chunks)| > limit
    ensures k < |chunks| && |Concat(chunks[..k])| <= limit < |Concat(chunks[..k])| + |chunks[k]|
    decreases |chunks|
  {
    var n := |chunks| - 1;
    assert chunks[..n + 1] == chunks;
    ConcatReads(chunks, n);
    if |Concat(chunks[..n])| <= limit {
      k := n;
    } else {
      k := ReadCovering(chunks[..n], limit);
      assert chunks[..n][..k] == chunks[..k];
    }
  }

  lemma TailAfterNewline(pre: seq<byte>)
    requires pre == [] || pre[|pre| - 1] == NEWLINE
    ensures Tail(pre) == []
  {
    var k := TailIsSuffix(pre);
    TailNoNewline(pre);
  }

  lemma TailOfSplit(pre: seq<byte>, run: seq<byte>)
    requires pre == [] || pre[|pre| - 1] == NEWLINE
    requires NoNewline(run)
    ensures Lines(pre + run) == Lines(pre) && Tail(pre + run) == run
  {
    TailAfterNewline(pre);
    LinesAppend(pre, run);
    assert [] + run == run;
    LinesNoNewline(run);
    assert Lines(pre) + [] == Lines(pre);
  }

  /** Some read overflows before the body is `limit` = |pre| + 2^20 bytes long. */
  lemma LongRunOverflows(chunks: seq<seq<byte>>, pre: seq<byte>, run: seq<byte>, post: seq<byte>)
    requires Concat(chunks) == pre + run + post
    requires pre == [] || pre[|pre| - 1] == NEWLINE
    requires NoNewline(run) && |run| > MAX_LINE_SIZE
    ensures AcceptedReads(chunks, 0) < |chunks| && |Accepted(chunks)| <= |pre| + MAX_LINE_SIZE
  {
    var k := ReadCovering(chunks, |pre| + MAX_LINE_SIZE);
    var p := Concat(chunks[..k]);
    ConcatPrefix(chunks, k);
    if |p| >= |pre| {
      var part := IntoTheRun(p, pre, run, post);
      TailOfSplit(pre, part);
    }
    assert Overflows(chunks, k);
    var n := AcceptedReads(chunks, 0);
    assert n <= k;
    assert chunks[..k][..n] == chunks[..n];
    ConcatPrefix(chunks[..k], n);
  }

  /** Clean cut-off. When a stretch of more than 2^20 bytes without a newline follows the
      lines `pre` and those contain no [DONE], the parser ends with the oversize error, or a
      send was refused before, and it has emitted a prefix of the items of `pre`, nothing
      from inside or after the stretch. */
  lemma CleanCutOff<T>(chunks: seq<seq<byte>>, pre: seq<byte>, run: seq<byte>, post: seq<byte>,
                       meaning: seq<byte> -> Meaning<T>, done: seq<T>, sends: Option<nat>, taken: bool,
                       out: seq<T>, end: End)
    requires Concat(chunks) == pre + run + post
    requires pre == [] || pre[|pre| - 1] == NEWLINE
    requires NoNewline(run) && |run| > 1_048_576
    requires !HitsDone(Lines(pre), meaning)
    requires Parses(chunks, meaning, done, sends, taken, out, end)
    ensures (end == Oversize || (end == SendStopped && sends.Some?)) && out <= Items(Lines(pre), meaning)
  {
    LongRunOverflows(chunks, pre, run, post);
    var a := Accepted(chunks);
    ConcatPrefix(chunks, AcceptedReads(chunks, 0));
    if |a| <= |pre| {
      Assoc(pre, run, post);
      PrefixOfPart(a, pre, run + post, Concat(chunks));
      PrefixItems(a, pre, meaning);
    } else {
      var part := IntoTheRun(a, pre, run, post);
      TailOfSplit(pre, part);
    }
    Units(Items(Lines(a), meaning));
  }

  lemma PrefixOfPart(a: seq<byte>, pre: seq<byte>, rest: seq<byte>, body: seq<byte>)
    requires body == pre + rest && a <= body && |a| <= |pre|
    ensures a <= pre
  {
    assert a == body[..|a|] && pre == body[..|pre|];
  }

  lemma IntoTheRun(a: seq<byte>, pre: seq<byte>, run: seq<byte>, post: seq<byte>) returns (part: seq<byte>)
    requires a <= pre + run + post && |pre| <= |a| <= |pre| + |run| && NoNewline(run)
    ensures a == pre + part && NoNewline(part)
  {
    part := run[..|a| - |pre|];
    assert a == (pre + run + post)[..|a|];
  }

  // ---------------------------------------------------------------- near the cap chunking matters

  /** The body cut into chunks of 4096 bytes. */
  function Chop(body: seq<byte>): seq<seq<byte>> {
    if |body| <= READ_SIZE then [body] else [body[..READ_SIZE]] + Chop(body[READ_SIZE..])
  }

  function Smaller(a: nat, b: nat): nat { if a < b then a else b }

  lemma {:induction false} ChopReads(body: seq<byte>, k: nat)
    requires k <= |Chop(body)|
    ensures Concat(Chop(body)[..k]) == body[..Smaller(k * READ_SIZE, |body|)]
    ensures forall j :: 0 <= j < |Chop(body)| ==> |Chop(body)[j]| <= READ_SIZE
    ensures k < |Chop(body)| ==> |Chop(body)[k]| == Smaller(READ_SIZE, |body| - Smaller(k * READ_SIZE, |body|))
    ensures READ_SIZE * (|Chop(body)| - 1) <= |body| <= READ_SIZE * |Chop(body)|
    decreases |body|
  {
    var chunks := Chop(body);
    if |body| <= READ_SIZE {
      if k == 1 {
        assert chunks[..1] == [body] && [body][1..] == [];
      } else {
        assert chunks[..0] == [];
      }
    } else {
      var rest := body[READ_SIZE..];
      assert chunks[0] == body[..READ_SIZE] && chunks[1..] == Chop(rest);
      if k == 0 {
        ChopReads(rest, 0);
        assert chunks[..0] == [];
      } else {
        ChopReads(rest, k - 1);
        assert chunks[..k] == [chunks[0]] + Chop(rest)[..k - 1];
        assert chunks[..k][1..] == Chop(rest)[..k - 1];
        assert body[..Smaller(k * READ_SIZE, |body|)] == chunks[0] + rest[..Smaller((k - 1) * READ_SIZE, |rest|)];
      }
    }
  }

  lemma ChopWhole(body: seq<byte>)
    ensures Concat(Chop(body)) == body
  {
    ChopReads(body, |Chop(body)|);
    assert Chop(body)[..|Chop(body)|] == Chop(body);
    assert body[..|body|] == body;
  }

  // ---------------------------------------------------------------- exactly when chunking does not matter

  /** The reads a body may be delivered in. */
  ghost predicate Delivers(chunks: seq<seq<byte>>, body: seq<byte>) {
    Concat(chunks) == body && forall k :: 0 <= k < |chunks| ==> |chunks[k]| <= READ_SIZE
  }

  /** Every delivery of the body emits the simple form of the whole body. */
  ghost predicate IgnoresChunking<T(!new)>(body: seq<byte>, meaning: seq<byte> -> Meaning<T>, done: seq<T>) {
    forall chunks :: Delivers(chunks, body) ==> Simple(Accepted(chunks), meaning, done) == Simple(body, meaning, done)
  }

  predicate LineStart(body: seq<byte>, i: nat)
    requires i <= |body|
  {
    i == 0 || body[i - 1] == NEWLINE
  }

  /** An unfinished line `body[i..j]` that something to emit still lies in or behind leaves
      room for the largest read that can follow. */
  ghost predicate LeavesRoom<T>(body: seq<byte>, i: nat, j: nat, meaning: seq<byte> -> Meaning<T>, done: seq<T>)
    requires i <= j <= |body|
  {
    LineStart(body, i) && NoNewline(body[i..j]) && Simple(body[..i], meaning, done) != Simple(body, meaning, done) ==>
      Smaller(j + READ_SIZE, |body|) - i <= MAX_LINE_SIZE
  }

  ghost predicate AlwaysRoom<T>(body: seq<byte>, meaning: seq<byte> -> Meaning<T>, done: seq<T>) {
    forall i: nat, j: nat | i <= j <= |body| :: LeavesRoom(body, i, j, meaning, done)
  }

  lemma SamePrefix<T>(a: seq<T>, b: seq<T>, c: seq<T>)
    requires a <= b <= c && a == c
    ensures b == c
  {
  }

  lemma RoomSuffices<T(!new)>(chunks: seq<seq<byte>>, body: seq<byte>, meaning: seq<byte> -> Meaning<T>, done: seq<T>)
    requires Delivers(chunks, body) && AlwaysRoom(body, meaning, done)
    ensures Simple(Accepted(chunks), meaning, done) == Simple(body, meaning, done)
  {
    var n := AcceptedReads(chunks, 0);
    if n == |chunks| {
      assert chunks[..n] == chunks;
    } else {
      var p := Concat(chunks[..n]);
      ConcatPrefix(chunks, n);
      ConcatPrefix(chunks, n + 1);
      ConcatReads(chunks, n);
      var i := TailStart(p);
      WithinPrefix(p, body, i);
      assert LeavesRoom(body, i, |p|, meaning, done);
      PrefixSimple(body[..i], p, meaning, done);
      PrefixSimple(p, body, meaning, done);
      SamePrefix(Simple(body[..i], meaning, done), Simple(p, meaning, done), Simple(body, meaning, done));
    }
  }

  lemma WithinPrefix(p: seq<byte>, body: seq<byte>, i: nat)
    requires p <= body && i <= |p|
    ensures body[..i] <= p && body[i..|p|] == p[i..] && (LineStart(p, i) ==> LineStart(body, i))
  {
  }

  lemma TailStart(body: seq<byte>) returns (i: nat)
    ensures i <= |body| && LineStart(body, i) && Tail(body) == body[i..] && NoNewline(body[i..])
  {
    i := TailIsSuffix(body);
    TailNoNewline(body);
  }

  /** The body in reads that break it at `j` and read as much as possible from there. */
  function BreakAt(body: seq<byte>, j: nat): seq<seq<byte>>
    requires j <= |body|
  {
    var e := Smaller(j + READ_SIZE, |body|);
    Chop(body[..j]) + ([body[j..e]] + Chop(body[e..]))
  }

  lemma ChopSizes(body: seq<byte>)
    ensures forall k :: 0 <= k < |Chop(body)| ==> |Chop(body)[k]| <= READ_SIZE
  {
    ChopReads(body, 0);
  }

  lemma BreakDelivers(body: seq<byte>, j: nat)
    requires j <= |body|
    ensures Delivers(BreakAt(body, j), body)
  {
    var e := Smaller(j + READ_SIZE, |body|);
    var front, back := Chop(body[..j]), Chop(body[e..]);
    ChopSizes(body[..j]);
    ChopSizes(body[e..]);
    ChopWhole(body[..j]);
    ChopWhole(body[e..]);
    ConcatAppend(front, [body[j..e]] + back);
    assert ([body[j..e]] + back)[1..] == back;
    assert body[..j] + (body[j..e] + body[e..]) == body;
  }

  lemma AcceptedBefore(chunks: seq<seq<byte>>, k: nat)
    requires k < |chunks| && Overflows(chunks, k)
    ensures Accepted(chunks) <= Concat(chunks[..k])
  {
    var n := AcceptedReads(chunks, 0);
    assert n <= k;
    assert chunks[..k][..n] == chunks[..n];
    ConcatPrefix(chunks[..k], n);
  }

  /** An unfinished line adds nothing to emit. */
  lemma UnfinishedIsSilent<T>(body: seq<byte>, i: nat, j: nat, meaning: seq<byte> -> Meaning<T>, done: seq<T>)
    requires i <= j <= |body| && LineStart(body, i) && NoNewline(body[i..j])
    ensures Simple(body[..j], meaning, done) == Simple(body[..i], meaning, done)
  {
    LinesUpTo(body, i, j);
  }

  lemma LinesUpTo(body: seq<byte>, i: nat, j: nat)
    requires i <= j <= |body| && LineStart(body, i) && NoNewline(body[i..j])
    ensures Lines(body[..j]) == Lines(body[..i]) && Tail(body[..j]) == body[i..j]
  {
    assert body[..j] == body[..i] + body[i..j];
    if i > 0 { assert body[..i][i - 1] == NEWLINE; }
    TailOfSplit(body[..i], body[i..j]);
  }

  lemma StrictPrefix<T>(a: seq<T>, b: seq<T>, c: seq<T>)
    requires a <= b <= c && b != c
    ensures a != c
  {
  }

  lemma NoRoomCutsOff<T(!new)>(body: seq<byte>, i: nat, j: nat, meaning: seq<byte> -> Meaning<T>, done: seq<T>)
    requires i <= j <= |body| && !LeavesRoom(body, i, j, meaning, done)
    ensures Simple(Accepted(BreakAt(body, j)), meaning, done) != Simple(body, meaning, done)
  {
    var chunks, k := BreakAt(body, j), |Chop(body[..j])|;
    BreakOverflows(body, i, j);
    AcceptedBefore(chunks, k);
    assert chunks[..k] == Chop(body[..j]);
    ChopWhole(body[..j]);
    PrefixSimple(Accepted(chunks), body[..j], meaning, done);
    PrefixSimple(body[..j], body, meaning, done);
    UnfinishedIsSilent(body, i, j, meaning, done);
    StrictPrefix(Simple(Accepted(chunks), meaning, done), Simple(body[..j], meaning, done), Simple(body, meaning, done));
  }

  lemma BreakOverflows(body: seq<byte>, i: nat, j: nat)
    requires i <= j <= |body| && LineStart(body, i) && NoNewline(body[i..j])
    requires Smaller(j + READ_SIZE, |body|) - i > MAX_LINE_SIZE
    ensures var k := |Chop(body[..j])|; k < |BreakAt(body, j)| && Overflows(BreakAt(body, j), k)
  {
    var chunks, k, e := BreakAt(body, j), |Chop(body[..j])|, Smaller(j + READ_SIZE, |body|);
    assert chunks[..k] == Chop(body[..j]) && chunks[k] == body[j..e];
    ChopWhole(body[..j]);
    LinesUpTo(body, i, j);
  }

  /** The exact condition. What is emitted does not depend on how the body is cut into reads
      if and only if every unfinished line that matters, from its beginning to any point
      within it, leaves room under the cap for the largest read that can follow. */
  lemma ChunkingIgnoredIff<T(!new)>(body: seq<byte>, meaning: seq<byte> -> Meaning<T>, done: seq<T>)
    ensures IgnoresChunking(body, meaning, done) <==> AlwaysRoom(body, meaning, done)
  {
    if AlwaysRoom(body, meaning, done) {
      forall chunks | Delivers(chunks, body)
        ensures Simple(Accepted(chunks), meaning, done) == Simple(body, meaning, done)
      {
        RoomSuffices(chunks, body, meaning, done);
      }
    } else {
      var i: nat, j: nat :| i <= j <= |body| && !LeavesRoom(body, i, j, meaning, done);
      BreakDelivers(body, j);
      NoRoomCutsOff(body, i, j, meaning, done);
    }
  }

  lemma ShortRunsLeaveRoom<T>(body: seq<byte>, meaning: seq<byte> -> Meaning<T>, done: seq<T>)
    requires RunsAtMost(body, MAX_LINE_SIZE - READ_SIZE)
    ensures AlwaysRoom(body, meaning, done)
  {
    forall i: nat, j: nat | i <= j <= |body| ensures LeavesRoom(body, i, j, meaning, done) {
      if NoNewline(body[i..j]) { assert j - i <= MAX_LINE_SIZE - READ_SIZE; }
    }
  }

  /** In particular: if no stretch without a newline is longer than 2^20 - 4096 bytes, every
      delivery parses to the simple form of the whole body and none is cut off. */
  lemma ChunkingDoesNotMatter<T(!new)>(chunks: seq<seq<byte>>, meaning: seq<byte> -> Meaning<T>, done: seq<T>, out: seq<T>, end: End)
    requires forall k :: 0 <= k < |chunks| ==> |chunks[k]| <= 4096
    requires RunsAtMost(Concat(chunks), 1_048_576 - 4096)
    requires Parses(chunks, meaning, done, None, true, out, end)
    ensures out == Simple(Concat(chunks), meaning, done) && end != Oversize
  {
    var body := Concat(chunks);
    ShortRunsLeaveRoom(body, meaning, done);
    ChunkingIgnoredIff(body, meaning, done);
    assert Delivers(chunks, body);
    forall k | 0 <= k < |chunks| ensures !Overflows(chunks, k) {
      ConcatPrefix(chunks, k);
      TailIsARun(Concat(chunks[..k]), body, MAX_LINE_SIZE - READ_SIZE);
    }
    assert AcceptedReads(chunks, 0) == |chunks|;
  }

  /** Near the cap the emitted items do depend on the chunking. Any payload line that with
      its newline is exactly 2^20 bytes, followed by one more byte, is emitted when the
      chunks end at its newline, and the stream is cut off before it when the chunks are
      shifted by one byte. */
  lemma ChunkingMattersAtTheCap<T>(line: seq<byte>, extra: byte, meaning: seq<byte> -> Meaning<T>, item: T)
    requires |line| == MAX_LINE_SIZE - 1 && NoNewline(line) && extra != NEWLINE
    requires meaning(line) == Item(item)
    ensures var body := line + [NEWLINE] + [extra];
            var aligned, shifted := Chop(body), [body[..1]] + Chop(body[1..]);
            && Concat(aligned) == body == Concat(shifted)
            && (forall j :: 0 <= j < |aligned| ==> |aligned[j]| <= READ_SIZE)
            && (forall j :: 0 <= j < |shifted| ==> |shifted[j]| <= READ_SIZE)
            && Simple(Accepted(aligned), meaning, []) == [item]
            && Simple(Accepted(shifted), meaning, []) == []
  {
    var body := line + [NEWLINE] + [extra];
    var aligned, shifted := Chop(body), [body[..1]] + Chop(body[1..]);
    ChopWhole(body);
    ChopWhole(body[1..]);
    assert shifted[1..] == Chop(body[1..]) && body[..1] + body[1..] == body;
    ChopReads(body, 0);
    ChopReads(body[1..], 0);
    AlignedAccepted(line, extra);
    LinesOfOne(line, extra);
    ItemsOfOne(line, meaning);
    ShiftedCutOff(line, extra);
  }

  /** The counterexample with the parsers' own line reader, for every decoder that accepts
      one particular JSON object: the line with the object is 2^20 - 1 bytes long. */
  lemma ReaderMattersAtTheCap<T>(decode: seq<byte> -> Option<T>, item: T)
    requires decode(LongObject()) == Some(item)
    ensures var body := DATA_PREFIX + LongObject() + [NEWLINE] + [COLON];
            && Delivers(Chop(body), body) && Delivers([body[..1]] + Chop(body[1..]), body)
            && Simple(Accepted(Chop(body)), Reader(decode), []) == [item]
            && Simple(Accepted([body[..1]] + Chop(body[1..])), Reader(decode), []) == []
  {
    var payload := LongObject();
    var line := DATA_PREFIX + payload;
    assert forall k :: 0 <= k < |line| ==> line[k] == if k < 6 then DATA_PREFIX[k] else payload[k - 6];
    Untrimmed(line);
    assert line[|DATA_PREFIX|..] == payload;
    assert payload != DONE;
    assert Reader(decode)(line) == Item(item);
    ChunkingMattersAtTheCap(line, COLON, Reader(decode), item);
  }

  /** A JSON object whose one field is a long string: {"id":"xx...x"}. */
  function LongObject(): (s: seq<byte>)
    ensures |s| == MAX_LINE_SIZE - 7 && NoNewline(s)
    ensures s[|s| - 3] == 'x' && s[|s| - 2] == QUOTE && s[|s| - 1] == '}'
  {
    ['{', QUOTE, 'i', 'd', QUOTE, COLON, QUOTE] + seq(MAX_LINE_SIZE - 16, _ => 'x') + [QUOTE, '}']
  }

  lemma Untrimmed(line: seq<byte>)
    requires |line| >= 3 && line[0] == 'd' && line[|line| - 3] == 'x' && line[|line| - 2] == QUOTE && line[|line| - 1] == '}'
    ensures TrimLeft(line) == line && TrimRight(line) == line
  {
    assert !StartsWithSpace(line, 1) && !StartsWithSpace(line, 2) && !StartsWithSpace(line, 3);
    assert !EndsWithSpace(line, 1) && !EndsWithSpace(line, 2) && !EndsWithSpace(line, 3);
  }

  lemma LinesOfOne(line: seq<byte>, extra: byte)
    requires NoNewline(line) && extra != NEWLINE
    ensures Lines(line + [NEWLINE] + [extra]) == [line]
  {
    var l := line + [NEWLINE];
    TailOfSplit(l, [extra]);
    IndexByteFirst(l, NEWLINE);
    var i := IndexByte(l, NEWLINE);
    assert l[|line|] == NEWLINE && forall k :: 0 <= k < |line| ==> l[k] == line[k];
    assert i == |line|;
    assert l[..i] == line && l[i + 1..] == [];
    LinesNoNewline([]);
  }

  lemma AlignedAccepted(line: seq<byte>, extra: byte)
    requires |line| == MAX_LINE_SIZE - 1 && NoNewline(line) && extra != NEWLINE
    ensures Accepted(Chop(line + [NEWLINE] + [extra])) == line + [NEWLINE] + [extra]
  {
    var body := line + [NEWLINE] + [extra];
    var chunks := Chop(body);
    ChopReads(body, 0);
    ChopWhole(body);
    forall k | 0 <= k < |chunks| ensures !Overflows(chunks, k) {
      ChopReads(body, k);
      if k <= 255 {
        assert body[..k * READ_SIZE] == line[..k * READ_SIZE];
        LinesNoNewline(body[..k * READ_SIZE]);
      } else {
        assert k == 256;
        assert body[..256 * READ_SIZE] == line + [NEWLINE];
        TailOfSplit(line + [NEWLINE], []);
        assert (line + [NEWLINE]) + [] == line + [NEWLINE];
      }
    }
    assert AcceptedReads(chunks, 0) == |chunks|;
    assert chunks[..|chunks|] == chunks;
  }

  lemma ShiftedCutOff(line: seq<byte>, extra: byte)
    requires |line| == MAX_LINE_SIZE - 1 && NoNewline(line) && extra != NEWLINE
    ensures var body := line + [NEWLINE] + [extra];
            Lines(Accepted([body[..1]] + Chop(body[1..]))) == []
  {
    var body := line + [NEWLINE] + [extra];
    var rest := body[1..];
    var chunks := [body[..1]] + Chop(rest);
    ChopReads(rest, 0);
    ChopReads(rest, 255);
    assert chunks[..256] == [body[..1]] + Chop(rest)[..255];
    assert chunks[..256][1..] == Chop(rest)[..255];
    var p := Concat(chunks[..256]);
    assert p == body[..1] + rest[..255 * READ_SIZE];
    assert p == line[..255 * READ_SIZE + 1];
    LinesNoNewline(p);
    assert chunks[256] == Chop(rest)[255];
    assert Overflows(chunks, 256);
    var n := AcceptedReads(chunks, 0);
    assert chunks[..256][..n] == chunks[..n];
    ConcatPrefix(chunks[..256], n);
    LinesNoNewline(Accepted(chunks));
  }
}
