/**
 * The chat service's deterministic work around the model calls: mapping chat history to the
 * request's contents, accumulating the streamed reply, separating the reply's follow-up
 * suggestions (after a `|||` delimiter) from its display text, and post-processing the title and
 * starter-question replies. The network calls themselves are inputs: the stream is given as its
 * sequence of chunks, a one-shot reply as its outcome.
 */
module Gemini {
  import opened Wrappers
  import opened Seqs
  import opened Strings
  import opened Types

  datatype Part = TextPart(text: string) | InlineData(mimeType: string, data: string)

  /** One entry of the request: the API role name and the parts. */
  datatype Content = Content(role: string, parts: seq<Part>)

  const Delimiter: string := "|||"
  const MissingKeyError: string := "API Key not found"
  const TitlePrompt: string :=
    "Generate a short, scientific, 3-5 word title for this conversation. Return ONLY the title text, nothing else."
  const DefaultTitle: string := "New Investigation"
  const FallbackTitle: string := "Scientific Investigation"

  // ------------------------------------------------------------------
  // History to request contents

  function RoleName(role: Role): string { if role == User then "user" else "model" }

  function AttachmentParts(atts: seq<Attachment>): (r: seq<Part>)
    ensures |r| == |atts|
    ensures forall k :: 0 <= k < |r| ==> r[k] == InlineData(atts[k].mimeType, atts[k].data)
  {
    seq(|atts|, k requires 0 <= k < |atts| => InlineData(atts[k].mimeType, atts[k].data))
  }

  function AttachmentsOf(msg: Message): seq<Attachment> {
    if msg.attachments.Some? then msg.attachments.value else []
  }

  /** A message's parts: its text (only when non-empty), then one inline part per attachment, in order. */
  function MessageParts(msg: Message): seq<Part> {
    (if msg.text != "" then [TextPart(msg.text)] else []) + AttachmentParts(AttachmentsOf(msg))
  }

  /** The request entries for a history: one per message, in order. */
  function MapMessagesToContent(messages: seq<Message>): (r: seq<Content>)
    ensures |r| == |messages|
    ensures forall k :: 0 <= k < |r| ==> r[k] == Content(RoleName(messages[k].role), MessageParts(messages[k]))
  {
    seq(|messages|, k requires 0 <= k < |messages| => Content(RoleName(messages[k].role), MessageParts(messages[k])))
  }

  /** The parts-building loop for one message. */
  method BuildParts(msg: Message) returns (parts: seq<Part>)
    ensures parts == MessageParts(msg)
  {
    parts := [];
    if msg.text != "" {
      parts := parts + [TextPart(msg.text)];
    }
    if msg.attachments.Some? && |msg.attachments.value| > 0 {
      var atts := msg.attachments.value;
      ghost var head := parts;
      var k := 0;
      while k < |atts|
        invariant 0 <= k <= |atts|
        invariant parts == head + AttachmentParts(atts[..k])
      {
        assert AttachmentParts(atts[..k + 1]) == AttachmentParts(atts[..k]) + [InlineData(atts[k].mimeType, atts[k].data)];
        parts := parts + [InlineData(atts[k].mimeType, atts[k].data)];
        k := k + 1;
      }
      assert atts[..k] == atts;
    }
  }

  /** Reading a message back from its parts: the text (empty when absent) and the attachments. */
  function DecodeParts(parts: seq<Part>): (string, seq<Attachment>)
  {
    var text := if parts != [] && parts[0].TextPart? then parts[0].text else "";
    var rest := if parts != [] && parts[0].TextPart? then parts[1..] else parts;
    (text, seq(|rest|, k requires 0 <= k < |rest| =>
       if rest[k].InlineData? then Attachment(rest[k].mimeType, rest[k].data) else Attachment("", "")))
  }

  /** An entry keeps the message's text and all its attachments in order; the role is `user` exactly for user messages. */
  lemma PartsRoundTrip(msg: Message)
    ensures DecodeParts(MessageParts(msg)) == (msg.text, AttachmentsOf(msg))
    ensures RoleName(msg.role) == "user" <==> msg.role == User
  {
    var atts := AttachmentsOf(msg);
    var parts := MessageParts(msg);
    if msg.text != "" {
      assert parts[0] == TextPart(msg.text);
      assert parts[1..] == AttachmentParts(atts);
    } else {
      assert parts == AttachmentParts(atts);
    }
    var rest := if msg.text != "" then parts[1..] else parts;
    var decoded := DecodeParts(parts).1;
    assert |decoded| == |atts|;
    forall k | 0 <= k < |atts|
      ensures decoded[k] == atts[k]
    {
      assert rest[k] == InlineData(atts[k].mimeType, atts[k].data);
    }
    assert decoded == atts;
    if msg.text == "" && parts != [] {
      assert parts[0] == InlineData(atts[0].mimeType, atts[0].data);
    }
    assert DecodeParts(parts).0 == msg.text;
  }

  /** The turn being sent: always a text part first (even when empty), then the attachments. */
  function NewTurn(text: string, atts: seq<Attachment>): Content {
    Content("user", [TextPart(text)] + AttachmentParts(atts))
  }

  /** The request: the history's entries, then the new turn last. */
  function RequestContents(history: seq<Message>, text: string, atts: seq<Attachment>): (r: seq<Content>)
    ensures |r| == |history| + 1
    ensures r[..|history|] == MapMessagesToContent(history)
    ensures |r[|history|].parts| == 1 + |atts|
    ensures r[|history|].role == "user" && r[|history|].parts[0] == TextPart(text)
    ensures r[|history|].parts[1..] == AttachmentParts(atts)
  {
    MapMessagesToContent(history) + [NewTurn(text, atts)]
  }

  /** The request-building code: map the history, build the new turn's parts, push it. */
  method BuildRequest(history: seq<Message>, text: string, atts: seq<Attachment>) returns (contents: seq<Content>)
    ensures contents == RequestContents(history, text, atts)
  {
    contents := MapMessagesToContent(history);
    var newParts := [TextPart(text)];
    var k := 0;
    while k < |atts|
      invariant 0 <= k <= |atts|
      invariant newParts == [TextPart(text)] + AttachmentParts(atts[..k])
    {
      assert AttachmentParts(atts[..k + 1]) == AttachmentParts(atts[..k]) + [InlineData(atts[k].mimeType, atts[k].data)];
      newParts := newParts + [InlineData(atts[k].mimeType, atts[k].data)];
      k := k + 1;
    }
    assert atts[..k] == atts;
    contents := contents + [Content("user", newParts)];
  }

  // ------------------------------------------------------------------
  // Display text and suggestions

  /** The text before the first delimiter (`split("|||")[0]`). */
  function BeforeDelimiter(s: string): string
    requires Contains(s, Delimiter)
  {
    s[..IndexOf(s, Delimiter).value]
  }

  /** The segment between the first and second delimiter, or to the end (`split("|||")[1]`). */
  function SuggestionBlock(s: string): string
    requires Contains(s, Delimiter)
  {
    var rest := s[IndexOf(s, Delimiter).value + |Delimiter|..];
    match IndexOf(rest, Delimiter)
    case Some(j) => rest[..j]
    case None => rest
  }

  /** What the bubble shows: the trimmed text before the delimiter, or the whole text when there is none. */
  function DisplayText(fullText: string): string {
    if Contains(fullText, Delimiter) then Trim(BeforeDelimiter(fullText)) else fullText
  }

  /** The suggestions parsed from a text: up to 3 non-blank lines of its suggestion block, or none. */
  function SuggestionsOf(fullText: string): (r: seq<string>)
    ensures |r| <= 3
    ensures forall k :: 0 <= k < |r| ==> IsNonBlank(r[k]) && '\n' !in r[k]
  {
    if Contains(fullText, Delimiter) then Take(NonBlankLines(SuggestionBlock(fullText)), 3) else []
  }

  /** An empty suggestion list is passed on as absent. */
  function AsOptional(s: seq<string>): (r: Option<seq<string>>)
    ensures r.None? <==> s == []
    ensures r.Some? ==> r.value == s
  {
    if |s| > 0 then Some(s) else None
  }

  /** A text with no delimiter keeps none in any slice of it. */
  lemma NoDelimiterInSlice(s: string, i: nat, j: nat)
    requires i <= j <= |s| && !Contains(s, Delimiter)
    ensures !Contains(s[i..j], Delimiter)
  {
    if Contains(s[i..j], Delimiter) {
      ContainsInSlice(s, i, j, Delimiter);
    }
  }

  /** The display text never shows the delimiter. */
  lemma DisplayHidesDelimiter(fullText: string)
    ensures !Contains(DisplayText(fullText), Delimiter) || !Contains(fullText, Delimiter)
  {
    if Contains(fullText, Delimiter) {
      var before := BeforeDelimiter(fullText);
      NoneBeforeFirst(fullText, Delimiter);
      TrimProperties(before);
      var a, b :| 0 <= a <= b <= |before| && Trim(before) == before[a..b];
      NoDelimiterInSlice(before, a, b);
    }
  }

  /**
   * A reply written as body, delimiter, suggestion block splits back into the trimmed body and the
   * block's first three non-blank lines, when neither part holds a delimiter of its own.
   */
  lemma DelimitedReply(body: string, block: string)
    requires !Contains(body, Delimiter) && !Contains(block, Delimiter)
    requires body == [] || body[|body| - 1] != '|'
    ensures var s := body + Delimiter + block;
      && Contains(s, Delimiter)
      && DisplayText(s) == Trim(body)
      && SuggestionsOf(s) == Take(NonBlankLines(block), 3)
  {
    var s := body + Delimiter + block;
    var n := |body|;
    assert s[n..n + 3] == Delimiter;
    forall j | 0 <= j < n
      ensures !StartsWith(s[j..], Delimiter)
    {
      NoDelimiterBefore(body, Delimiter + block, j);
    }
    IndexOfIs(s, Delimiter, n);
    ContainsAt(s, Delimiter, n);
    assert s[..n] == body;
    assert s[n + 3..] == block;
  }

  /** No delimiter starts inside a body that holds none and does not end with a bar. */
  lemma NoDelimiterBefore(body: string, rest: string, j: nat)
    requires !Contains(body, Delimiter)
    requires body == [] || body[|body| - 1] != '|'
    requires j < |body|
    ensures !StartsWith((body + rest)[j..], Delimiter)
  {
    var s := body + rest;
    var n := |body|;
    if j + 3 <= n {
      assert body[j..j + 3] == s[j..j + 3];
      if body[j..j + 3] == Delimiter {
        ContainsAt(body, Delimiter, j);
      }
    } else {
      assert s[j..][n - 1 - j] == body[n - 1];
    }
  }

  /** Suggestion lines written one per line come back exactly, up to three. */
  lemma SuggestionLinesRoundTrip(lines: seq<string>)
    requires 1 <= |lines| <= 3
    requires forall k :: 0 <= k < |lines| ==> IsNonBlank(lines[k]) && '\n' !in lines[k]
    ensures Take(NonBlankLines(Join(lines, '\n')), 3) == lines
  {
    SplitJoin(lines, '\n');
    FilterAll(lines, IsNonBlank);
  }

  // ------------------------------------------------------------------
  // The reply stream

  /** One streamed chunk: its text (empty when absent) and the grounding metadata it carries, if any. */
  datatype Chunk = Chunk(text: string, metadata: Option<GroundingMetadata>)

  /** One call of the caller's update callback. */
  datatype Update = Update(displayText: string, metadata: Option<GroundingMetadata>, suggestions: Option<seq<string>>)

  /** The in-order concatenation of the chunk texts. */
  function FullText(chunks: seq<Chunk>): string
    decreases |chunks|
  {
    if chunks == [] then "" else FullText(chunks[..|chunks| - 1]) + chunks[|chunks| - 1].text
  }

  /** The metadata of the last non-empty chunk that carried some. */
  function LastMetadata(chunks: seq<Chunk>): Option<GroundingMetadata>
    decreases |chunks|
  {
    if chunks == [] then None
    else
      var c := chunks[|chunks| - 1];
      if c.text != "" && c.metadata.Some? then c.metadata else LastMetadata(chunks[..|chunks| - 1])
  }

  function NonEmptyCount(chunks: seq<Chunk>): nat
    decreases |chunks|
  {
    if chunks == [] then 0
    else NonEmptyCount(chunks[..|chunks| - 1]) + (if chunks[|chunks| - 1].text != "" then 1 else 0)
  }

  /** The update sent after the chunks so far, when the last of them was non-empty. */
  function UpdateAfter(chunks: seq<Chunk>): Update {
    var full := FullText(chunks);
    Update(DisplayText(full), LastMetadata(chunks), AsOptional(SuggestionsOf(full)))
  }

  /** Every update of a stream: one per non-empty chunk, each describing the text received so far. */
  function Updates(chunks: seq<Chunk>): (r: seq<Update>)
    ensures |r| == NonEmptyCount(chunks)
    decreases |chunks|
  {
    if chunks == [] then []
    else
      Updates(chunks[..|chunks| - 1]) + (if chunks[|chunks| - 1].text != "" then [UpdateAfter(chunks)] else [])
  }

  /** The stream loop: append each non-empty chunk, keep the latest metadata, re-split, notify. */
  method Stream(chunks: seq<Chunk>) returns (fullText: string, updates: seq<Update>)
    ensures fullText == FullText(chunks)
    ensures updates == Updates(chunks)
  {
    fullText := "";
    var finalMetadata: Option<GroundingMetadata> := None;
    var suggestions: seq<string> := [];
    updates := [];
    var i := 0;
    while i < |chunks|
      invariant 0 <= i <= |chunks|
      invariant fullText == FullText(chunks[..i])
      invariant finalMetadata == LastMetadata(chunks[..i])
      invariant updates == Updates(chunks[..i])
      invariant suggestions == SuggestionsOf(fullText)
    {
      var chunk := chunks[i];
      StreamPrefix(chunks, i);
      if chunk.text != "" {
        var before := fullText;
        fullText := fullText + chunk.text;
        if chunk.metadata.Some? {
          finalMetadata := chunk.metadata;
        }
        var displayText := fullText;
        if Contains(fullText, Delimiter) {
          displayText := Trim(BeforeDelimiter(fullText));
          suggestions := Take(NonBlankLines(SuggestionBlock(fullText)), 3);
        } else if Contains(before, Delimiter) {
          ContainsExtend(before, chunk.text, Delimiter);
        }
        updates := updates + [Update(displayText, finalMetadata, AsOptional(suggestions))];
      }
      i := i + 1;
    }
    assert chunks[..i] == chunks;
  }

  /** The stream's state after one more chunk, in terms of the state before it. */
  lemma StreamPrefix(chunks: seq<Chunk>, i: nat)
    requires i < |chunks|
    ensures var p, c := chunks[..i + 1], chunks[i];
      && FullText(p) == FullText(chunks[..i]) + c.text
      && LastMetadata(p) == (if c.text != "" && c.metadata.Some? then c.metadata else LastMetadata(chunks[..i]))
      && Updates(p) == Updates(chunks[..i]) + (if c.text != "" then [UpdateAfter(p)] else [])
  {
    assert chunks[..i + 1][..i] == chunks[..i];
  }

  /** Empty chunks change nothing: they add no text and no update. */
  lemma EmptyChunkIgnored(chunks: seq<Chunk>, c: Chunk)
    requires c.text == ""
    ensures FullText(chunks + [c]) == FullText(chunks)
    ensures Updates(chunks + [c]) == Updates(chunks)
    ensures LastMetadata(chunks + [c]) == LastMetadata(chunks)
  {
    assert (chunks + [c])[..|chunks|] == chunks;
  }

  /** Once the delimiter has arrived, later chunks never bring the whole text back into the display. */
  lemma DelimiterPersists(chunks: seq<Chunk>, more: seq<Chunk>)
    requires Contains(FullText(chunks), Delimiter)
    ensures Contains(FullText(chunks + more), Delimiter)
    decreases |more|
  {
    FullTextAppend(chunks, more);
    ContainsExtend(FullText(chunks), FullText(more), Delimiter);
  }

  /** The text of a concatenation of chunk runs is the concatenation of their texts. */
  lemma {:induction false} FullTextAppend(a: seq<Chunk>, b: seq<Chunk>)
    ensures FullText(a + b) == FullText(a) + FullText(b)
    decreases |b|
  {
    if b == [] {
      assert a + b == a;
    } else {
      var init := b[..|b| - 1];
      FullTextAppend(a, init);
      assert (a + b)[..|a + b| - 1] == a + init;
      assert (a + b)[|a + b| - 1] == b[|b| - 1];
    }
  }

  /**
   * The outcome of a send: refused for a missing key, streamed to the end, or broken off after
   * some chunks (the call throws), each with the request and the updates sent before the end.
   */
  datatype SendOutcome =
    | MissingKey(message: string)
    | Streamed(request: seq<Content>, fullText: string, updates: seq<Update>)
    | Failed(request: seq<Content>, partialText: string, updates: seq<Update>)

  /**
   * The whole send, with the key's presence and the reply stream as inputs: `chunks` are the
   * chunks that arrive, and `broken` says whether the call then throws instead of finishing.
   */
  method SendMessage(hasKey: bool, history: seq<Message>, text: string, atts: seq<Attachment>,
                     chunks: seq<Chunk>, broken: bool)
      returns (outcome: SendOutcome)
    ensures !hasKey <==> outcome == MissingKey(MissingKeyError)
    ensures hasKey && !broken ==> outcome == Streamed(RequestContents(history, text, atts), FullText(chunks), Updates(chunks))
    ensures hasKey && broken ==> outcome == Failed(RequestContents(history, text, atts), FullText(chunks), Updates(chunks))
  {
    if !hasKey {
      return MissingKey(MissingKeyError);
    }
    var contents := BuildRequest(history, text, atts);
    var fullText, updates := Stream(chunks);
    if broken {
      outcome := Failed(contents, fullText, updates);
    } else {
      outcome := Streamed(contents, fullText, updates);
    }
  }

  /**
   * The last update of a stream shows the display text of everything received, and there is no
   * update exactly when nothing non-empty arrived.
   */
  lemma {:induction false} LastUpdateShowsText(chunks: seq<Chunk>)
    ensures Updates(chunks) == [] <==> FullText(chunks) == ""
    ensures Updates(chunks) != [] ==> Updates(chunks)[|Updates(chunks)| - 1].displayText == DisplayText(FullText(chunks))
    decreases |chunks|
  {
    if chunks != [] {
      var init, last := chunks[..|chunks| - 1], chunks[|chunks| - 1];
      LastUpdateShowsText(init);
      assert FullText(chunks) == FullText(init) + last.text;
      if last.text != "" {
        assert Updates(chunks) == Updates(init) + [UpdateAfter(chunks)];
      } else {
        assert Updates(chunks) == Updates(init);
        assert FullText(chunks) == FullText(init);
      }
    }
  }

  // ------------------------------------------------------------------
  // Title and starter questions

  /** The outcome of a one-shot call: it failed, or it replied with text that may be absent. */
  datatype Reply = CallFailed | Replied(text: Option<string>)

  /** The title request: the last four messages' entries, then the title instruction. */
  function TitleRequest(history: seq<Message>): (r: seq<Content>)
    ensures |r| == (if |history| <= 4 then |history| else 4) + 1
    ensures r[..|r| - 1] == MapMessagesToContent(TakeLast(history, 4))
    ensures r[|r| - 1] == Content("user", [TextPart(TitlePrompt)])
  {
    MapMessagesToContent(TakeLast(history, 4)) + [Content("user", [TextPart(TitlePrompt)])]
  }

  /** The title: the trimmed reply, or a fixed fallback when the key is missing, the call fails or the reply is blank. */
  function ChatTitle(hasKey: bool, reply: Reply): (r: string)
    ensures r != ""
    ensures !hasKey ==> r == DefaultTitle
    ensures hasKey && reply.Replied? && reply.text.Some? && IsNonBlank(reply.text.value) ==> r == Trim(reply.text.value)
    ensures hasKey && !(reply.Replied? && reply.text.Some? && IsNonBlank(reply.text.value)) ==> r == FallbackTitle
  {
    if !hasKey then DefaultTitle
    else match reply
      case CallFailed => FallbackTitle
      case Replied(text) =>
        if text.Some? && Trim(text.value) != "" then Trim(text.value) else FallbackTitle
  }

  /** Starter questions: the first (at most four) non-blank reply lines, in order; none without a key, reply or success. */
  function InitialSuggestions(hasKey: bool, reply: Reply): (r: seq<string>)
    ensures |r| <= 4
    ensures forall k :: 0 <= k < |r| ==> IsNonBlank(r[k]) && '\n' !in r[k]
    ensures !hasKey || reply.CallFailed? || reply == Replied(None) ==> r == []
    ensures hasKey && reply.Replied? && reply.text.Some? ==>
      var lines := NonBlankLines(reply.text.value);
      && |r| == (if |lines| <= 4 then |lines| else 4)
      && r == lines[..|r|]
      && forall k :: 0 <= k < |r| ==> r[k] in Split(reply.text.value, '\n')
  {
    if !hasKey then []
    else match reply
      case CallFailed => []
      case Replied(None) => []
      case Replied(Some(t)) =>
        var lines := NonBlankLines(t);
        var r := Take(lines, 4);
        assert forall k :: 0 <= k < |r| ==> r[k] in lines by {
          forall k | 0 <= k < |r| ensures r[k] in lines { assert r[k] == lines[k]; }
        }
        r
  }
}
