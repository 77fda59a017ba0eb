/**
 Decoding what was encoded. For the content the two directions share, the
 decoder gives back a normal form of the blocks (results first, refusals and
 foreign reasoning as text); applying the round trip again changes nothing
 exactly when the first trip has neither produced several plain texts, which the
 string form joins, nor an empty one, which the array form drops.
 */
module AnthropicNormal {
  import opened Wrappers
  import opened Sequences
  import opened AnthropicModel
  import opened AnthropicEncode
  import opened AnthropicDecode

  // ---- the encoder's output as the decoder's input ----

  /** The JSON objects among the argument texts, by their outer braces. */
  predicate IsObjectText(s: string) {
    |s| >= 2 && s[0] == '{' && s[|s| - 1] == '}'
  }

  function InputOf(s: string): Input {
    if s == "" || s == "null" then NoInput
    else if IsObjectText(s) then ObjectInput(s)
    else OtherInput
  }

  function OnWire(content: WireContent): Content {
    match content
    case WNil => CNil
    case WString(s) => CString(s)
    case WBlocks(blocks) => CParts(PartsOf(blocks))
  }

  function PartsOf(blocks: seq<WireBlock>): seq<Part> {
    if blocks == [] then [] else [PartOf(blocks[0])] + PartsOf(blocks[1..])
  }

  function PartOf(w: WireBlock): Part {
    match w
    case WText(text, cache, citations) => PText(text, cache, citations)
    case WImage(image, cache) => PImage(Some(image), cache)
    case WDocument(source, title, cache) =>
      PDocument(match source case OpaqueDocument(id) => OpaqueSource(id) case TextDocument(text) => TextSource(text),
                if title.Some? then title.value else "", cache)
    case WToolUse(id, name, input, cache) => PToolUse(id, name, InputOf(input), cache)
    case WToolResult(toolUseID, content, isError, cache) =>
      PToolResult(toolUseID, OnWire(content), isError, cache)
    case WThinking(thinking, signature) => PThinking(thinking, signature)
    case WRedactedThinking(data) => PRedactedThinking(data)
  }

  // ---- the normal form ----

  function NormalText(text: string, cache: Option<CacheControl>, citations: seq<Citation>): seq<Block> {
    if text == "" then [] else [Text(text, cache, Filter(IsAnthropicCitation, citations))]
  }

  function NormalImage(image: Image, cache: Option<CacheControl>): seq<Block> {
    if image.fileID != "" then [ImageBlock(Image("", image.fileID, "", "", ""), cache)]
    else if image.data != "" then
      if image.mediaType in {"image/png", "image/jpeg", "image/gif", "image/webp"}
      then [ImageBlock(Image("", "", image.data, image.mediaType, ""), cache)] else []
    else if image.url != "" then [ImageBlock(Image(image.url, "", "", "", ""), cache)]
    else []
  }

  /** A text document becomes its text; another one keeps a title that fits. */
  function NormalDocument(source: Option<Document>, filename: string, cache: Option<CacheControl>): seq<Block> {
    match source
    case None => []
    case Some(TextDocument(text)) => [Text(text, cache, [])]
    case Some(OpaqueDocument(_)) =>
      [FileBlock(source, if |filename| <= 500 then filename else "", cache)]
  }

  function NormalReasoning(r: Reasoning): seq<Block> {
    if r.signature != "" || r.provider == Anthropic then
      [ReasoningBlock(Reasoning(r.text, [], r.signature, "", Anthropic), None)]
    else if r.text != "" then [Text(r.text, None, [])]
    else if |r.summary| > 0 then [Text(Join(r.summary, ""), None, [])]
    else []
  }

  /** One part of a structured tool result: media lose their breakpoint and title. */
  function NormalResultPart(b: Block): seq<Block> {
    match b
    case Text(text, cache, citations) => NormalText(text, cache, citations)
    case ImageBlock(image, _) => NormalImage(image, None)
    case FileBlock(source, _, _) => NormalDocument(source, "", None)
    case _ => []
  }

  function NormalResultParts(blocks: seq<Block>): seq<Block> {
    if blocks == [] then [] else NormalResultPart(blocks[0]) + NormalResultParts(blocks[1..])
  }

  /** Plain texts become one text, or none. */
  function Joined(blocks: seq<Block>): seq<Block>
    requires AllPlainText(blocks)
  {
    if PlainConcat(blocks) == "" then [] else [Text(PlainConcat(blocks), None, [])]
  }

  function NormalResult(content: seq<Block>): seq<Block> {
    if AllPlainText(content) then Joined(content) else NormalResultParts(content)
  }

  function NormalBlock(b: Block): seq<Block> {
    match b
    case Text(text, cache, citations) => NormalText(text, cache, citations)
    case ImageBlock(image, cache) => NormalImage(image, cache)
    case FileBlock(source, filename, cache) => NormalDocument(source, filename, cache)
    case Audio(_, _) => []
    case ToolCall(id, name, arguments, cache) =>
      [ToolCall(id, name, if arguments == "" then EMPTY_OBJECT else arguments, cache)]
    case ToolResult(callID, content, isError, cache) =>
      [ToolResult(callID, NormalResult(content), isError, cache)]
    case ReasoningBlock(r, _) => NormalReasoning(r)
    case RedactedReasoning(r, _) =>
      if r.provider == Anthropic && r.encrypted != ""
      then [RedactedReasoning(Reasoning("", [], "", r.encrypted, Anthropic), None)] else []
    case Refusal(refusal, cache) => if refusal == "" then [] else [Text(refusal, cache, [])]
  }

  function NormalBlocks(blocks: seq<Block>): seq<Block> {
    if blocks == [] then [] else NormalBlock(blocks[0]) + NormalBlocks(blocks[1..])
  }

  /** The results-first form. */
  function Normal(blocks: seq<Block>): seq<Block> {
    if AllPlainText(blocks) then Joined(blocks)
    else NormalBlocks(Filter(IsCanonicalResult, blocks)) + NormalBlocks(Filter(IsCanonicalOther, blocks))
  }

  // ---- decoding an encoded conversation ----

  /** Canonical images are never inline in their URL: every decoder takes those apart. */
  predicate CoveredMedia(b: Block) {
    b.ImageBlock? ==> SplitDataURL(b.image.url).None?
  }

  predicate Covered(b: Block) {
    && CoveredMedia(b)
    && (b.ToolCall? ==> b.id != "" && (b.arguments == "" || IsObjectText(b.arguments)))
    && (b.ToolResult? ==> forall p :: p in b.content ==> CoveredMedia(p))
  }

  predicate AllCovered(blocks: seq<Block>) {
    forall b :: b in blocks ==> Covered(b)
  }

  /** The ids of the tool calls at the top level of a message. */
  function OwnCalls(blocks: seq<Block>): seq<string> {
    if blocks == [] then []
    else (if blocks[0].ToolCall? then [blocks[0].id] else []) + OwnCalls(blocks[1..])
  }

  /** A part of a tool result decodes to its normal form and holds no ids. */
  lemma {:induction false} ResultPartDecodes(b: Block, i: nat, ids: IDs)
    requires CoveredMedia(b)
    ensures |RenderResultPart(b)| <= 1
    ensures RenderResultPart(b) == [] ==> NormalResultPart(b) == []
    ensures RenderResultPart(b) != [] ==>
              var p := PartOf(RenderResultPart(b)[0]);
              ExplicitInPart(p) == [] && DecodePart(p, i, ids) == Ok((NormalResultPart(b), ids))
  {
  }

  /** Prepending what one block rendered to: nothing, or one part. */
  lemma {:induction false} PartsOfSplit(ws: seq<WireBlock>, rest: seq<WireBlock>)
    requires |ws| <= 1
    ensures ws == [] ==> PartsOf(ws + rest) == PartsOf(rest)
    ensures ws != [] ==> PartsOf(ws + rest) == [PartOf(ws[0])] + PartsOf(rest)
  {
    if ws == [] {
      assert ws + rest == rest;
    } else {
      assert (ws + rest)[1..] == rest;
    }
  }

  lemma {:induction false} ResultPartsDecode(blocks: seq<Block>, i: nat, ids: IDs)
    requires forall b :: b in blocks ==> CoveredMedia(b)
    ensures ExplicitInParts(PartsOf(RenderResultParts(blocks))) == []
    ensures DecodeParts(PartsOf(RenderResultParts(blocks)), i, ids) == Ok((NormalResultParts(blocks), ids))
    decreases blocks
  {
    if blocks != [] {
      var b, rest := blocks[0], blocks[1..];
      ResultPartDecodes(b, i, ids);
      var head := RenderResultPart(b);
      PartsOfSplit(head, RenderResultParts(rest));
      if head == [] {
        ResultPartsDecode(rest, i, ids);
        assert NormalResultParts(blocks) == NormalResultParts(rest);
      } else {
        ResultPartsDecode(rest, i + 1, ids);
        ConsDecodes(PartOf(head[0]), PartsOf(RenderResultParts(rest)), i, ids);
      }
    }
  }

  lemma {:induction false} ConsDecodes(p: Part, rest: seq<Part>, i: nat, ids: IDs)
    ensures ExplicitInParts([p] + rest) == ExplicitInPart(p) + ExplicitInParts(rest)
    ensures DecodePart(p, i, ids).Ok? ==>
              var head := DecodePart(p, i, ids).value;
              var tail := DecodeParts(rest, i + 1, head.1);
              DecodeParts([p] + rest, i, ids) ==
              if tail.Ok? then Ok((head.0 + tail.value.0, tail.value.1)) else tail
  {
    assert ([p] + rest)[1..] == rest && ([p] + rest)[0] == p;
  }

  lemma {:induction false} ToolResultDecodes(content: seq<Block>, ids: IDs)
    requires forall p :: p in content ==> CoveredMedia(p)
    ensures ExplicitIDs(OnWire(ToolResultContent(content))) == []
    ensures Decode(OnWire(ToolResultContent(content)), ids) == Ok((NormalResult(content), ids))
  {
    if content != [] && !AllPlainText(content) {
      ResultPartsDecode(content, 0, ids);
    }
  }

  /** The namespace after the explicit ids of a tree were consumed. */
  function Consumed(ids: IDs, used: seq<string>): IDs {
    ids.(pre := ids.pre - Elements(used))
  }

  function OwnCall(b: Block): seq<string> {
    if b.ToolCall? then [b.id] else []
  }

  lemma {:induction false} DocumentDecodes(source: Document, filename: string, cache: Option<CacheControl>, i: nat,
                                           ids: IDs)
    ensures DecodePart(PartOf(WDocument(source, DocumentTitle(filename), cache)), i, ids)
            == Ok((NormalDocument(Some(source), filename, cache), ids))
  {
    match source {
      case OpaqueDocument(_) =>
        var title := if |filename| <= 500 then filename else "";
        assert CacheLast([FileBlock(Some(source), title, None)], cache) == [FileBlock(Some(source), title, cache)];
      case TextDocument(text) =>
        assert CacheLast([Text(text, None, [])], cache) == [Text(text, cache, [])];
    }
  }

  /** A block that is no call, no result and no document. */
  lemma {:induction false} PlainBlockDecodes(b: Block, i: nat, ids: IDs)
    requires CoveredMedia(b) && !b.ToolCall? && !b.ToolResult? && !b.FileBlock?
    ensures |RenderBlock(b)| <= 1
    ensures RenderBlock(b) == [] ==> NormalBlock(b) == []
    ensures RenderBlock(b) != [] ==>
              var p := PartOf(RenderBlock(b)[0]);
              ExplicitInPart(p) == [] && DecodePart(p, i, ids) == Ok((NormalBlock(b), ids))
  {
  }

  lemma {:induction false} BlockDecodes(b: Block, i: nat, ids: IDs)
    requires Covered(b) && Ready(OwnCall(b), ids)
    ensures |RenderBlock(b)| <= 1
    ensures RenderBlock(b) == [] ==> NormalBlock(b) == [] && OwnCall(b) == []
    ensures RenderBlock(b) != [] ==>
              var p := PartOf(RenderBlock(b)[0]);
              ExplicitInPart(p) == OwnCall(b)
              && DecodePart(p, i, ids) == Ok((NormalBlock(b), Consumed(ids, OwnCall(b))))
  {
    assert ids.pre - Elements([]) == ids.pre;
    if b.ToolResult? {
      ToolResultDecodes(b.content, ids);
    } else if b.FileBlock? {
      if b.source.Some? {
        DocumentDecodes(b.source.value, b.filename, b.cache, i, ids);
      }
    } else if b.ToolCall? {
      assert Elements([b.id]) == {b.id};
    } else {
      PlainBlockDecodes(b, i, ids);
    }
  }

  lemma {:induction false} BlocksDecode(blocks: seq<Block>, i: nat, ids: IDs)
    requires AllCovered(blocks) && Ready(OwnCalls(blocks), ids)
    ensures ExplicitInParts(PartsOf(RenderAll(blocks))) == OwnCalls(blocks)
    ensures DecodeParts(PartsOf(RenderAll(blocks)), i, ids)
            == Ok((NormalBlocks(blocks), Consumed(ids, OwnCalls(blocks))))
    decreases blocks
  {
    assert ids.pre - Elements([]) == ids.pre;
    if blocks != [] {
      var b, rest := blocks[0], blocks[1..];
      DistinctAppend(OwnCall(b), OwnCalls(rest));
      BlockDecodes(b, i, ids);
      var head := RenderBlock(b);
      PartsOfSplit(head, RenderAll(rest));
      var after := Consumed(ids, OwnCall(b));
      assert Consumed(after, OwnCalls(rest)) == Consumed(ids, OwnCalls(blocks));
      if head == [] {
        assert after == ids;
        BlocksDecode(rest, i, ids);
        assert NormalBlocks(blocks) == NormalBlocks(rest);
      } else {
        BlocksDecode(rest, i + 1, after);
        ConsDecodes(PartOf(head[0]), PartsOf(RenderAll(rest)), i, ids);
      }
    }
  }

  lemma {:induction false} OwnCallsAppend(a: seq<Block>, b: seq<Block>)
    ensures OwnCalls(a + b) == OwnCalls(a) + OwnCalls(b)
  {
    if a == [] {
      assert a + b == b;
    } else {
      OwnCallsAppend(a[1..], b);
      assert (a + b)[1..] == a[1..] + b && (a + b)[0] == a[0];
      SeqAssociative(OwnCall(a[0]), OwnCalls(a[1..]), OwnCalls(b));
    }
  }

  lemma {:induction false} NormalIsMap(blocks: seq<Block>)
    ensures NormalBlocks(blocks) == FlatMap(NormalBlock, blocks)
  {
    if blocks != [] {
      NormalIsMap(blocks[1..]);
    }
  }

  lemma {:induction false} NormalBlocksAppend(a: seq<Block>, b: seq<Block>)
    ensures NormalBlocks(a + b) == NormalBlocks(a) + NormalBlocks(b)
    ensures OwnCalls(a + b) == OwnCalls(a) + OwnCalls(b)
  {
    NormalIsMap(a);
    NormalIsMap(b);
    NormalIsMap(a + b);
    FlatMapAppend(NormalBlock, a, b);
    OwnCallsAppend(a, b);
  }

  lemma {:induction false} OwnCallsArePartitioned(blocks: seq<Block>)
    ensures OwnCalls(Filter(IsCanonicalResult, blocks)) == []
    ensures OwnCalls(Filter(IsCanonicalOther, blocks)) == OwnCalls(blocks)
  {
    if blocks != [] {
      OwnCallsArePartitioned(blocks[1..]);
      assert ([blocks[0]] + Filter(IsCanonicalResult, blocks[1..]))[1..] == Filter(IsCanonicalResult, blocks[1..]);
      assert ([blocks[0]] + Filter(IsCanonicalOther, blocks[1..]))[1..] == Filter(IsCanonicalOther, blocks[1..]);
    }
  }

  lemma {:induction false} PlainTextHasNoCalls(blocks: seq<Block>)
    requires AllPlainText(blocks)
    ensures OwnCalls(blocks) == []
  {
    if blocks != [] {
      assert IsPlainText(blocks[0]);
      PlainTextHasNoCalls(blocks[1..]);
    }
  }

  function ResultsThenOthers(blocks: seq<Block>): seq<Block> {
    Filter(IsCanonicalResult, blocks) + Filter(IsCanonicalOther, blocks)
  }

  /** Ordering the canonical blocks first commutes with everything that is done to them. */
  lemma {:induction false} OrderedFirst(blocks: seq<Block>)
    ensures forall b :: b in ResultsThenOthers(blocks) <==> b in blocks
    ensures RenderAll(ResultsThenOthers(blocks)) == ResultsFirst(RenderAll(blocks))
    ensures !AllPlainText(blocks) ==> Normal(blocks) == NormalBlocks(ResultsThenOthers(blocks))
    ensures OwnCalls(ResultsThenOthers(blocks)) == OwnCalls(blocks)
  {
    var results, others := Filter(IsCanonicalResult, blocks), Filter(IsCanonicalOther, blocks);
    FilterMembers(IsCanonicalResult, blocks);
    FilterMembers(IsCanonicalOther, blocks);
    OwnCallsArePartitioned(blocks);
    NormalBlocksAppend(results, others);
    assert [] + OwnCalls(blocks) == OwnCalls(blocks);
    RenderPartition(blocks);
    RenderAllAppend(results, others);
  }

  lemma {:induction false} PlainMessageDecodes(blocks: seq<Block>, ids: IDs)
    requires AllPlainText(blocks)
    ensures ExplicitIDs(OnWire(EncodeContent(blocks))) == [] && OwnCalls(blocks) == []
    ensures Decode(OnWire(EncodeContent(blocks)), ids) == Ok((Normal(blocks), ids))
  {
    PlainTextHasNoCalls(blocks);
  }

  /** One message: its encoding decodes to its normal form, and holds exactly its own ids. */
  lemma {:induction false} MessageDecodes(blocks: seq<Block>, ids: IDs)
    requires AllCovered(blocks) && Ready(OwnCalls(blocks), ids)
    ensures ExplicitIDs(OnWire(EncodeContent(blocks))) == OwnCalls(blocks)
    ensures Decode(OnWire(EncodeContent(blocks)), ids)
            == Ok((Normal(blocks), Consumed(ids, OwnCalls(blocks))))
  {
    if AllPlainText(blocks) {
      PlainMessageDecodes(blocks, ids);
      assert ids.pre - Elements([]) == ids.pre;
    } else {
      var ordered := ResultsThenOthers(blocks);
      OrderedFirst(blocks);
      BlocksDecode(ordered, 0, ids);
    }
  }

  // ---- a whole conversation ----

  function EncodeAll(messages: seq<seq<Block>>): seq<Content> {
    if messages == [] then [] else [OnWire(EncodeContent(messages[0]))] + EncodeAll(messages[1..])
  }

  function NormalAll(messages: seq<seq<Block>>): seq<seq<Block>> {
    if messages == [] then [] else [Normal(messages[0])] + NormalAll(messages[1..])
  }

  function OwnCallsInAll(messages: seq<seq<Block>>): seq<string> {
    if messages == [] then [] else OwnCalls(messages[0]) + OwnCallsInAll(messages[1..])
  }

  lemma {:induction false} ConversationDecodes(messages: seq<seq<Block>>, ids: IDs)
    requires forall m :: m in messages ==> AllCovered(m)
    requires Ready(OwnCallsInAll(messages), ids)
    ensures ExplicitInAll(EncodeAll(messages)) == OwnCallsInAll(messages)
    ensures DecodeAll(EncodeAll(messages), ids)
            == Ok((NormalAll(messages), Consumed(ids, OwnCallsInAll(messages))))
    decreases messages
  {
    assert ids.pre - Elements([]) == ids.pre;
    if messages != [] {
      var m, rest := messages[0], messages[1..];
      DistinctAppend(OwnCalls(m), OwnCallsInAll(rest));
      MessageDecodes(m, ids);
      var after := Consumed(ids, OwnCalls(m));
      ConversationDecodes(rest, after);
      assert Consumed(after, OwnCallsInAll(rest)) == Consumed(ids, OwnCallsInAll(messages));
      assert EncodeAll(messages)[1..] == EncodeAll(rest);
    }
  }

  /** Decoding an encoded conversation whose call ids are distinct gives every message's normal form. */
  lemma {:induction false} DecodeAfterEncode(messages: seq<seq<Block>>)
    requires forall m :: m in messages ==> AllCovered(m)
    requires Distinct(OwnCallsInAll(messages))
    ensures DecodeRequest(EncodeAll(messages)) == Ok(NormalAll(messages))
  {
    var empty, calls := IDs({}, {}), OwnCallsInAll(messages);
    var claimed := IDs({} + Elements(calls), {} + Elements(calls));
    ConversationDecodes(messages, claimed);
    PreScanAllClaims(EncodeAll(messages), empty);
    assert Elements(calls) !! {};
  }
}
