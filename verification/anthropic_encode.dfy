/**
 Rendering canonical blocks as Anthropic content: encodeAnthropicContent,
 encodeAnthropicBlocks, encodeAnthropicToolResultContent and the results-first
 order of one user turn.
 */
module AnthropicEncode {
  import opened Wrappers
  import opened Sequences
  import opened AnthropicModel

  const EMPTY_OBJECT := "{}"

  const IMAGE_MEDIA_TYPES := {"image/jpeg", "image/png", "image/gif", "image/webp"}

  const DOCUMENT_TITLE_MAX := 500

  const ANTHROPIC_CITATIONS := {"char_location", "page_location", "content_block_location",
                                "web_search_result_location", "search_result_location"}

  predicate IsAnthropicCitation(c: Citation) {
    c.kind in ANTHROPIC_CITATIONS
  }

  function EncodeImage(img: Image): Option<ImageSource> {
    if img.fileID != "" then Some(FileSource(img.fileID))
    else if img.data != "" then
      if img.mediaType in IMAGE_MEDIA_TYPES then Some(Base64Source(img.mediaType, img.data)) else None
    else if img.url != "" then Some(URLSource(img.url))
    else None
  }

  /** A title is kept when there is one and it fits the wire's limit. */
  function DocumentTitle(filename: string): Option<string> {
    if filename != "" && |filename| <= DOCUMENT_TITLE_MAX then Some(filename) else None
  }

  function EncodeText(text: string, cache: Option<CacheControl>, citations: seq<Citation>): seq<WireBlock> {
    if text == "" then [] else [WText(text, cache, Filter(IsAnthropicCitation, citations))]
  }

  predicate Native(r: Reasoning) {
    r.signature != "" || r.provider == Anthropic
  }

  function EncodeReasoning(r: Reasoning): seq<WireBlock> {
    if Native(r) then [WThinking(r.text, r.signature)]
    else if r.text != "" then [WText(r.text, None, [])]
    else if |r.summary| > 0 then [WText(Join(r.summary, ""), None, [])]
    else []
  }

  /** What one block of a turn contributes: one wire block, or nothing. */
  function RenderBlock(b: Block): seq<WireBlock>
    decreases b
  {
    match b
    case Text(text, cache, citations) => EncodeText(text, cache, citations)
    case ImageBlock(image, cache) =>
      var source := EncodeImage(image);
      if source.None? then [] else [WImage(source.value, cache)]
    case FileBlock(source, filename, cache) =>
      if source.None? then [] else [WDocument(source.value, DocumentTitle(filename), cache)]
    case Audio(_, _) => []
    case ToolCall(id, name, arguments, cache) =>
      [WToolUse(id, name, if arguments == "" then EMPTY_OBJECT else arguments, cache)]
    case ToolResult(callID, content, isError, cache) =>
      [WToolResult(callID, ToolResultContent(content), isError, cache)]
    case ReasoningBlock(r, _) => EncodeReasoning(r)
    case RedactedReasoning(r, _) =>
      if r.provider == Anthropic && r.encrypted != "" then [WRedactedThinking(r.encrypted)] else []
    case Refusal(refusal, cache) =>
      if refusal == "" then [] else [WText(refusal, cache, [])]
  }

  function RenderAll(blocks: seq<Block>): seq<WireBlock> {
    if blocks == [] then [] else RenderBlock(blocks[0]) + RenderAll(blocks[1..])
  }

  /** A text block that the plain string form can carry. */
  predicate IsPlainText(b: Block) {
    b.Text? && b.cache.None? && b.citations == []
  }

  predicate AllPlainText(blocks: seq<Block>) {
    forall b :: b in blocks ==> IsPlainText(b)
  }

  function PlainConcat(blocks: seq<Block>): string
    requires AllPlainText(blocks)
  {
    if blocks == [] then ""
    else
      assert IsPlainText(blocks[0]);
      blocks[0].text + PlainConcat(blocks[1..])
  }

  /** What one part of a structured tool result contributes. */
  function RenderResultPart(b: Block): seq<WireBlock> {
    match b
    case Text(text, cache, citations) => EncodeText(text, cache, citations)
    case ImageBlock(image, _) =>
      var source := EncodeImage(image);
      if source.None? then [] else [WImage(source.value, None)]
    case FileBlock(source, _, _) =>
      if source.None? then [] else [WDocument(source.value, None, None)]
    case _ => []
  }

  function RenderResultParts(blocks: seq<Block>): seq<WireBlock> {
    if blocks == [] then [] else RenderResultPart(blocks[0]) + RenderResultParts(blocks[1..])
  }

  function ToolResultContent(blocks: seq<Block>): WireContent {
    if blocks == [] then WString("")
    else if AllPlainText(blocks) then WString(PlainConcat(blocks))
    else
      var parts := RenderResultParts(blocks);
      if parts == [] then WString("") else WBlocks(parts)
  }

  predicate IsToolResult(b: WireBlock) {
    b.WToolResult?
  }

  predicate IsOther(b: WireBlock) {
    !b.WToolResult?
  }

  /** The stable partition that puts tool results before everything else. */
  function ResultsFirst(blocks: seq<WireBlock>): seq<WireBlock> {
    Filter(IsToolResult, blocks) + Filter(IsOther, blocks)
  }

  /** The content of one turn, as the documentation of the encoder describes it. */
  function EncodeContent(blocks: seq<Block>): WireContent {
    if blocks == [] then WNil
    else if AllPlainText(blocks) then
      var text := PlainConcat(blocks);
      if text == "" then WNil else WString(text)
    else WBlocks(ResultsFirst(RenderAll(blocks)))
  }

  /** The block form of any content: a string is one text block. */
  function ToBlocks(content: WireContent): seq<WireBlock> {
    match content
    case WNil => []
    case WString(s) => [WText(s, None, [])]
    case WBlocks(blocks) => blocks
  }

  // ---- the partition is stable, idempotent, and can be applied in pieces ----

  lemma {:induction false} ResultsFirstParts(blocks: seq<WireBlock>)
    ensures Filter(IsToolResult, ResultsFirst(blocks)) == Filter(IsToolResult, blocks)
    ensures Filter(IsOther, ResultsFirst(blocks)) == Filter(IsOther, blocks)
  {
    var results, others := Filter(IsToolResult, blocks), Filter(IsOther, blocks);
    FilterAppend(IsToolResult, results, others);
    FilterAppend(IsOther, results, others);
    FilterMembers(IsToolResult, blocks);
    FilterMembers(IsOther, blocks);
    FilterAll(IsToolResult, results);
    FilterAll(IsOther, others);
    FilterNone(IsOther, results);
    FilterNone(IsToolResult, others);
  }

  /** Ordering a turn as it grows gives what ordering it once at the end gives. */
  lemma {:induction false} ResultsFirstIncremental(a: seq<WireBlock>, b: seq<WireBlock>)
    ensures ResultsFirst(ResultsFirst(a) + b) == ResultsFirst(a + b)
    ensures ResultsFirst(a + ResultsFirst(b)) == ResultsFirst(a + b)
  {
    ResultsFirstParts(a);
    ResultsFirstParts(b);
    FilterAppend(IsToolResult, a, b);
    FilterAppend(IsOther, a, b);
    FilterAppend(IsToolResult, ResultsFirst(a), b);
    FilterAppend(IsOther, ResultsFirst(a), b);
    FilterAppend(IsToolResult, a, ResultsFirst(b));
    FilterAppend(IsOther, a, ResultsFirst(b));
  }

  lemma {:induction false} SeqAssociative<T>(a: seq<T>, b: seq<T>, c: seq<T>)
    ensures a + (b + c) == a + b + c
  {
  }

  lemma {:induction false} RenderAllAppend(a: seq<Block>, b: seq<Block>)
    ensures RenderAll(a + b) == RenderAll(a) + RenderAll(b)
  {
    if a == [] {
      assert a + b == b;
    } else {
      RenderAllAppend(a[1..], b);
      assert (a + b)[1..] == a[1..] + b && (a + b)[0] == a[0];
      SeqAssociative(RenderBlock(a[0]), RenderAll(a[1..]), RenderAll(b));
    }
  }

  function TextIn(b: Block): string {
    if b.Text? then b.text else ""
  }

  /** The texts one after the other, with nothing between them. */
  lemma {:induction false} PlainConcatIs(blocks: seq<Block>)
    requires AllPlainText(blocks)
    ensures PlainConcat(blocks) == FlatMap(TextIn, blocks)
  {
    if blocks != [] {
      assert IsPlainText(blocks[0]);
      PlainConcatIs(blocks[1..]);
    }
  }

  lemma {:induction false} PlainConcatIsEmpty(blocks: seq<Block>)
    requires AllPlainText(blocks)
    ensures PlainConcat(blocks) == "" <==> forall b :: b in blocks ==> b.text == ""
  {
    if blocks != [] {
      assert IsPlainText(blocks[0]);
      PlainConcatIsEmpty(blocks[1..]);
      assert forall b :: b in blocks <==> b == blocks[0] || b in blocks[1..];
    }
  }

  /** The string form carries exactly the unmarked texts, and nothing at all when they are empty. */
  lemma {:induction false} FormIs(blocks: seq<Block>)
    ensures var plain := forall b :: b in blocks ==> b.Text? && b.cache == None && b.citations == [];
            && (EncodeContent(blocks).WBlocks? <==> !plain)
            && (EncodeContent(blocks).WString? <==> plain && exists b :: b in blocks && b.text != "")
            && (EncodeContent(blocks).WString? ==> EncodeContent(blocks).s == FlatMap(TextIn, blocks))
            && (EncodeContent(blocks).WNil? <==> plain && forall b :: b in blocks ==> b.text == "")
  {
    assert AllPlainText(blocks) <==> forall b :: b in blocks ==> b.Text? && b.cache == None && b.citations == [];
    if AllPlainText(blocks) {
      PlainConcatIs(blocks);
      PlainConcatIsEmpty(blocks);
    }
  }

  /** The same for the content of a tool result, where nothing is an empty string. */
  lemma {:induction false} ResultFormIs(blocks: seq<Block>)
    ensures var plain := forall b :: b in blocks ==> b.Text? && b.cache == None && b.citations == [];
            && (ToolResultContent(blocks).WBlocks? <==> !plain && RenderResultParts(blocks) != [])
            && (ToolResultContent(blocks).WString? <==> plain || RenderResultParts(blocks) == [])
            && (ToolResultContent(blocks).WString? ==>
                  ToolResultContent(blocks).s == if plain then FlatMap(TextIn, blocks) else "")
  {
    assert AllPlainText(blocks) <==> forall b :: b in blocks ==> b.Text? && b.cache == None && b.citations == [];
    if AllPlainText(blocks) {
      PlainConcatIs(blocks);
    }
  }

  lemma {:induction false} RenderAllSnoc(blocks: seq<Block>, i: nat)
    requires i < |blocks|
    ensures RenderAll(blocks[..i + 1]) == RenderAll(blocks[..i]) + RenderBlock(blocks[i])
  {
    assert blocks[..i + 1] == blocks[..i] + [blocks[i]];
    RenderAllAppend(blocks[..i], [blocks[i]]);
    assert RenderAll([blocks[i]]) == RenderBlock(blocks[i]) + RenderAll([]);
  }

  predicate IsCanonicalResult(b: Block) {
    b.ToolResult?
  }

  predicate IsCanonicalOther(b: Block) {
    !b.ToolResult?
  }

  /** A tool result renders to exactly one tool result, and no other block renders to any. */
  lemma {:induction false} RenderKeepsKind(b: Block)
    ensures b.ToolResult? ==> Filter(IsToolResult, RenderBlock(b)) == RenderBlock(b)
                              && Filter(IsOther, RenderBlock(b)) == []
    ensures !b.ToolResult? ==> Filter(IsToolResult, RenderBlock(b)) == []
                               && Filter(IsOther, RenderBlock(b)) == RenderBlock(b)
  {
    assert |RenderBlock(b)| <= 1;
  }

  /** Partitioning the canonical blocks and then rendering is rendering and then partitioning. */
  lemma {:induction false} RenderPartition(blocks: seq<Block>)
    ensures RenderAll(Filter(IsCanonicalResult, blocks)) == Filter(IsToolResult, RenderAll(blocks))
    ensures RenderAll(Filter(IsCanonicalOther, blocks)) == Filter(IsOther, RenderAll(blocks))
  {
    if blocks != [] {
      var head, tail := blocks[0], blocks[1..];
      RenderPartition(tail);
      RenderKeepsKind(head);
      FilterAppend(IsToolResult, RenderBlock(head), RenderAll(tail));
      FilterAppend(IsOther, RenderBlock(head), RenderAll(tail));
      assert ([head] + Filter(IsCanonicalResult, tail))[1..] == Filter(IsCanonicalResult, tail);
      assert ([head] + Filter(IsCanonicalOther, tail))[1..] == Filter(IsCanonicalOther, tail);
    }
  }

  // ---- the loops of the encoder ----

  /** encodeAnthropicBlocks: split off the tool results, then render results and rest in one pass. */
  method EncodeAnthropicBlocks(blocks: seq<Block>) returns (out: seq<WireBlock>)
    ensures out == ResultsFirst(RenderAll(blocks))
  {
    var results, rest := PartitionBlocks(blocks);
    var ordered := results + rest;
    out := [];
    for i := 0 to |ordered|
      invariant out == RenderAll(ordered[..i])
    {
      RenderAllSnoc(ordered, i);
      out := out + RenderBlock(ordered[i]);
    }
    assert ordered[..|ordered|] == ordered;
    RenderAllAppend(results, rest);
    RenderPartition(blocks);
  }

  method PartitionBlocks(blocks: seq<Block>) returns (results: seq<Block>, rest: seq<Block>)
    ensures results == Filter(IsCanonicalResult, blocks)
    ensures rest == Filter(IsCanonicalOther, blocks)
  {
    results, rest := [], [];
    for i := 0 to |blocks|
      invariant results == Filter(IsCanonicalResult, blocks[..i])
      invariant rest == Filter(IsCanonicalOther, blocks[..i])
    {
      FilterSnoc(IsCanonicalResult, blocks, i);
      FilterSnoc(IsCanonicalOther, blocks, i);
      if blocks[i].ToolResult? {
        results := results + [blocks[i]];
      } else {
        rest := rest + [blocks[i]];
      }
    }
    assert blocks[..|blocks|] == blocks;
  }

  lemma {:induction false} PlainConcatAppend(a: seq<Block>, b: seq<Block>)
    requires AllPlainText(a) && AllPlainText(b)
    ensures AllPlainText(a + b)
    ensures PlainConcat(a + b) == PlainConcat(a) + PlainConcat(b)
  {
    if a == [] {
      assert a + b == b;
    } else {
      PlainConcatAppend(a[1..], b);
      assert (a + b)[1..] == a[1..] + b;
    }
  }

  /** encodeAnthropicContent: the string form is built while every block stays plain text. */
  method EncodeAnthropicContent(blocks: seq<Block>) returns (content: WireContent)
    ensures content == EncodeContent(blocks)
  {
    if blocks == [] {
      return WNil;
    }
    var allText, text, i := true, "", 0;
    while i < |blocks| && allText
      invariant 0 <= i <= |blocks|
      invariant allText ==> AllPlainText(blocks[..i]) && text == PlainConcat(blocks[..i])
      invariant !allText ==> !AllPlainText(blocks)
      decreases |blocks| - i, allText
    {
      if !IsPlainText(blocks[i]) {
        allText := false;
      } else {
        assert blocks[..i + 1] == blocks[..i] + [blocks[i]];
        PlainConcatAppend(blocks[..i], [blocks[i]]);
        text := text + blocks[i].text;
        i := i + 1;
      }
    }
    if allText {
      assert blocks[..i] == blocks;
      return if text == "" then WNil else WString(text);
    }
    var rendered := EncodeAnthropicBlocks(blocks);
    content := WBlocks(rendered);
  }

  /** A list is in results-first order when no tool result follows another kind of block. */
  predicate InResultsFirstOrder(blocks: seq<WireBlock>) {
    forall i, j :: 0 <= i < j < |blocks| && IsToolResult(blocks[j]) ==> IsToolResult(blocks[i])
  }

  lemma {:induction false} OrderedIsFixed(blocks: seq<WireBlock>)
    requires InResultsFirstOrder(blocks)
    ensures ResultsFirst(blocks) == blocks
  {
    if blocks != [] {
      OrderedIsFixed(blocks[1..]);
      if !IsToolResult(blocks[0]) {
        FilterNone(IsToolResult, blocks);
        FilterAll(IsOther, blocks);
      }
    }
  }

  /** orderAnthropicRenderedResultsFirst: scan for a result after another block; rebuild only then. */
  method OrderRenderedResultsFirst(blocks: seq<WireBlock>) returns (ordered: seq<WireBlock>, moved: bool)
    ensures ordered == ResultsFirst(blocks)
    ensures moved <==> !InResultsFirstOrder(blocks)
  {
    var seenOther, i := false, 0;
    moved := false;
    while i < |blocks| && !moved
      invariant 0 <= i <= |blocks|
      invariant !moved ==> InResultsFirstOrder(blocks[..i])
      invariant seenOther <==> exists k :: 0 <= k < i && IsOther(blocks[k])
      invariant moved ==> !InResultsFirstOrder(blocks)
      decreases |blocks| - i, !moved
    {
      if IsToolResult(blocks[i]) {
        if seenOther {
          moved := true;
        } else {
          i := i + 1;
        }
      } else {
        seenOther := true;
        i := i + 1;
      }
    }
    if !moved {
      assert blocks[..i] == blocks;
      OrderedIsFixed(blocks);
      return blocks, false;
    }
    var results: seq<WireBlock> := [];
    for k := 0 to |blocks|
      invariant results == Filter(IsToolResult, blocks[..k])
    {
      FilterSnoc(IsToolResult, blocks, k);
      if IsToolResult(blocks[k]) {
        results := results + [blocks[k]];
      }
    }
    ordered := results;
    for k := 0 to |blocks|
      invariant ordered == results + Filter(IsOther, blocks[..k])
    {
      FilterSnoc(IsOther, blocks, k);
      if !IsToolResult(blocks[k]) {
        ordered := ordered + [blocks[k]];
      }
    }
    assert blocks[..|blocks|] == blocks;
  }
}
