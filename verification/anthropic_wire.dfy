/**
 What a message shows on the wire, told block by block without the encoder: each
 block of the message and the wire block, or the nothing, that carries it.
 */
module AnthropicWire {
  import opened Wrappers
  import opened Sequences
  import opened AnthropicModel
  import opened AnthropicEncode
  import opened AnthropicTurns
  import opened AnthropicItems
  import opened AnthropicConservation
  import opened AnthropicSystem

  // ---- the carriers of one block ----

  ghost predicate CarriesText(text: string, cache: Option<CacheControl>, citations: seq<Citation>, ws: seq<WireBlock>) {
    if text == "" then ws == []
    else |ws| == 1 && Spells(Text(text, cache, citations), ws[0])
  }

  /** The first of a file, inline bytes of a type that the API takes, and a URL. */
  ghost predicate CarriesImage(image: Image, cache: Option<CacheControl>, ws: seq<WireBlock>) {
    if image.fileID != "" then ws == [WImage(FileSource(image.fileID), cache)]
    else if image.data != "" then
      ws == if image.mediaType in {"image/jpeg", "image/png", "image/gif", "image/webp"}
            then [WImage(Base64Source(image.mediaType, image.data), cache)] else []
    else ws == if image.url != "" then [WImage(URLSource(image.url), cache)] else []
  }

  ghost predicate CarriesDocument(source: Option<Document>, title: Option<string>, cache: Option<CacheControl>,
                                  ws: seq<WireBlock>)
  {
    ws == if source.Some? then [WDocument(source.value, title, cache)] else []
  }

  /** Native reasoning stays reasoning; any other is told as text, by its summary if it has no text. */
  ghost predicate CarriesReasoning(r: Reasoning, ws: seq<WireBlock>) {
    if r.signature != "" || r.provider == Anthropic then ws == [WThinking(r.text, r.signature)]
    else if r.text != "" || r.summary != [] then
      ws == [WText(if r.text != "" then r.text else Flatten(r.summary), None, [])]
    else ws == []
  }

  /** One part of a tool result; media carry no breakpoint and no title there. */
  ghost predicate CarriesPart(b: Block, ws: seq<WireBlock>) {
    match b
    case Text(text, cache, citations) => CarriesText(text, cache, citations, ws)
    case ImageBlock(image, _) => CarriesImage(image, None, ws)
    case FileBlock(source, _, _) => CarriesDocument(source, None, None, ws)
    case _ => ws == []
  }

  /** Unmarked texts are one string; otherwise each part is carried, if there is anything to carry. */
  ghost predicate CarriesResult(blocks: seq<Block>, content: WireContent) {
    if forall b :: b in blocks ==> b.Text? && b.cache == None && b.citations == [] then
      content == WString(FlatMap(TextIn, blocks))
    else
      exists pieces: seq<seq<WireBlock>> ::
        && |pieces| == |blocks| && (forall k :: 0 <= k < |blocks| ==> CarriesPart(blocks[k], pieces[k]))
        && content == if Flatten(pieces) == [] then WString("") else WBlocks(Flatten(pieces))
  }

  ghost predicate CarriesBlock(b: Block, ws: seq<WireBlock>) {
    match b
    case Text(text, cache, citations) => CarriesText(text, cache, citations, ws)
    case ImageBlock(image, cache) => CarriesImage(image, cache, ws)
    case FileBlock(source, filename, cache) =>
      CarriesDocument(source, if 1 <= |filename| <= 500 then Some(filename) else None, cache, ws)
    case Audio(_, _) => ws == []
    case ToolCall(id, name, arguments, cache) =>
      ws == [WToolUse(id, name, if arguments == "" then "{}" else arguments, cache)]
    case ToolResult(callID, content, isError, cache) =>
      && |ws| == 1 && ws[0].WToolResult? && CarriesResult(content, ws[0].content)
      && ws[0] == WToolResult(callID, ws[0].content, isError, cache)
    case ReasoningBlock(r, _) => CarriesReasoning(r, ws)
    case RedactedReasoning(r, _) =>
      ws == if r.provider == Anthropic && r.encrypted != "" then [WRedactedThinking(r.encrypted)] else []
    case Refusal(refusal, cache) => ws == if refusal == "" then [] else [WText(refusal, cache, [])]
  }

  // ---- the carriers of a message ----

  /** The wire blocks that carry these blocks, one after the other. */
  ghost predicate CarriesAll(blocks: seq<Block>, pieces: seq<seq<WireBlock>>, ws: seq<WireBlock>) {
    && |pieces| == |blocks| && (forall k :: 0 <= k < |blocks| ==> CarriesBlock(blocks[k], pieces[k]))
    && ws == Flatten(pieces)
  }

  /** The content of one message: a string for unmarked texts, otherwise its carriers, tool results first. */
  ghost predicate CarriesMessage(blocks: seq<Block>, content: WireContent) {
    if forall b :: b in blocks ==> b.Text? && b.cache == None && b.citations == [] then
      content == if FlatMap(TextIn, blocks) == "" then WNil else WString(FlatMap(TextIn, blocks))
    else
      exists pieces, ws ::
        && CarriesAll(blocks, pieces, ws)
        && content == WBlocks(Filter(IsToolResult, ws) + Filter(IsOther, ws))
  }

  lemma {:induction false} JoinIsFlatten(parts: seq<string>)
    ensures Join(parts, "") == Flatten(parts)
  {
    if |parts| == 1 {
      assert Flatten(parts) == parts[0] + Flatten(parts[1..]) && parts[1..] == [];
    } else if |parts| > 1 {
      JoinIsFlatten(parts[1..]);
      assert parts[0] + "" + Join(parts[1..], "") == parts[0] + Join(parts[1..], "");
    }
  }

  lemma {:induction false} TextIsCarried(text: string, cache: Option<CacheControl>, citations: seq<Citation>)
    ensures CarriesText(text, cache, citations, EncodeText(text, cache, citations))
  {
    CitationKinds(citations);
  }

  lemma {:induction false} PartIsCarried(b: Block)
    ensures CarriesPart(b, RenderResultPart(b))
  {
    if b.Text? {
      TextIsCarried(b.text, b.cache, b.citations);
    }
  }

  lemma {:induction false} PartsAreCarried(blocks: seq<Block>) returns (pieces: seq<seq<WireBlock>>)
    ensures |pieces| == |blocks| && forall k :: 0 <= k < |blocks| ==> CarriesPart(blocks[k], pieces[k])
    ensures Flatten(pieces) == RenderResultParts(blocks)
  {
    if blocks == [] {
      pieces := [];
    } else {
      PartIsCarried(blocks[0]);
      var rest := PartsAreCarried(blocks[1..]);
      pieces := [RenderResultPart(blocks[0])] + rest;
      assert pieces[1..] == rest;
    }
  }

  lemma {:induction false} ResultIsCarried(blocks: seq<Block>)
    ensures CarriesResult(blocks, ToolResultContent(blocks))
  {
    ResultFormIs(blocks);
    if !AllPlainText(blocks) {
      var pieces := PartsAreCarried(blocks);
    }
  }

  lemma {:induction false} BlockIsCarried(b: Block)
    ensures CarriesBlock(b, RenderBlock(b))
  {
    match b
    case Text(text, cache, citations) => TextIsCarried(text, cache, citations);
    case ToolResult(_, content, _, _) => ResultIsCarried(content);
    case ReasoningBlock(r, _) => JoinIsFlatten(r.summary);
    case _ =>
  }

  lemma {:induction false} BlocksAreCarried(blocks: seq<Block>) returns (pieces: seq<seq<WireBlock>>)
    ensures CarriesAll(blocks, pieces, RenderAll(blocks))
  {
    if blocks == [] {
      pieces := [];
    } else {
      BlockIsCarried(blocks[0]);
      var rest := BlocksAreCarried(blocks[1..]);
      pieces := [RenderBlock(blocks[0])] + rest;
      assert pieces[1..] == rest;
    }
  }

  /** Whatever its blocks: the encoded message carries each of them. */
  lemma {:induction false} MessageIsCarried(blocks: seq<Block>)
    ensures CarriesMessage(blocks, EncodeContent(blocks))
  {
    FormIs(blocks);
    if AllPlainText(blocks) {
      PlainConcatIs(blocks);
    } else {
      var pieces := BlocksAreCarried(blocks);
      assert CarriesAll(blocks, pieces, RenderAll(blocks));
    }
  }

  // ---- the conversation turns of a request ----

  /** A message that says nothing: its blocks are unmarked texts without a character. */
  ghost predicate Silent(blocks: seq<Block>) {
    forall b :: b in blocks ==> b == Text("", None, [])
  }

  ghost predicate Calls(blocks: seq<Block>, id: string) {
    exists b :: b in blocks && b.ToolCall? && b.id == id
  }

  /** A user has said something before message i. */
  ghost predicate Heard(messages: seq<Message>, i: nat)
    requires i <= |messages|
    decreases i, 0
  {
    exists u :: 0 <= u < i && messages[u].role == User && !Silent(Sent(messages, u))
  }

  /** The id is that of a call in an assistant message before x that came before any user was heard. */
  ghost predicate Unheard(messages: seq<Message>, x: nat, id: string)
    requires x <= |messages|
    decreases x, 1
  {
    && id != ""
    && exists j :: 0 <= j < x && messages[j].role == Assistant && !Heard(messages, j)
                   && Calls(messages[j].content, id)
  }

  /** What is sent of a message: a user's without the results of calls that nobody heard of. */
  ghost function Sent(messages: seq<Message>, x: nat): seq<Block>
    requires x < |messages|
    decreases x, 2
  {
    if messages[x].role == User then
      Filter((b: Block) => !(b.ToolResult? && Unheard(messages, x, b.callID)), messages[x].content)
    else messages[x].content
  }

  /** The conversation messages that are sent: a user's that says something, an assistant's after that. */
  ghost predicate Speaks(messages: seq<Message>, x: nat)
    requires x < |messages|
  {
    && !Silent(Sent(messages, x))
    && (messages[x].role == User || (messages[x].role == Assistant && Heard(messages, x)))
  }

  lemma {:induction false} SilentIff(blocks: seq<Block>)
    ensures EncodeContent(blocks).WNil? <==> Silent(blocks)
  {
    FormIs(blocks);
  }

  lemma {:induction false} FilterCongruent<T>(p: T -> bool, q: T -> bool, s: seq<T>)
    requires forall x :: x in s ==> (p(x) <==> q(x))
    ensures Filter(p, s) == Filter(q, s)
  {
    if s != [] {
      assert s[0] in s && forall x :: x in s[1..] ==> x in s;
      FilterCongruent(p, q, s[1..]);
    }
  }

  lemma {:induction false} HeardIsOpened(messages: seq<Message>, i: nat)
    requires i <= |messages|
    ensures Heard(messages, i) <==> Opened(messages, i)
    decreases i, 0
  {
    forall u | 0 <= u < i && messages[u].role == User
      ensures !Silent(Sent(messages, u)) <==> !Rendered(messages, u).WNil?
    {
      SentIsKept(messages, u);
      SilentIff(Sent(messages, u));
    }
  }

  lemma {:induction false} CallsIff(blocks: seq<Block>, id: string)
    ensures id in CallIDs(blocks) <==> id != "" && Calls(blocks, id)
  {
  }

  lemma {:induction false} UnheardIsDropped(messages: seq<Message>, x: nat, id: string)
    requires x <= |messages|
    ensures Unheard(messages, x, id) <==> id in DroppedBefore(messages, x)
    decreases x, 1
  {
    forall j | 0 <= j < x
      ensures Heard(messages, j) <==> Opened(messages, j)
      ensures Calls(messages[j].content, id) && id != "" <==> id in CallIDs(messages[j].content)
    {
      HeardIsOpened(messages, j);
      CallsIff(messages[j].content, id);
    }
  }

  lemma {:induction false} SentIsKept(messages: seq<Message>, x: nat)
    requires x < |messages| && messages[x].role == User
    ensures Sent(messages, x) == DropOrphans(messages[x].content, DroppedBefore(messages, x))
    decreases x, 2
  {
    var dropped := DroppedBefore(messages, x);
    forall b: Block | b.ToolResult?
      ensures Unheard(messages, x, b.callID) <==> b.callID in dropped
    {
      UnheardIsDropped(messages, x, b.callID);
    }
    FilterCongruent((b: Block) => !(b.ToolResult? && Unheard(messages, x, b.callID)), NotOrphan(dropped),
                    messages[x].content);
  }

  /** The messages that bring something are those that speak. */
  lemma {:induction false} CarriersSpeak(messages: seq<Message>, x: nat)
    requires x < |messages| && (messages[x].role == User || messages[x].role == Assistant)
    ensures Carries(Items(messages)[x]) <==> Speaks(messages, x)
  {
    ItemAt(messages, x);
    SilentIff(Sent(messages, x));
    if messages[x].role == User {
      SentIsKept(messages, x);
    } else {
      HeardIsOpened(messages, x);
    }
  }

  /** The turn holds what these messages carry, one after the other, tool results first. */
  ghost predicate TurnCarries(messages: seq<Message>, turn: Turn, group: seq<nat>, contents: seq<WireContent>) {
    && |contents| == |group| > 0
    && (forall k :: 0 <= k < |group| ==>
          && group[k] < |messages| && messages[group[k]].role == turn.role
          && CarriesMessage(Sent(messages, group[k]), contents[k]))
    && var ws := FlatMap(ToBlocks, contents);
       ToBlocks(turn.content) == Filter(IsToolResult, ws) + Filter(IsOther, ws)
  }

  ghost predicate TurnIsCarried(messages: seq<Message>, turn: Turn, group: seq<nat>) {
    exists contents :: TurnCarries(messages, turn, group, contents)
  }

  lemma {:induction false} ItemIsCarried(messages: seq<Message>, x: nat)
    requires x < |messages| && IsConversation(Items(messages)[x]) && Carries(Items(messages)[x])
    ensures CarriesMessage(Sent(messages, x), Items(messages)[x].content)
  {
    ItemAt(messages, x);
    MessageIsCarried(Sent(messages, x));
    if messages[x].role == User {
      SentIsKept(messages, x);
    }
  }

  function ContentsOf(items: seq<Item>, idx: seq<nat>): (contents: seq<WireContent>)
    requires Below(idx, |items|)
    ensures |contents| == |idx| && forall k :: 0 <= k < |idx| ==> contents[k] == items[idx[k]].content
  {
    if idx == [] then [] else [items[idx[0]].content] + ContentsOf(items, idx[1..])
  }

  lemma {:induction false} BlocksAreContents(items: seq<Item>, idx: seq<nat>)
    requires Below(idx, |items|)
    ensures BlocksOf(items, idx) == FlatMap(ToBlocks, ContentsOf(items, idx))
  {
    if idx != [] {
      BlocksAreContents(items, idx[1..]);
    }
  }

  lemma {:induction false} HeldTurnIsCarried(messages: seq<Message>, turn: Turn, group: seq<nat>)
    requires Holds(Items(messages), turn, group) && (turn.role == User || turn.role == Assistant)
    requires AllCarry(Items(messages), group)
    ensures TurnIsCarried(messages, turn, group)
  {
    var items, contents := Items(messages), ContentsOf(Items(messages), group);
    ItemRoles(messages);
    BlocksAreContents(items, group);
    forall k | 0 <= k < |group|
      ensures CarriesMessage(Sent(messages, group[k]), contents[k])
    {
      assert group[k] in group;
      ItemIsCarried(messages, group[k]);
    }
    assert TurnCarries(messages, turn, group, contents);
  }

  /** Exactly the messages that speak stand in the conversation, each once and in order. */
  ghost predicate SpeakersStand(messages: seq<Message>, groups: seq<seq<nat>>) {
    && Increasing(Flatten(groups))
    && forall x: nat :: x < |messages| && !IsSystemly(messages[x]) ==>
         (x in Flatten(groups) <==> Speaks(messages, x))
  }

  lemma {:induction false} PlacedSpeakersStand(messages: seq<Message>, tr: Trace)
    requires PlacedOnce(Items(messages), tr)
    ensures SpeakersStand(messages, tr.turns)
  {
    forall x: nat | x < |messages| && !IsSystemly(messages[x])
      ensures x in Flatten(tr.turns) <==> Speaks(messages, x)
    {
      CarriersSpeak(messages, x);
      ItemRoles(messages);
      assert IsConversation(Items(messages)[x]);
    }
  }

  /**
   Whatever the history: exactly its messages that speak stand in the conversation,
   once and in order, and every conversation turn carries what is sent of its
   messages, block by block.
   */
  lemma {:induction false} HistoryIsCarried(messages: seq<Message>, instructions: Option<string>)
    ensures exists tr ::
              && Conserves(Items(messages), Origin(instructions).system, EncodedTurns(messages, instructions),
                           EncodedSystem(messages, instructions), tr)
              && TurnsAreCarried(messages, EncodedTurns(messages, instructions), tr.turns)
              && SpeakersStand(messages, tr.turns)
  {
    var turns := EncodedTurns(messages, instructions);
    Conservation(messages, instructions);
    var tr :| Conserves(Items(messages), Origin(instructions).system, turns, EncodedSystem(messages, instructions), tr);
    Placement(messages, instructions);
    PlacedTurnsAreCarried(messages, turns, tr.turns);
    PlacedSpeakersStand(messages, tr);
  }

  ghost predicate TurnsAreCarried(messages: seq<Message>, turns: seq<Turn>, groups: seq<seq<nat>>) {
    |groups| == |turns|
    && forall t :: 0 <= t < |turns| && turns[t].role != System ==> TurnIsCarried(messages, turns[t], groups[t])
  }

  lemma {:induction false} PlacedTurnsAreCarried(messages: seq<Message>, turns: seq<Turn>, groups: seq<seq<nat>>)
    requires AllHold(Items(messages), turns, groups) && AllCarry(Items(messages), Flatten(groups))
    requires forall t :: 0 <= t < |turns| ==> turns[t].role != Developer
    ensures TurnsAreCarried(messages, turns, groups)
  {
    forall t | 0 <= t < |turns| && turns[t].role != System
      ensures TurnIsCarried(messages, turns[t], groups[t])
    {
      GroupsAllCarry(Items(messages), groups, t);
      HeldTurnIsCarried(messages, turns[t], groups[t]);
    }
  }
}
