/**
 Decoding what the turn encoder wrote. A history goes through encodeAnthropicTurns
 as a whole, with its merging, dropping and lifting, and the decoder reads the
 turns back: each conversation turn gives the normal form of the blocks of exactly
 the messages that were placed in it, each system turn the text of its run.
 */
module AnthropicRoundTrip {
  import opened Wrappers
  import opened Sequences
  import opened AnthropicModel
  import opened AnthropicEncode
  import opened AnthropicTurns
  import opened AnthropicItems
  import opened AnthropicConservation
  import opened AnthropicDecode
  import opened AnthropicNormal

  // ---- what a message sends ----

  /** Plain texts are sent as one. */
  function Condensed(content: seq<Block>): seq<Block> {
    if AllPlainText(content) then Joined(content) else content
  }

  /** The blocks of a conversation message that reach the wire, before they are rendered. */
  ghost function Sent(messages: seq<Message>, i: nat): seq<Block>
    requires i < |messages|
  {
    match messages[i].role
    case User => Condensed(DropOrphans(messages[i].content, DroppedBefore(messages, i)))
    case Assistant => if Opened(messages, i) then Condensed(messages[i].content) else []
    case _ => []
  }

  ghost function SentBy(messages: seq<Message>, idx: seq<nat>): seq<Block>
    requires Below(idx, |messages|)
  {
    if idx == [] then [] else Sent(messages, idx[0]) + SentBy(messages, idx[1..])
  }

  lemma {:induction false} CondensedRenders(content: seq<Block>)
    ensures ToBlocks(EncodeContent(content)) == ResultsFirst(RenderAll(Condensed(content)))
  {
    if AllPlainText(content) {
      var text := PlainConcat(content);
      if text != "" {
        var one := Text(text, None, []);
        assert [one][1..] == [];
        assert RenderAll([one]) == RenderBlock(one) + RenderAll([]);
        assert RenderBlock(one) == [WText(text, None, [])];
        assert RenderAll([one]) == [WText(text, None, [])];
      }
      OrderedIsFixed(RenderAll(Condensed(content)));
    }
  }

  lemma {:induction false} UserSends(messages: seq<Message>, i: nat)
    requires i < |messages| && messages[i].role == User
    ensures ToBlocks(Rendered(messages, i)) == ResultsFirst(RenderAll(Sent(messages, i)))
  {
    var content := DropOrphans(messages[i].content, DroppedBefore(messages, i));
    assert Rendered(messages, i) == EncodeContent(content) && Sent(messages, i) == Condensed(content);
    CondensedRenders(content);
  }

  lemma {:induction false} NothingRenders()
    ensures ToBlocks(WNil) == ResultsFirst(RenderAll([]))
  {
    OrderedIsFixed([]);
  }

  lemma {:induction false} OthersSend(messages: seq<Message>, i: nat)
    requires i < |messages| && messages[i].role != User
    ensures ToBlocks(Rendered(messages, i)) == ResultsFirst(RenderAll(Sent(messages, i)))
  {
    if messages[i].role == Assistant && Opened(messages, i) {
      assert Rendered(messages, i) == EncodeContent(messages[i].content);
      assert Sent(messages, i) == Condensed(messages[i].content);
      CondensedRenders(messages[i].content);
    } else {
      assert Rendered(messages, i) == WNil && Sent(messages, i) == [];
      NothingRenders();
    }
  }

  lemma {:induction false} SentRenders(messages: seq<Message>, i: nat)
    requires i < |messages|
    ensures ToBlocks(Items(messages)[i].content) == ResultsFirst(RenderAll(Sent(messages, i)))
  {
    ItemAt(messages, i);
    if messages[i].role == User {
      UserSends(messages, i);
    } else {
      OthersSend(messages, i);
    }
  }

  lemma {:induction false} GroupRenders(messages: seq<Message>, idx: seq<nat>)
    requires Below(idx, |messages|)
    ensures ResultsFirst(BlocksOf(Items(messages), idx)) == ResultsFirst(RenderAll(SentBy(messages, idx)))
  {
    if idx != [] {
      var head, rest := RenderAll(Sent(messages, idx[0])), idx[1..];
      var tail := BlocksOf(Items(messages), rest);
      SentRenders(messages, idx[0]);
      GroupRenders(messages, rest);
      ResultsFirstIncremental(head, tail);
      ResultsFirstIncremental(head, RenderAll(SentBy(messages, rest)));
      RenderAllAppend(Sent(messages, idx[0]), SentBy(messages, rest));
    }
  }

  // ---- decoding one turn ----

  /** Any form of the rendered blocks decodes to their normal forms. */
  lemma {:induction false} FormDecodes(content: WireContent, blocks: seq<Block>, ids: IDs)
    requires ToBlocks(content) == RenderAll(blocks) && content != WString("")
    requires AllCovered(blocks) && Ready(OwnCalls(blocks), ids)
    ensures ExplicitIDs(OnWire(content)) == OwnCalls(blocks)
    ensures Decode(OnWire(content), ids) == Ok((NormalBlocks(blocks), Consumed(ids, OwnCalls(blocks))))
  {
    if content.WString? {
      StringDecodes(content.s, blocks, ids);
    } else {
      BlocksDecode(blocks, 0, ids);
    }
  }

  lemma {:induction false} StringDecodes(text: string, blocks: seq<Block>, ids: IDs)
    requires [WText(text, None, [])] == RenderAll(blocks) && text != ""
    requires AllCovered(blocks) && Ready(OwnCalls(blocks), ids)
    ensures OwnCalls(blocks) == []
    ensures Ok(([Text(text, None, [])], ids)) == Ok((NormalBlocks(blocks), Consumed(ids, OwnCalls(blocks))))
  {
    BlocksDecode(blocks, 0, ids);
    OnePart(text);
    OnePartDecodes(text, ids);
  }

  lemma {:induction false} OnePart(text: string)
    ensures PartsOf([WText(text, None, [])]) == [PText(text, None, [])]
  {
    assert [WText(text, None, [])][1..] == [];
    assert [PText(text, None, [])] + PartsOf([]) == [PText(text, None, [])];
  }

  /** A string reads like the one text part it stands for. */
  lemma {:induction false} OnePartDecodes(text: string, ids: IDs)
    ensures ExplicitInParts([PText(text, None, [])]) == []
    ensures DecodeParts([PText(text, None, [])], 0, ids) == Ok(([Text(text, None, [])], ids))
  {
    var part, block := PText(text, None, []), Text(text, None, []);
    ConsDecodes(part, [], 0, ids);
    assert [part] + [] == [part];
    assert [block] + [] == [block];
  }

  lemma {:induction false} GroupDecodes(messages: seq<Message>, turn: Turn, idx: seq<nat>, ids: IDs)
    requires Holds(Items(messages), turn, idx) && turn.role != System && turn.content != WString("")
    requires AllCovered(SentBy(messages, idx)) && Ready(OwnCalls(SentBy(messages, idx)), ids)
    ensures ExplicitIDs(OnWire(turn.content)) == OwnCalls(SentBy(messages, idx))
    ensures Decode(OnWire(turn.content), ids)
            == Ok((NormalBlocks(ResultsThenOthers(SentBy(messages, idx))),
                   Consumed(ids, OwnCalls(SentBy(messages, idx)))))
  {
    GroupRenders(messages, idx);
    OrderedFirst(SentBy(messages, idx));
    FormDecodes(turn.content, ResultsThenOthers(SentBy(messages, idx)), ids);
  }

  function TextBlocks(blocks: seq<WireBlock>): seq<Block> {
    if blocks == [] then []
    else
      (if blocks[0].WText? then [Text(blocks[0].text, blocks[0].cache, blocks[0].citations)] else [])
      + TextBlocks(blocks[1..])
  }

  /** What comes back of a run's text: its texts with their markers, or their join. */
  function RunBack(text: seq<WireBlock>): seq<Block> {
    if exists b :: b in text && HasMarkers(b) then TextBlocks(text)
    else [Text(Join(Texts(text), SYSTEM_SEPARATOR), None, [])]
  }

  lemma {:induction false} TextBlocksDecode(blocks: seq<WireBlock>, i: nat, ids: IDs)
    requires forall b :: b in blocks ==> b.WText?
    ensures ExplicitInParts(PartsOf(blocks)) == []
    ensures DecodeParts(PartsOf(blocks), i, ids) == Ok((TextBlocks(blocks), ids))
    decreases blocks
  {
    if blocks != [] {
      assert blocks[0] in blocks;
      TextBlocksDecode(blocks[1..], i + 1, ids);
      ConsDecodes(PartOf(blocks[0]), PartsOf(blocks[1..]), i, ids);
    }
  }

  lemma {:induction false} RunDecodes(text: seq<WireBlock>, ids: IDs)
    requires text != [] && forall b :: b in text ==> b.WText? && b.text != ""
    ensures ExplicitIDs(OnWire(TextContent(text))) == []
    ensures Decode(OnWire(TextContent(text)), ids) == Ok((RunBack(text), ids))
  {
    TextBlocksDecode(text, 0, ids);
    JoinIsNotEmpty(text);
  }

  lemma {:induction false} JoinIsNotEmpty(text: seq<WireBlock>)
    requires text != [] && forall b :: b in text ==> b.WText? && b.text != ""
    ensures Join(Texts(text), SYSTEM_SEPARATOR) != ""
  {
    assert text[0] in text;
    assert Texts(text) == [text[0].text] + Texts(text[1..]);
  }

  // ---- the calls that are sent ----

  ghost function SentCalls(messages: seq<Message>): seq<seq<string>> {
    seq(|messages|, i requires 0 <= i < |messages| => OwnCalls(Sent(messages, i)))
  }

  /** The lists with these indices, one after the other. */
  function Picked(parts: seq<seq<string>>, idx: seq<nat>): seq<string>
    requires Below(idx, |parts|)
  {
    if idx == [] then [] else parts[idx[0]] + Picked(parts, idx[1..])
  }

  lemma {:induction false} CallsOfGroup(messages: seq<Message>, idx: seq<nat>)
    requires Below(idx, |messages|)
    ensures OwnCalls(SentBy(messages, idx)) == Picked(SentCalls(messages), idx)
  {
    if idx != [] {
      CallsOfGroup(messages, idx[1..]);
      NormalBlocksAppend(Sent(messages, idx[0]), SentBy(messages, idx[1..]));
    }
  }

  lemma {:induction false} FilteredCalls(content: seq<Block>, dropped: set<string>)
    ensures OwnCalls(DropOrphans(content, dropped)) == OwnCalls(content)
    ensures forall b :: b in DropOrphans(content, dropped) ==> b in content
  {
    if content != [] {
      FilteredCalls(content[1..], dropped);
      var rest := DropOrphans(content[1..], dropped);
      assert ([content[0]] + rest)[1..] == rest;
    }
  }

  lemma {:induction false} CondensedStaysCovered(content: seq<Block>)
    requires AllCovered(content)
    ensures AllCovered(Condensed(content)) && OwnCalls(Condensed(content)) == OwnCalls(content)
  {
    if AllPlainText(content) {
      PlainTextHasNoCalls(content);
      if Joined(content) != [] {
        assert Joined(content)[1..] == [];
      }
    }
  }

  /** What a message sends is covered if the message is, and holds the message's calls or, when it is dropped, none. */
  lemma {:induction false} SentStaysCovered(messages: seq<Message>, i: nat)
    requires i < |messages| && AllCovered(messages[i].content)
    ensures AllCovered(Sent(messages, i))
    ensures OwnCalls(Sent(messages, i)) == OwnCalls(messages[i].content) || OwnCalls(Sent(messages, i)) == []
  {
    var filtered := DropOrphans(messages[i].content, DroppedBefore(messages, i));
    FilteredCalls(messages[i].content, DroppedBefore(messages, i));
    CondensedStaysCovered(filtered);
    CondensedStaysCovered(messages[i].content);
  }

  lemma {:induction false} GroupStaysCovered(messages: seq<Message>, idx: seq<nat>)
    requires Below(idx, |messages|) && forall m :: m in messages ==> AllCovered(m.content)
    ensures AllCovered(SentBy(messages, idx))
  {
    if idx != [] {
      assert messages[idx[0]] in messages;
      SentStaysCovered(messages, idx[0]);
      GroupStaysCovered(messages, idx[1..]);
    }
  }

  ghost predicate PairwiseDistinct(parts: seq<seq<string>>) {
    && (forall i :: 0 <= i < |parts| ==> Distinct(parts[i]))
    && forall i, j :: 0 <= i < j < |parts| ==> Elements(parts[i]) !! Elements(parts[j])
  }

  function ContentsOf(messages: seq<Message>): seq<seq<Block>> {
    seq(|messages|, i requires 0 <= i < |messages| => messages[i].content)
  }

  lemma {:induction false} MemberOfAll(contents: seq<seq<Block>>, j: nat)
    requires j < |contents|
    ensures Elements(OwnCalls(contents[j])) <= Elements(OwnCallsInAll(contents))
  {
    DistinctAppend(OwnCalls(contents[0]), OwnCallsInAll(contents[1..]));
    if j > 0 {
      MemberOfAll(contents[1..], j - 1);
      assert contents[j] == contents[1..][j - 1];
    }
  }

  lemma {:induction false} CallsArePairwiseDistinct(contents: seq<seq<Block>>, i: nat, j: nat)
    requires Distinct(OwnCallsInAll(contents)) && i < |contents| && j < |contents|
    ensures Distinct(OwnCalls(contents[i]))
    ensures i < j ==> Elements(OwnCalls(contents[i])) !! Elements(OwnCalls(contents[j]))
  {
    DistinctAppend(OwnCalls(contents[0]), OwnCallsInAll(contents[1..]));
    if i > 0 {
      CallsArePairwiseDistinct(contents[1..], i - 1, if j > 0 then j - 1 else 0);
      assert contents[i] == contents[1..][i - 1] && (j > 0 ==> contents[j] == contents[1..][j - 1]);
    } else if j > 0 {
      MemberOfAll(contents[1..], j - 1);
      assert contents[j] == contents[1..][j - 1];
    }
  }

  lemma {:induction false} SentCallsAreDistinct(messages: seq<Message>)
    requires forall m :: m in messages ==> AllCovered(m.content)
    requires Distinct(OwnCallsInAll(ContentsOf(messages)))
    ensures PairwiseDistinct(SentCalls(messages))
  {
    var parts := SentCalls(messages);
    forall i, j | 0 <= i <= j < |parts|
      ensures Distinct(parts[i]) && (i < j ==> Elements(parts[i]) !! Elements(parts[j]))
    {
      assert messages[i] in messages && messages[j] in messages;
      SentStaysCovered(messages, i);
      SentStaysCovered(messages, j);
      CallsArePairwiseDistinct(ContentsOf(messages), i, j);
    }
  }

  lemma {:induction false} PickedIsDistinct(parts: seq<seq<string>>, idx: seq<nat>)
    requires PairwiseDistinct(parts) && Increasing(idx) && Below(idx, |parts|)
    ensures Distinct(Picked(parts, idx))
    ensures forall x :: x in Elements(Picked(parts, idx)) ==>
      exists k :: k in idx && k < |parts| && x in Elements(parts[k])
  {
    if idx != [] {
      var head, rest := parts[idx[0]], idx[1..];
      PickedIsDistinct(parts, rest);
      forall x | x in Elements(Picked(parts, rest))
        ensures x !in Elements(head)
      {
        var k :| k in rest && k < |parts| && x in Elements(parts[k]);
        assert idx[0] < k;
      }
      DistinctAppend(head, Picked(parts, rest));
      assert forall k :: k in idx <==> k == idx[0] || k in rest;
    }
  }

  lemma {:induction false} PickedAppend(parts: seq<seq<string>>, a: seq<nat>, b: seq<nat>)
    requires Below(a, |parts|) && Below(b, |parts|)
    ensures Below(a + b, |parts|) && Picked(parts, a + b) == Picked(parts, a) + Picked(parts, b)
  {
    if a == [] {
      assert a + b == b;
    } else {
      PickedAppend(parts, a[1..], b);
      assert (a + b)[1..] == a[1..] + b;
      SeqAssociative(parts[a[0]], Picked(parts, a[1..]), Picked(parts, b));
    }
  }

  // ---- no turn is the empty string ----

  predicate NoEmptyStrings(turns: seq<Turn>) {
    forall t :: t in turns ==> t.content != WString("")
  }

  lemma {:induction false} EmitNoEmptyStrings(items: seq<Item>, e: Emitted)
    requires NoEmptyStrings(e.out) && forall it :: it in items && Carries(it) ==> TurnContent(it) != WString("")
    ensures NoEmptyStrings(Emit(items, e).out)
    decreases items
  {
    if items != [] {
      var it := items[0];
      assert it in items;
      if Carries(it) && IntoTurns(it, e.out) {
        AppendNoEmptyStrings(e.out, it.role, TurnContent(it));
      }
      EmitNoEmptyStrings(items[1..], Put(it, e));
    }
  }

  lemma {:induction false} AppendNoEmptyStrings(out: seq<Turn>, role: Role, content: WireContent)
    requires NoEmptyStrings(out) && content != WString("")
    ensures NoEmptyStrings(AppendTurn(out, role, content))
  {
  }

  lemma {:induction false} KeptAreMembers(out: seq<Turn>)
    ensures forall t :: t in Kept(out) ==> t in out
    decreases out
  {
    if out != [] {
      KeptAreMembers(out[1..]);
    }
  }

  lemma {:induction false} ItemIsNoEmptyString(messages: seq<Message>, i: nat)
    requires i < |messages| && Carries(ItemOf(messages, i))
    ensures TurnContent(ItemOf(messages, i)) != WString("")
  {
    ItemIsWellRendered(messages, i);
    var it := ItemOf(messages, i);
    if !IsConversation(it) {
      JoinIsNotEmpty(it.text);
    }
  }

  lemma {:induction false} EncodedHasNoEmptyStrings(messages: seq<Message>, instructions: Option<string>)
    ensures NoEmptyStrings(EncodedTurns(messages, instructions))
  {
    var items := Items(messages);
    forall it | it in items && Carries(it)
      ensures TurnContent(it) != WString("")
    {
      var i :| 0 <= i < |items| && items[i] == it;
      ItemAt(messages, i);
      ItemIsNoEmptyString(messages, i);
    }
    EmitNoEmptyStrings(items, Origin(instructions));
    PassIsEmission(messages, instructions);
    KeptAreMembers(Emit(items, Origin(instructions)).out);
  }

  // ---- the whole request ----

  function OnWireAll(turns: seq<Turn>): seq<Content> {
    if turns == [] then [] else [OnWire(turns[0].content)] + OnWireAll(turns[1..])
  }

  /** What a turn that holds these messages decodes to. */
  ghost function Back(messages: seq<Message>, turn: Turn, idx: seq<nat>): seq<Block>
    requires idx != [] && Below(idx, |messages|)
  {
    if turn.role == System then RunBack(Items(messages)[idx[0]].text)
    else NormalBlocks(ResultsThenOthers(SentBy(messages, idx)))
  }

  predicate Grouped(groups: seq<seq<nat>>, n: nat) {
    forall t :: 0 <= t < |groups| ==> groups[t] != [] && Below(groups[t], n)
  }

  ghost function BackAll(messages: seq<Message>, turns: seq<Turn>, groups: seq<seq<nat>>): seq<seq<Block>>
    requires |turns| == |groups| && Grouped(groups, |messages|)
  {
    if turns == [] then [] else [Back(messages, turns[0], groups[0])] + BackAll(messages, turns[1..], groups[1..])
  }

  lemma {:induction false} HoldingIsGrouped(messages: seq<Message>, turns: seq<Turn>, groups: seq<seq<nat>>)
    requires AllHold(Items(messages), turns, groups)
    ensures Grouped(groups, |messages|)
  {
    forall t | 0 <= t < |groups|
      ensures groups[t] != [] && Below(groups[t], |messages|)
    {
      assert Holds(Items(messages), turns[t], groups[t]);
    }
  }

  /** The messages of these turns are covered and carry something. */
  ghost predicate Readable(messages: seq<Message>, idx: seq<nat>) {
    && (forall m :: m in messages ==> AllCovered(m.content))
    && Below(idx, |messages|) && forall x :: x in idx ==> x < |messages| && Carries(Items(messages)[x])
  }

  lemma {:induction false} TurnDecodes(messages: seq<Message>, turn: Turn, idx: seq<nat>, ids: IDs)
    requires Holds(Items(messages), turn, idx) && Readable(messages, idx) && turn.content != WString("")
    requires Ready(Picked(SentCalls(messages), idx), ids)
    ensures ExplicitIDs(OnWire(turn.content)) == Picked(SentCalls(messages), idx)
    ensures Decode(OnWire(turn.content), ids)
            == Ok((Back(messages, turn, idx), Consumed(ids, Picked(SentCalls(messages), idx))))
  {
    if turn.role == System {
      var x := idx[0];
      assert x in idx;
      SystemTurnDecodes(messages, x, ids);
      OnePicked(SentCalls(messages), idx);
      assert ids.pre - Elements([]) == ids.pre;
    } else {
      CallsOfGroup(messages, idx);
      GroupStaysCovered(messages, idx);
      GroupDecodes(messages, turn, idx, ids);
    }
  }

  lemma {:induction false} OnePicked(parts: seq<seq<string>>, idx: seq<nat>)
    requires |idx| == 1 && Below(idx, |parts|)
    ensures Picked(parts, idx) == parts[idx[0]]
  {
    assert idx[1..] == [];
    assert parts[idx[0]] + [] == parts[idx[0]];
  }

  lemma {:induction false} SystemTurnDecodes(messages: seq<Message>, x: nat, ids: IDs)
    requires x < |messages| && Items(messages)[x].role == System && Carries(Items(messages)[x])
    ensures SentCalls(messages)[x] == []
    ensures ExplicitIDs(OnWire(TextContent(Items(messages)[x].text))) == []
    ensures Decode(OnWire(TextContent(Items(messages)[x].text)), ids) == Ok((RunBack(Items(messages)[x].text), ids))
  {
    ItemAt(messages, x);
    assert Sent(messages, x) == [];
    ItemIsWellRendered(messages, x);
    RunDecodes(Items(messages)[x].text, ids);
  }

  lemma {:induction false} TurnsDecode(messages: seq<Message>, turns: seq<Turn>, groups: seq<seq<nat>>, ids: IDs)
    requires AllHold(Items(messages), turns, groups) && Grouped(groups, |messages|)
    requires NoEmptyStrings(turns) && Readable(messages, Flatten(groups))
    requires Ready(Picked(SentCalls(messages), Flatten(groups)), ids)
    ensures ExplicitInAll(OnWireAll(turns)) == Picked(SentCalls(messages), Flatten(groups))
    ensures DecodeAll(OnWireAll(turns), ids)
            == Ok((BackAll(messages, turns, groups), Consumed(ids, Picked(SentCalls(messages), Flatten(groups)))))
    decreases turns
  {
    var parts := SentCalls(messages);
    if turns == [] {
      assert ids.pre - Elements([]) == ids.pre;
    } else {
      var idx, rest := groups[0], Flatten(groups[1..]);
      ReadableParts(messages, idx, rest);
      PickedAppend(parts, idx, rest);
      DistinctAppend(Picked(parts, idx), Picked(parts, rest));
      FirstTurnHolds(messages, turns, groups);
      TurnDecodes(messages, turns[0], idx, ids);
      var after := Consumed(ids, Picked(parts, idx));
      TurnsDecode(messages, turns[1..], groups[1..], after);
      ConsumedTwice(ids, Picked(parts, idx), Picked(parts, rest));
      DecodeAllCons(OnWire(turns[0].content), OnWireAll(turns[1..]), ids);
    }
  }

  lemma {:induction false} ConsumedTwice(ids: IDs, a: seq<string>, b: seq<string>)
    ensures Consumed(Consumed(ids, a), b) == Consumed(ids, a + b)
  {
    assert Elements(a + b) == Elements(a) + Elements(b);
  }

  lemma {:induction false} DecodeAllCons(content: Content, rest: seq<Content>, ids: IDs)
    ensures ExplicitInAll([content] + rest) == ExplicitIDs(content) + ExplicitInAll(rest)
    ensures Decode(content, ids).Ok? && DecodeAll(rest, Decode(content, ids).value.1).Ok? ==>
              var (blocks, mid) := Decode(content, ids).value;
              var (others, end) := DecodeAll(rest, mid).value;
              DecodeAll([content] + rest, ids) == Ok(([blocks] + others, end))
  {
    assert ([content] + rest)[1..] == rest;
  }

  lemma {:induction false} ReadableParts(messages: seq<Message>, a: seq<nat>, b: seq<nat>)
    requires Readable(messages, a + b)
    ensures Readable(messages, a) && Readable(messages, b)
  {
    assert forall x :: x in a || x in b <==> x in a + b;
    assert forall k :: 0 <= k < |a| ==> a[k] in a;
    assert forall k :: 0 <= k < |b| ==> b[k] in b;
  }

  lemma {:induction false} FirstTurnHolds(messages: seq<Message>, turns: seq<Turn>, groups: seq<seq<nat>>)
    requires turns != [] && AllHold(Items(messages), turns, groups)
    ensures Holds(Items(messages), turns[0], groups[0])
    ensures AllHold(Items(messages), turns[1..], groups[1..])
  {
    forall t | 0 <= t < |turns[1..]|
      ensures Holds(Items(messages), turns[1..][t], groups[1..][t])
    {
      assert turns[1..][t] == turns[t + 1] && groups[1..][t] == groups[t + 1];
    }
  }

  /** The trace says of each turn both which messages it holds and what it decodes to. */
  ghost predicate ComesBack(messages: seq<Message>, instructions: Option<string>, tr: Trace) {
    && Conserves(Items(messages), Origin(instructions).system, EncodedTurns(messages, instructions),
                 EncodedSystem(messages, instructions), tr)
    && Grouped(tr.turns, |messages|)
    && DecodeRequest(OnWireAll(EncodedTurns(messages, instructions)))
       == Ok(BackAll(messages, EncodedTurns(messages, instructions), tr.turns))
  }

  /**
   A history whose call ids are distinct, encoded as a whole and decoded: no turn
   is refused, and turn by turn the decoder gives the normal form, results first,
   of the blocks of exactly the messages that conservation places there.
   */
  lemma {:induction false} HistoryComesBack(messages: seq<Message>, instructions: Option<string>)
    requires forall m :: m in messages ==> AllCovered(m.content)
    requires Distinct(OwnCallsInAll(ContentsOf(messages)))
    ensures exists tr :: ComesBack(messages, instructions, tr)
  {
    Conservation(messages, instructions);
    var turns := EncodedTurns(messages, instructions);
    var tr :| Conserves(Items(messages), Origin(instructions).system, turns, EncodedSystem(messages, instructions), tr);
    EncodedHasNoEmptyStrings(messages, instructions);
    SentCallsAreDistinct(messages);
    HoldingIsGrouped(messages, turns, tr.turns);
    PlacedIsReadable(messages, tr);
    PickedIsDistinct(SentCalls(messages), Flatten(tr.turns));
    RequestDecodes(messages, turns, tr.turns);
    assert ComesBack(messages, instructions, tr);
  }

  lemma {:induction false} PlacedIsReadable(messages: seq<Message>, tr: Trace)
    requires PlacedOnce(Items(messages), tr) && forall m :: m in messages ==> AllCovered(m.content)
    ensures Readable(messages, Flatten(tr.turns))
  {
    var idx := Flatten(tr.turns);
    assert forall k :: 0 <= k < |idx| ==> idx[k] in idx;
  }

  lemma {:induction false} RequestDecodes(messages: seq<Message>, turns: seq<Turn>, groups: seq<seq<nat>>)
    requires AllHold(Items(messages), turns, groups) && Grouped(groups, |messages|)
    requires NoEmptyStrings(turns) && Readable(messages, Flatten(groups))
    requires Distinct(Picked(SentCalls(messages), Flatten(groups)))
    ensures DecodeRequest(OnWireAll(turns)) == Ok(BackAll(messages, turns, groups))
  {
    var empty, calls := IDs({}, {}), Picked(SentCalls(messages), Flatten(groups));
    var claimed := IDs({} + Elements(calls), {} + Elements(calls));
    TurnsDecode(messages, turns, groups, claimed);
    PreScanAllClaims(OnWireAll(turns), empty);
    assert Elements(calls) !! {};
  }
}
