/**
 Where the system texts of a history go, told of its blocks: the instructions and
 the non-empty texts of system and developer messages, each said once.
 */
module AnthropicSystem {
  import opened Wrappers
  import opened Sequences
  import opened AnthropicModel
  import opened AnthropicEncode
  import opened AnthropicTurns
  import opened AnthropicItems
  import opened AnthropicConservation

  // ---- the texts of the source ----

  /** The kinds of citation that the Messages API knows. */
  predicate AnthropicKind(c: Citation) {
    || c.kind == "char_location" || c.kind == "page_location" || c.kind == "content_block_location"
    || c.kind == "web_search_result_location" || c.kind == "search_result_location"
  }

  predicate Says(b: Block) {
    b.Text? && b.text != ""
  }

  /** A text with its breakpoint and those of its citations that the API knows. */
  predicate Spells(b: Block, w: WireBlock) {
    && b.Text? && w.WText? && w.text == b.text && w.cache == b.cache
    && w.citations == Filter(AnthropicKind, b.citations)
  }

  /** These wire texts are those of the blocks, one for each block that says something, in order. */
  predicate SpellsAll(blocks: seq<Block>, ws: seq<WireBlock>) {
    var saying := Filter(Says, blocks);
    |ws| == |saying| && forall k :: 0 <= k < |ws| ==> Spells(saying[k], ws[k])
  }

  /** The blocks of the messages from i to the one before end, one message after the other. */
  function BlocksBetween(messages: seq<Message>, i: nat, end: nat): seq<Block>
    requires i <= end <= |messages|
    decreases end - i
  {
    if i == end then [] else messages[i].content + BlocksBetween(messages, i + 1, end)
  }

  /** The messages whose texts go together: a developer message alone, or the system messages in a row from x on. */
  ghost predicate Together(messages: seq<Message>, x: nat, end: nat) {
    && x < end <= |messages|
    && if messages[x].role == Developer then end == x + 1
       else
         && (forall k :: x <= k < end ==> messages[k].role == System)
         && (x == 0 || messages[x - 1].role != System)
         && (end == |messages| || messages[end].role != System)
  }

  lemma {:induction false} CitationKinds(citations: seq<Citation>)
    ensures Filter(IsAnthropicCitation, citations) == Filter(AnthropicKind, citations)
  {
    if citations != [] {
      CitationKinds(citations[1..]);
    }
  }

  lemma {:induction false} BlockSpells(b: Block)
    ensures SpellsAll([b], RenderSystemBlock(b))
  {
    assert [b][1..] == [];
    assert Filter(Says, [b]) == if Says(b) then [b] + Filter(Says, []) else Filter(Says, []);
    if b.Text? {
      CitationKinds(b.citations);
    }
  }

  lemma {:induction false} SpellsAppend(a: seq<Block>, b: seq<Block>, v: seq<WireBlock>, w: seq<WireBlock>)
    requires SpellsAll(a, v) && SpellsAll(b, w)
    ensures SpellsAll(a + b, v + w)
  {
    FilterAppend(Says, a, b);
  }

  lemma {:induction false} ContentSpells(content: seq<Block>)
    ensures SpellsAll(content, SystemTextBlocks(content))
  {
    if content != [] {
      BlockSpells(content[0]);
      ContentSpells(content[1..]);
      SpellsAppend([content[0]], content[1..], RenderSystemBlock(content[0]), SystemTextBlocks(content[1..]));
      assert [content[0]] + content[1..] == content;
    }
  }

  lemma {:induction false} RunSpells(messages: seq<Message>, i: nat, end: nat)
    requires i <= end <= |messages|
    ensures SpellsAll(BlocksBetween(messages, i, end), RunBlocks(messages, i, end))
    decreases end - i
  {
    if i < end {
      ContentSpells(messages[i].content);
      RunSpells(messages, i + 1, end);
      SpellsAppend(messages[i].content, BlocksBetween(messages, i + 1, end),
                   SystemTextBlocks(messages[i].content), RunBlocks(messages, i + 1, end));
    }
  }

  /** What item x brings is what the messages that go together at x say. */
  lemma {:induction false} ItemSpells(messages: seq<Message>, x: nat, end: nat)
    requires Together(messages, x, end)
    ensures SpellsAll(BlocksBetween(messages, x, end), Items(messages)[x].text)
    ensures Items(messages)[x].role == messages[x].role
  {
    ItemAt(messages, x);
    if messages[x].role == Developer {
      ContentSpells(messages[x].content);
      assert messages[x].content + BlocksBetween(messages, x + 1, end) == messages[x].content;
    } else {
      RunEndIs(messages, x + 1, end);
      RunSpells(messages, x, end);
    }
  }

  lemma {:induction false} RunEndIs(messages: seq<Message>, i: nat, end: nat)
    requires i <= end <= |messages| && forall k :: i <= k < end ==> messages[k].role == System
    requires end == |messages| || messages[end].role != System
    ensures RunEnd(messages, i) == end
    decreases end - i
  {
    if i < end {
      RunEndIs(messages, i + 1, end);
    }
  }

  // ---- the forms that carry them ----

  predicate Marked(ws: seq<WireBlock>) {
    exists w :: w in ws && w.WText? && (w.cache.Some? || w.citations != [])
  }

  /** Content that says these texts: as blocks when one of them is marked, as their join otherwise. */
  predicate Conveys(content: WireContent, ws: seq<WireBlock>) {
    match content
    case WNil => ws == []
    case WString(s) => ws != [] && !Marked(ws) && s == Join(Texts(ws), "\n\n")
    case WBlocks(blocks) => Marked(ws) && blocks == ws
  }

  /** What a run becomes that had been a turn: its blocks when one is marked, otherwise one text. */
  function AfterLifting(ws: seq<WireBlock>): seq<WireBlock> {
    if Marked(ws) then ws else [WText(Join(Texts(ws), "\n\n"), None, [])]
  }

  function At(said: seq<seq<WireBlock>>, idx: seq<nat>): seq<WireBlock>
    requires Below(idx, |said|)
  {
    if idx == [] then [] else said[idx[0]] + At(said, idx[1..])
  }

  function LiftedAt(said: seq<seq<WireBlock>>, idx: seq<nat>): seq<WireBlock>
    requires Below(idx, |said|)
  {
    if idx == [] then [] else AfterLifting(said[idx[0]]) + LiftedAt(said, idx[1..])
  }

  function Instructed(instructions: Option<string>): seq<WireBlock> {
    match instructions
    case None => []
    case Some(text) => if text == "" then [] else [WText(text, None, [])]
  }

  lemma {:induction false} ContentConveys(ws: seq<WireBlock>)
    ensures Conveys(TextContent(ws), ws)
  {
    if exists w :: w in ws && HasMarkers(w) {
      var w :| w in ws && HasMarkers(w);
    }
  }

  lemma {:induction false} LiftedIs(ws: seq<WireBlock>)
    requires ws != [] && forall w :: w in ws ==> w.WText? && w.text != ""
    ensures SystemBlocksOf(TextContent(ws)) == AfterLifting(ws)
  {
    ContentConveys(ws);
    assert ws[0] in ws;
    assert Texts(ws) == [ws[0].text] + Texts(ws[1..]);
  }

  lemma {:induction false} TextsAt(items: seq<Item>, said: seq<seq<WireBlock>>, idx: seq<nat>)
    requires |said| == |items| && Below(idx, |items|) && forall x :: 0 <= x < |items| ==> said[x] == items[x].text
    requires forall k :: 0 <= k < |idx| ==> items[idx[k]].text != [] && WellRendered(items[idx[k]])
    ensures TextOf(items, idx) == At(said, idx) && LiftedTextOf(items, idx) == LiftedAt(said, idx)
  {
    if idx != [] {
      LiftedIs(items[idx[0]].text);
      TextsAt(items, said, idx[1..]);
    }
  }

  // ---- the theorem ----

  predicate IsSystemly(m: Message) {
    m.role == System || m.role == Developer
  }

  predicate SaysSomething(m: Message) {
    exists b :: b in m.content && Says(b)
  }

  /** x stands in exactly one of the three places, and there once. */
  ghost predicate StandsOnce(tr: Trace, x: nat) {
    && Increasing(tr.top) && Increasing(tr.late) && Increasing(Flatten(tr.turns))
    && (x in tr.top || x in tr.late || x in Flatten(tr.turns))
    && !(x in tr.top && x in tr.late) && !(x in tr.top && x in Flatten(tr.turns))
    && !(x in tr.late && x in Flatten(tr.turns))
  }

  /** The group of messages that message i belongs to. */
  ghost predicate InGroup(messages: seq<Message>, i: nat, x: nat, end: nat) {
    Together(messages, x, end) && x <= i < end
  }

  /** said[x] is what the group of messages at x says, and a group that says something stands once. */
  ghost predicate GroupsSaid(messages: seq<Message>, said: seq<seq<WireBlock>>, tr: Trace) {
    && |said| == |messages|
    && (forall x: nat, end: nat :: Together(messages, x, end) && IsSystemly(messages[x]) ==>
          SpellsAll(BlocksBetween(messages, x, end), said[x]))
    && (forall i: nat :: i < |messages| && IsSystemly(messages[i]) && SaysSomething(messages[i]) ==>
          exists x, end :: InGroup(messages, i, x, end) && StandsOnce(tr, x))
  }

  /** A group of system or developer messages begins at x. */
  ghost predicate OpensGroup(messages: seq<Message>, x: nat) {
    x < |messages| && IsSystemly(messages[x]) && exists end :: Together(messages, x, end)
  }

  /** A system turn says what one run of system messages says, and no other turn holds system text. */
  ghost predicate TurnSays(messages: seq<Message>, turn: Turn, said: seq<seq<WireBlock>>, group: seq<nat>) {
    if turn.role == System then
      && |group| == 1 && group[0] < |said| && OpensGroup(messages, group[0])
      && messages[group[0]].role == System && Conveys(turn.content, said[group[0]])
    else forall x :: x in group ==> x < |messages| && !IsSystemly(messages[x])
  }

  ghost predicate TurnsSay(messages: seq<Message>, turns: seq<Turn>, said: seq<seq<WireBlock>>, groups: seq<seq<nat>>) {
    |groups| == |turns| && forall t :: 0 <= t < |turns| ==> TurnSays(messages, turns[t], said, groups[t])
  }

  /** The system field says the instructions, then the groups of top, then those that had been turns. */
  ghost predicate FieldSays(messages: seq<Message>, instructions: Option<string>, system: WireContent,
                            said: seq<seq<WireBlock>>, top: seq<nat>, late: seq<nat>)
  {
    && Below(top, |said|) && Below(late, |said|)
    && (forall x :: x in top || x in late ==> OpensGroup(messages, x))
    && Conveys(system, Instructed(instructions) + At(said, top) + LiftedAt(said, late))
  }

  /**
   Every message that says something belongs to a group that stands once: in the
   system field, after the instructions and before the lifted runs, in source
   order; among the lifted runs there; or as a system turn of its own.
   */
  ghost predicate SaidOnce(messages: seq<Message>, instructions: Option<string>, turns: seq<Turn>, system: WireContent,
                           said: seq<seq<WireBlock>>, tr: Trace)
  {
    && GroupsSaid(messages, said, tr)
    && TurnsSay(messages, turns, said, tr.turns)
    && FieldSays(messages, instructions, system, said, tr.top, tr.late)
  }

  /** The start and the end of the group of a system or developer message. */
  lemma {:induction false} GroupOf(messages: seq<Message>, i: nat) returns (x: nat, end: nat)
    requires i < |messages| && IsSystemly(messages[i])
    ensures InGroup(messages, i, x, end)
  {
    if messages[i].role == Developer {
      return i, i + 1;
    }
    x := i;
    while x > 0 && messages[x - 1].role == System
      invariant x <= i && forall k :: x <= k <= i ==> messages[k].role == System
    {
      x := x - 1;
    }
    end := RunEnd(messages, i);
  }

  lemma {:induction false} SayingStays(messages: seq<Message>, i: nat, end: nat, j: nat)
    requires i <= j < end <= |messages| && SaysSomething(messages[j])
    ensures exists b :: b in BlocksBetween(messages, i, end) && Says(b)
    decreases end - i
  {
    var b :| b in messages[j].content && Says(b);
    if i < j {
      SayingStays(messages, i + 1, end, j);
      var c :| c in BlocksBetween(messages, i + 1, end) && Says(c);
      assert c in BlocksBetween(messages, i, end);
    } else {
      assert b in BlocksBetween(messages, i, end);
    }
  }

  /** A group that says something carries it. */
  lemma {:induction false} GroupCarries(messages: seq<Message>, i: nat, x: nat, end: nat)
    requires InGroup(messages, i, x, end) && IsSystemly(messages[x]) && SaysSomething(messages[i])
    ensures Carries(Items(messages)[x])
  {
    ItemSpells(messages, x, end);
    SayingStays(messages, x, end, i);
    var b :| b in BlocksBetween(messages, x, end) && Says(b);
    FilterMembers(Says, BlocksBetween(messages, x, end));
    assert b in Filter(Says, BlocksBetween(messages, x, end));
  }

  ghost predicate AllCarry(items: seq<Item>, idx: seq<nat>) {
    forall x :: x in idx ==> x < |items| && Carries(items[x])
  }

  lemma {:induction false} GroupsAllCarry(items: seq<Item>, groups: seq<seq<nat>>, t: nat)
    requires AllCarry(items, Flatten(groups)) && t < |groups|
    ensures AllCarry(items, groups[t])
  {
    var head, rest := groups[0], Flatten(groups[1..]);
    assert forall x :: x in head || x in rest ==> x in head + rest;
    if t > 0 {
      assert groups[t] == groups[1..][t - 1];
      GroupsAllCarry(items, groups[1..], t - 1);
    }
  }

  function SaidBy(items: seq<Item>): (said: seq<seq<WireBlock>>)
    ensures |said| == |items| && forall x :: 0 <= x < |items| ==> said[x] == items[x].text
  {
    seq(|items|, x requires 0 <= x < |items| => items[x].text)
  }

  /** Only the start of a group brings system text. */
  lemma {:induction false} CarriersOpen(messages: seq<Message>, x: nat)
    requires x < |messages| && Carries(Items(messages)[x]) && !IsConversation(Items(messages)[x])
    ensures OpensGroup(messages, x)
  {
    ItemAt(messages, x);
    var end := if messages[x].role == Developer then x + 1 else RunEnd(messages, x + 1);
    assert Together(messages, x, end);
  }

  lemma {:induction false} OwnTurnSays(messages: seq<Message>, turn: Turn, said: seq<seq<WireBlock>>, group: seq<nat>)
    requires said == SaidBy(Items(messages)) && Holds(Items(messages), turn, group) && turn.role == System
    requires AllCarry(Items(messages), group)
    ensures TurnSays(messages, turn, said, group)
  {
    assert group[0] in group;
    ItemRoles(messages);
    CarriersOpen(messages, group[0]);
    ContentConveys(Items(messages)[group[0]].text);
  }

  lemma {:induction false} OtherTurnSays(messages: seq<Message>, turn: Turn, said: seq<seq<WireBlock>>, group: seq<nat>)
    requires Holds(Items(messages), turn, group) && turn.role != System && turn.role != Developer
    ensures TurnSays(messages, turn, said, group)
  {
    ItemRoles(messages);
    forall x | x in group
      ensures x < |messages| && !IsSystemly(messages[x])
    {
      var k :| 0 <= k < |group| && group[k] == x;
      assert Items(messages)[group[k]].role == turn.role;
    }
  }

  lemma {:induction false} TurnsAreSaid(messages: seq<Message>, turns: seq<Turn>, said: seq<seq<WireBlock>>,
                                        groups: seq<seq<nat>>)
    requires said == SaidBy(Items(messages)) && AllHold(Items(messages), turns, groups)
    requires AllCarry(Items(messages), Flatten(groups))
    requires forall t :: 0 <= t < |turns| ==> turns[t].role != Developer
    ensures TurnsSay(messages, turns, said, groups)
  {
    forall t | 0 <= t < |turns|
      ensures TurnSays(messages, turns[t], said, groups[t])
    {
      if turns[t].role == System {
        GroupsAllCarry(Items(messages), groups, t);
        OwnTurnSays(messages, turns[t], said, groups[t]);
      } else {
        OtherTurnSays(messages, turns[t], said, groups[t]);
      }
    }
  }

  lemma {:induction false} GroupsStandOnce(messages: seq<Message>, tr: Trace, i: nat)
    requires PlacedOnce(Items(messages), tr)
    requires i < |messages| && IsSystemly(messages[i]) && SaysSomething(messages[i])
    ensures exists x, end :: InGroup(messages, i, x, end) && StandsOnce(tr, x)
  {
    var x, end := GroupOf(messages, i);
    GroupCarries(messages, i, x, end);
    assert InGroup(messages, i, x, end) && StandsOnce(tr, x);
  }

  lemma {:induction false} PlacedTextsAreWhole(messages: seq<Message>, idx: seq<nat>)
    requires Below(idx, |messages|)
    requires forall k :: 0 <= k < |idx| ==> Carries(Items(messages)[idx[k]]) && IsSystemly(messages[idx[k]])
    ensures forall k :: 0 <= k < |idx| ==>
              Items(messages)[idx[k]].text != [] && WellRendered(Items(messages)[idx[k]])
  {
    ItemRoles(messages);
    forall k | 0 <= k < |idx|
      ensures Items(messages)[idx[k]].text != [] && WellRendered(Items(messages)[idx[k]])
    {
      ItemAt(messages, idx[k]);
      ItemIsWellRendered(messages, idx[k]);
    }
  }

  lemma {:induction false} PlacedTextsAre(messages: seq<Message>, said: seq<seq<WireBlock>>, idx: seq<nat>)
    requires said == SaidBy(Items(messages)) && Below(idx, |messages|)
    requires forall x :: x in idx ==> Carries(Items(messages)[x]) && !IsConversation(Items(messages)[x])
    ensures TextOf(Items(messages), idx) == At(said, idx) && LiftedTextOf(Items(messages), idx) == LiftedAt(said, idx)
  {
    ItemRoles(messages);
    assert forall k :: 0 <= k < |idx| ==> idx[k] in idx;
    PlacedTextsAreWhole(messages, idx);
    TextsAt(Items(messages), said, idx);
  }

  lemma {:induction false} SystemFieldConveys(messages: seq<Message>, instructions: Option<string>, system: WireContent,
                                              said: seq<seq<WireBlock>>, tr: Trace)
    requires said == SaidBy(Items(messages)) && PlacedOnce(Items(messages), tr)
    requires system == TextContent(Origin(instructions).system + TextOf(Items(messages), tr.top)
                                   + LiftedTextOf(Items(messages), tr.late))
    ensures FieldSays(messages, instructions, system, said, tr.top, tr.late)
  {
    forall x | x in tr.top || x in tr.late
      ensures OpensGroup(messages, x)
    {
      CarriersOpen(messages, x);
    }
    PlacedTextsAre(messages, said, tr.top);
    PlacedTextsAre(messages, said, tr.late);
    ContentConveys(Instructed(instructions) + At(said, tr.top) + LiftedAt(said, tr.late));
  }

  lemma {:induction false} GroupsAreSaid(messages: seq<Message>, said: seq<seq<WireBlock>>, tr: Trace)
    requires said == SaidBy(Items(messages)) && PlacedOnce(Items(messages), tr)
    ensures GroupsSaid(messages, said, tr)
  {
    forall x: nat, end: nat | Together(messages, x, end) && IsSystemly(messages[x])
      ensures SpellsAll(BlocksBetween(messages, x, end), said[x])
    {
      ItemSpells(messages, x, end);
    }
    forall i: nat | i < |messages| && IsSystemly(messages[i]) && SaysSomething(messages[i])
      ensures exists x, end :: InGroup(messages, i, x, end) && StandsOnce(tr, x)
    {
      GroupsStandOnce(messages, tr, i);
    }
  }

  lemma {:induction false} EachIsSaid(messages: seq<Message>, instructions: Option<string>, turns: seq<Turn>,
                                      system: WireContent, said: seq<seq<WireBlock>>, tr: Trace)
    requires said == SaidBy(Items(messages)) && turns == EncodedTurns(messages, instructions)
    requires Conserves(Items(messages), Origin(instructions).system, turns, system, tr)
    ensures SaidOnce(messages, instructions, turns, system, said, tr)
  {
    GroupsAreSaid(messages, said, tr);
    SystemFieldConveys(messages, instructions, system, said, tr);
    Placement(messages, instructions);
    TurnsAreSaid(messages, turns, said, tr.turns);
  }

  /**
   Whatever the history and the instructions: each text of a system or developer
   message, and the instructions, is said exactly once, whole and in order.
   */
  lemma {:induction false} SystemTextsArePlaced(messages: seq<Message>, instructions: Option<string>)
    ensures exists said, tr :: SaidOnce(messages, instructions, EncodedTurns(messages, instructions),
                                        EncodedSystem(messages, instructions), said, tr)
  {
    var said := SaidBy(Items(messages));
    var turns, system := EncodedTurns(messages, instructions), EncodedSystem(messages, instructions);
    Conservation(messages, instructions);
    var tr :| Conserves(Items(messages), Origin(instructions).system, turns, system, tr);
    EachIsSaid(messages, instructions, turns, system, said, tr);
  }
}
