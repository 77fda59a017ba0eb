/**
 Tool linkage through encodeAnthropicTurns: every tool_result that is emitted
 answers a tool_use of an earlier emitted turn, and the results that a history
 gives directly after a call open the very next turn.
 */
module AnthropicLinkage {
  import opened Wrappers
  import opened Sequences
  import opened AnthropicModel
  import opened AnthropicEncode
  import opened AnthropicTurns

  function UseIDs(blocks: seq<WireBlock>): set<string> {
    set b | b in blocks && b.WToolUse? :: b.id
  }

  function ResultIDs(blocks: seq<WireBlock>): set<string> {
    set b | b in blocks && b.WToolResult? :: b.toolUseID
  }

  function AnsweredIDs(content: seq<Block>): set<string> {
    set b | b in content && b.ToolResult? :: b.callID
  }

  function TurnUses(t: Turn): set<string> {
    if t.role == Assistant then UseIDs(ToBlocks(t.content)) else {}
  }

  function TurnResults(t: Turn): set<string> {
    ResultIDs(ToBlocks(t.content))
  }

  function Uses(turns: seq<Turn>): set<string> {
    if turns == [] then {} else TurnUses(turns[0]) + Uses(turns[1..])
  }

  /** Every result answers a tool_use of an earlier assistant turn, or one of ids. */
  ghost predicate LinkedAfter(ids: set<string>, turns: seq<Turn>)
    decreases turns
  {
    turns == [] ||
    (TurnResults(turns[0]) <= ids && LinkedAfter(ids + TurnUses(turns[0]), turns[1..]))
  }

  // ---- rendering keeps the ids ----

  lemma {:induction false} RenderedIDs(content: seq<Block>)
    ensures CallIDs(content) <= UseIDs(RenderAll(content))
    ensures ResultIDs(RenderAll(content)) == AnsweredIDs(content)
  {
    if content != [] {
      var head, tail := content[0], content[1..];
      RenderedIDs(tail);
      assert forall b :: b in content <==> b == head || b in tail;
      var h, t := RenderBlock(head), RenderAll(tail);
      assert forall w :: w in h + t <==> w in h || w in t;
      assert CallIDs(content) == CallIDs([head]) + CallIDs(tail);
      assert AnsweredIDs(content) == AnsweredIDs([head]) + AnsweredIDs(tail);
      assert UseIDs(h + t) == UseIDs(h) + UseIDs(t);
      assert ResultIDs(h + t) == ResultIDs(h) + ResultIDs(t);
      assert |h| <= 1;
    }
  }

  lemma {:induction false} PartitionKeepsMembers(blocks: seq<WireBlock>)
    ensures forall b :: b in ResultsFirst(blocks) <==> b in blocks
    ensures UseIDs(ResultsFirst(blocks)) == UseIDs(blocks)
    ensures ResultIDs(ResultsFirst(blocks)) == ResultIDs(blocks)
  {
    FilterMembers(IsToolResult, blocks);
    FilterMembers(IsOther, blocks);
  }

  lemma {:induction false} EncodedIDs(content: seq<Block>)
    ensures CallIDs(content) <= UseIDs(ToBlocks(EncodeContent(content)))
    ensures ResultIDs(ToBlocks(EncodeContent(content))) == AnsweredIDs(content)
  {
    if content != [] && !AllPlainText(content) {
      RenderedIDs(content);
      PartitionKeepsMembers(RenderAll(content));
    }
  }

  lemma {:induction false} MergedIDs(prev: WireContent, next: WireContent)
    ensures UseIDs(ToBlocks(MergeContent(prev, next))) == UseIDs(ToBlocks(prev)) + UseIDs(ToBlocks(next))
    ensures ResultIDs(ToBlocks(MergeContent(prev, next))) == ResultIDs(ToBlocks(prev)) + ResultIDs(ToBlocks(next))
  {
    var p, n := ToBlocks(prev), ToBlocks(next);
    PartitionKeepsMembers(p + n);
    assert forall b :: b in p + n <==> b in p || b in n;
  }

  // ---- appending turns ----

  lemma {:induction false} UsesAppend(a: seq<Turn>, b: seq<Turn>)
    ensures Uses(a + b) == Uses(a) + Uses(b)
  {
    if a == [] {
      assert a + b == b;
    } else {
      UsesAppend(a[1..], b);
      assert (a + b)[1..] == a[1..] + b && (a + b)[0] == a[0];
    }
  }

  lemma {:induction false} UsesSnoc(a: seq<Turn>, t: Turn)
    ensures Uses(a + [t]) == Uses(a) + TurnUses(t)
  {
    UsesAppend(a, [t]);
    assert [t][1..] == [];
  }

  lemma {:induction false} LinkedAppend(ids: set<string>, a: seq<Turn>, b: seq<Turn>)
    ensures LinkedAfter(ids, a + b) <==> LinkedAfter(ids, a) && LinkedAfter(ids + Uses(a), b)
    decreases a
  {
    if a == [] {
      assert a + b == b && ids + Uses(a) == ids;
    } else {
      LinkedAppend(ids + TurnUses(a[0]), a[1..], b);
      assert (a + b)[1..] == a[1..] + b && (a + b)[0] == a[0];
      assert ids + Uses(a) == ids + TurnUses(a[0]) + Uses(a[1..]);
    }
  }

  lemma {:induction false} LinkedSnoc(a: seq<Turn>, t: Turn)
    ensures LinkedAfter({}, a + [t]) <==> LinkedAfter({}, a) && TurnResults(t) <= Uses(a)
  {
    LinkedAppend({}, a, [t]);
    assert {} + Uses(a) == Uses(a);
    assert [t][1..] == [];
  }

  /** Appending a turn keeps the calls, adds its own, and stays linked if its results are answered. */
  lemma {:induction false} AppendLinked(out: seq<Turn>, role: Role, content: WireContent)
    requires LinkedAfter({}, out)
    requires ResultIDs(ToBlocks(content)) <= if role == User then Uses(out) else {}
    ensures LinkedAfter({}, AppendTurn(out, role, content))
    ensures Uses(AppendTurn(out, role, content)) == Uses(out) + TurnUses(Turn(role, content))
  {
    if !content.WNil? {
      if LastRole(out) == Some(role) {
        var front, last := out[..|out| - 1], out[|out| - 1];
        assert out == front + [last];
        var merged := Turn(role, MergeContent(last.content, content));
        MergedIDs(last.content, content);
        LinkedSnoc(front, last);
        UsesSnoc(front, last);
        LinkedSnoc(front, merged);
        UsesSnoc(front, merged);
      } else {
        LinkedSnoc(out, Turn(role, content));
        UsesSnoc(out, Turn(role, content));
      }
    }
  }

  // ---- the pass ----

  /** The ids that assistant messages before i have called. */
  ghost function EarlierCalls(messages: seq<Message>, i: nat): set<string>
    requires i <= |messages|
  {
    set j, id | 0 <= j < i && messages[j].role == Assistant && id in CallIDs(messages[j].content) :: id
  }

  /** Every tool result of a conversation message is a user's and answers an earlier assistant's call. */
  ghost predicate ResultsAnswerCalls(messages: seq<Message>) {
    forall i :: 0 <= i < |messages| && messages[i].role in {User, Assistant} ==>
      AnsweredIDs(messages[i].content) <= if messages[i].role == User then EarlierCalls(messages, i) else {}
  }

  ghost predicate LinkState(messages: seq<Message>, i: nat, st: State)
    requires i <= |messages|
  {
    LinkedAfter({}, st.out) && EarlierCalls(messages, i) <= Uses(st.out) + st.dropped
  }

  lemma {:induction false} EarlierCallsNext(messages: seq<Message>, i: nat)
    requires i < |messages|
    ensures EarlierCalls(messages, Next(messages, i)) ==
            EarlierCalls(messages, i) + if messages[i].role == Assistant then CallIDs(messages[i].content) else {}
  {
    assert forall j :: i < j < Next(messages, i) ==> messages[j].role == System;
  }

  lemma {:induction false} DropOrphansIDs(content: seq<Block>, dropped: set<string>)
    ensures AnsweredIDs(DropOrphans(content, dropped)) == AnsweredIDs(content) - dropped
  {
    FilterMembers(NotOrphan(dropped), content);
  }

  lemma {:induction false} SystemHasNoIDs(messages: seq<Message>, i: nat, end: nat)
    requires i <= end <= |messages|
    ensures ResultIDs(ToBlocks(TextContent(RunBlocks(messages, i, end)))) == {}
  {
    RunBlocksAreText(messages, i, end);
  }

  lemma {:induction false} SystemTextIsText(content: seq<Block>)
    ensures forall b :: b in SystemTextBlocks(content) ==> b.WText? && b.text != ""
  {
    if content != [] {
      SystemTextIsText(content[1..]);
    }
  }

  lemma {:induction false} RunBlocksAreText(messages: seq<Message>, i: nat, end: nat)
    requires i <= end <= |messages|
    ensures forall b :: b in RunBlocks(messages, i, end) ==> b.WText? && b.text != ""
    decreases end - i
  {
    if i < end {
      SystemTextIsText(messages[i].content);
      RunBlocksAreText(messages, i + 1, end);
    }
  }

  lemma {:induction false} StepLinked(messages: seq<Message>, i: nat, st: State)
    requires i < |messages| && ResultsAnswerCalls(messages) && LinkState(messages, i, st)
    ensures LinkState(messages, Next(messages, i), Step(messages, i, st))
  {
    var m := messages[i];
    EarlierCallsNext(messages, i);
    match m.role
    case System =>
      var end := RunEnd(messages, i + 1);
      if StaysFor(st.out, messages, end) {
        SystemHasNoIDs(messages, i, end);
        AppendLinked(st.out, System, TextContent(RunBlocks(messages, i, end)));
      }
    case Developer =>
    case Assistant =>
      if st.out != [] {
        EncodedIDs(m.content);
        AppendLinked(st.out, Assistant, EncodeContent(m.content));
      }
    case User =>
      var content := DropOrphans(m.content, st.dropped);
      DropOrphansIDs(m.content, st.dropped);
      EncodedIDs(content);
      AppendLinked(st.out, User, EncodeContent(content));
  }

  lemma {:induction false} PassLinked(messages: seq<Message>, i: nat, st: State)
    requires i <= |messages| && ResultsAnswerCalls(messages) && LinkState(messages, i, st)
    ensures LinkedAfter({}, Pass(messages, i, st).out)
    decreases |messages| - i
  {
    if i < |messages| {
      StepLinked(messages, i, st);
      PassLinked(messages, Next(messages, i), Step(messages, i, st));
    }
  }

  /** Lifting system turns disturbs no link: a system turn holds no tool_use. */
  lemma {:induction false} KeptLinked(ids: set<string>, out: seq<Turn>)
    requires LinkedAfter(ids, out)
    ensures LinkedAfter(ids, Kept(out))
    decreases out
  {
    if out != [] {
      KeptLinked(ids + TurnUses(out[0]), out[1..]);
      if Misplaced(out) {
        assert ids + TurnUses(out[0]) == ids;
      }
    }
  }

  lemma {:induction false} LinkedMeans(ids: set<string>, turns: seq<Turn>, t: nat, id: string)
    requires LinkedAfter(ids, turns) && t < |turns| && id in TurnResults(turns[t])
    ensures id in ids || exists u :: 0 <= u < t && turns[u].role == Assistant && id in TurnUses(turns[u])
    decreases t
  {
    if t > 0 {
      LinkedMeans(ids + TurnUses(turns[0]), turns[1..], t - 1, id);
      if id !in ids {
        if id !in TurnUses(turns[0]) {
          var u :| 0 <= u < t - 1 && turns[1..][u].role == Assistant && id in TurnUses(turns[1..][u]);
          assert turns[u + 1].role == Assistant && id in TurnUses(turns[u + 1]);
        }
      }
    }
  }

  /** No emitted tool_result is an orphan, whatever leading assistant turns were dropped. */
  lemma {:induction false} ToolLinkage(messages: seq<Message>, instructions: Option<string>)
    requires ResultsAnswerCalls(messages)
    ensures var turns := EncodedTurns(messages, instructions);
            forall t, id :: 0 <= t < |turns| && id in TurnResults(turns[t]) ==>
              exists u :: 0 <= u < t && turns[u].role == Assistant && id in TurnUses(turns[u])
  {
    var st := Start(instructions);
    assert EarlierCalls(messages, 0) == {};
    PassLinked(messages, 0, st);
    KeptLinked({}, Pass(messages, 0, st).out);
    var turns := EncodedTurns(messages, instructions);
    forall t, id | 0 <= t < |turns| && id in TurnResults(turns[t])
      ensures exists u :: 0 <= u < t && turns[u].role == Assistant && id in TurnUses(turns[u])
    {
      LinkedMeans({}, turns, t, id);
    }
  }
}
