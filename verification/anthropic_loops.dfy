/**
 The loops of encodeAnthropicTurns and its helpers. Each is proved to compute the
 function of AnthropicTurns of the same purpose; the post-pass filters in place.
 */
module AnthropicLoops {
  import opened Wrappers
  import opened Sequences
  import opened AnthropicModel
  import opened AnthropicEncode
  import opened AnthropicTurns
  import opened AnthropicConservation

  lemma {:induction false} SystemTextSnoc(content: seq<Block>, i: nat)
    requires i < |content|
    ensures SystemTextBlocks(content[..i + 1]) == SystemTextBlocks(content[..i]) + RenderSystemBlock(content[i])
    decreases i
  {
    if i > 0 {
      SystemTextSnoc(content[1..], i - 1);
      assert content[..i + 1][1..] == content[1..][..i] && content[..i][1..] == content[1..][..i - 1];
    }
  }

  /** anthropicSystemTextBlocks. */
  method EncodeSystemText(content: seq<Block>) returns (blocks: seq<WireBlock>)
    ensures blocks == SystemTextBlocks(content)
  {
    blocks := [];
    for i := 0 to |content|
      invariant blocks == SystemTextBlocks(content[..i])
    {
      SystemTextSnoc(content, i);
      var b := content[i];
      if b.Text? && b.text != "" {
        blocks := blocks + [WText(b.text, b.cache, Filter(IsAnthropicCitation, b.citations))];
      }
    }
    assert content[..|content|] == content;
  }

  /** anthropicTextContent: one block with a marker forces the array form. */
  method EncodeTextContent(blocks: seq<WireBlock>) returns (content: WireContent)
    ensures content == TextContent(blocks)
  {
    if blocks == [] {
      return WNil;
    }
    for i := 0 to |blocks|
      invariant forall b :: b in blocks[..i] ==> !HasMarkers(b)
    {
      if HasMarkers(blocks[i]) {
        return WBlocks(blocks);
      }
    }
    var parts := [];
    for i := 0 to |blocks|
      invariant parts == Texts(blocks[..i])
    {
      assert blocks[..i + 1] == blocks[..i] + [blocks[i]];
      TextsAppend(blocks[..i], [blocks[i]]);
      if blocks[i].WText? {
        parts := parts + [blocks[i].text];
      }
    }
    assert blocks[..|blocks|] == blocks;
    content := WString(Join(parts, SYSTEM_SEPARATOR));
  }

  /** appendAnthropicTurn: merging appends the later content and restores results-first order. */
  method AppendAnthropicTurn(out: seq<Turn>, role: Role, content: WireContent) returns (result: seq<Turn>)
    ensures result == AppendTurn(out, role, content)
  {
    if content.WNil? {
      return out;
    }
    var n := |out|;
    if n > 0 && out[n - 1].role == role {
      var ordered, moved := OrderRenderedResultsFirst(ToBlocks(out[n - 1].content) + ToBlocks(content));
      result := out[n - 1 := Turn(role, WBlocks(ordered))];
    } else {
      result := out + [Turn(role, content)];
    }
  }

  lemma {:induction false} RunBlocksSnoc(messages: seq<Message>, i: nat, j: nat)
    requires i <= j < |messages|
    ensures RunBlocks(messages, i, j + 1) == RunBlocks(messages, i, j) + SystemTextBlocks(messages[j].content)
    decreases j - i
  {
    if i < j {
      RunBlocksSnoc(messages, i + 1, j);
    }
  }

  /** The end of the system run at i, and the text of the whole run. */
  method CollectRun(messages: seq<Message>, i: nat) returns (end: nat, blocks: seq<WireBlock>)
    requires i < |messages| && messages[i].role == System
    ensures end == RunEnd(messages, i + 1)
    ensures blocks == RunBlocks(messages, i, end)
  {
    end := i + 1;
    while end < |messages| && messages[end].role == System
      invariant i < end <= |messages|
      invariant RunEnd(messages, end) == RunEnd(messages, i + 1)
    {
      end := end + 1;
    }
    blocks := [];
    for j := i to end
      invariant blocks == RunBlocks(messages, i, j)
    {
      RunBlocksSnoc(messages, i, j);
      var text := EncodeSystemText(messages[j].content);
      blocks := blocks + text;
    }
  }

  method CollectCalls(content: seq<Block>, dropped: set<string>) returns (result: set<string>)
    ensures result == dropped + CallIDs(content)
  {
    result := dropped;
    for i := 0 to |content|
      invariant result == dropped + CallIDs(content[..i])
    {
      assert content[..i + 1] == content[..i] + [content[i]];
      assert forall b :: b in content[..i + 1] <==> b in content[..i] || b == content[i];
      if content[i].ToolCall? && content[i].id != "" {
        result := result + {content[i].id};
      }
    }
    assert content[..|content|] == content;
  }

  /** The orphan filter of a user turn. */
  method FilterOrphans(content: seq<Block>, dropped: set<string>) returns (filtered: seq<Block>)
    ensures filtered == DropOrphans(content, dropped)
  {
    filtered := [];
    for i := 0 to |content|
      invariant filtered == Filter(NotOrphan(dropped), content[..i])
    {
      FilterSnoc(NotOrphan(dropped), content, i);
      if content[i].ToolResult? && content[i].callID in dropped {
        continue;
      }
      filtered := filtered + [content[i]];
    }
    assert content[..|content|] == content;
  }

  /** One turn of the filter. */
  lemma {:induction false} FilterStep(was: seq<Turn>, i: nat)
    requires i < |was|
    ensures var lifted := was[i].role == System && i + 1 < |was| && was[i + 1].role != Assistant;
            && Kept(was[i..]) == (if lifted then [] else [was[i]]) + Kept(was[i + 1..])
            && Lifted(was[i..]) == (if lifted then SystemBlocksOf(was[i].content) else []) + Lifted(was[i + 1..])
  {
    var rest := was[i..];
    assert rest[0] == was[i] && rest[1..] == was[i + 1..] && (i + 1 < |was| ==> rest[1] == was[i + 1]);
    assert [] + Kept(was[i + 1..]) == Kept(was[i + 1..]) && [] + Lifted(was[i + 1..]) == Lifted(was[i + 1..]);
  }

  /**
   liftMisplacedAnthropicSystemRuns: kept turns are written over the array that
   is still being read. The write index never passes the read index, so the
   array ends as the functional filter of what it held.
   */
  method LiftMisplacedRuns(out: array<Turn>, system: seq<WireBlock>)
    returns (kept: nat, system': seq<WireBlock>)
    modifies out
    ensures kept <= out.Length
    ensures out[..kept] == Kept(old(out[..]))
    ensures system' == system + Lifted(old(out[..]))
  {
    ghost var was := out[..];
    kept, system' := 0, system;
    assert was[0..] == was;
    for i := 0 to out.Length
      invariant kept <= i
      invariant out[i..] == was[i..]
      invariant out[..kept] + Kept(was[i..]) == Kept(was)
      invariant system' + Lifted(was[i..]) == system + Lifted(was)
    {
      var turn := out[i];
      assert turn == was[i] && (i + 1 < out.Length ==> out[i + 1] == out[i..][1] == was[i..][1] == was[i + 1]);
      FilterStep(was, i);
      ghost var restKept, restLifted := Kept(was[i + 1..]), Lifted(was[i + 1..]);
      if turn.role == System && i + 1 < out.Length && out[i + 1].role != Assistant {
        assert system' + (SystemBlocksOf(turn.content) + restLifted)
          == system' + SystemBlocksOf(turn.content) + restLifted;
        system' := system' + SystemBlocksOf(turn.content);
      } else {
        ghost var head := out[..kept];
        out[kept] := turn;
        kept := kept + 1;
        assert out[..kept] == head + [was[i]];
        assert head + ([was[i]] + restKept) == head + [was[i]] + restKept;
      }
    }
  }

  /** encodeAnthropicTurns. */
  method EncodeTurns(messages: seq<Message>, instructions: Option<string>)
    returns (system: WireContent, turns: seq<Turn>)
    ensures turns == EncodedTurns(messages, instructions)
    ensures system == EncodedSystem(messages, instructions)
    ensures Accepted(turns)
  {
    var systemBlocks := [];
    if instructions.Some? && instructions.value != "" {
      systemBlocks := [WText(instructions.value, None, [])];
    }
    var out: seq<Turn>, dropped: set<string>, i := [], {}, 0;
    while i < |messages|
      invariant 0 <= i <= |messages|
      invariant Pass(messages, i, State(out, systemBlocks, dropped)) == Pass(messages, 0, Start(instructions))
      decreases |messages| - i
    {
      var m := messages[i];
      match m.role
      case System =>
        var end, blocks := CollectRun(messages, i);
        var previousIsUser := out != [] && out[|out| - 1].role == User;
        if previousIsUser && (end == |messages| || messages[end].role == Assistant) {
          var content := EncodeTextContent(blocks);
          out := AppendAnthropicTurn(out, System, content);
        } else {
          systemBlocks := systemBlocks + blocks;
        }
        i := end;
      case Developer =>
        var blocks := EncodeSystemText(m.content);
        systemBlocks := systemBlocks + blocks;
        i := i + 1;
      case Assistant =>
        if out == [] {
          dropped := CollectCalls(m.content, dropped);
        } else {
          var content := EncodeAnthropicContent(m.content);
          out := AppendAnthropicTurn(out, Assistant, content);
        }
        i := i + 1;
      case User =>
        var kept := FilterOrphans(m.content, dropped);
        var content := EncodeAnthropicContent(kept);
        out := AppendAnthropicTurn(out, User, content);
        i := i + 1;
    }
    var buffer := new Turn[|out|](k requires 0 <= k < |out| => out[k]);
    assert buffer[..] == out;
    var n, allSystem := LiftMisplacedRuns(buffer, systemBlocks);
    turns := buffer[..n];
    system := EncodeTextContent(allSystem);
    Placement(messages, instructions);
  }
}
