/**
 encodeAnthropicTurns: the message history becomes the top-level system field
 and a list of turns that obeys Anthropic's placement rules. The functions say
 what each part of the pass does; the methods at the end are the loops, proved
 against them.
 */
module AnthropicTurns {
  import opened Wrappers
  import opened Sequences
  import opened AnthropicModel
  import opened AnthropicEncode

  const SYSTEM_SEPARATOR := "\n\n"

  // ---- system and developer text ----

  function RenderSystemBlock(b: Block): seq<WireBlock> {
    if b.Text? then EncodeText(b.text, b.cache, b.citations) else []
  }

  /** The text-only part of a system or developer turn. */
  function SystemTextBlocks(content: seq<Block>): seq<WireBlock> {
    if content == [] then [] else RenderSystemBlock(content[0]) + SystemTextBlocks(content[1..])
  }

  predicate HasMarkers(b: WireBlock) {
    b.WText? && (b.cache.Some? || b.citations != [])
  }

  function Texts(blocks: seq<WireBlock>): seq<string> {
    if blocks == [] then []
    else (if blocks[0].WText? then [blocks[0].text] else []) + Texts(blocks[1..])
  }

  /** The string join for plain text, the block array when a block carries a marker. */
  function TextContent(blocks: seq<WireBlock>): WireContent {
    if blocks == [] then WNil
    else if exists b :: b in blocks && HasMarkers(b) then WBlocks(blocks)
    else WString(Join(Texts(blocks), SYSTEM_SEPARATOR))
  }

  /** The block form that the top-level field takes from a rendered system turn. */
  function SystemBlocksOf(content: WireContent): seq<WireBlock> {
    match content
    case WNil => []
    case WString(s) => if s == "" then [] else [WText(s, None, [])]
    case WBlocks(blocks) => blocks
  }

  /** The first index from i on that is not a system message. */
  function RunEnd(messages: seq<Message>, i: nat): (end: nat)
    requires i <= |messages|
    ensures i <= end <= |messages|
    ensures forall k :: i <= k < end ==> messages[k].role == System
    ensures end < |messages| ==> messages[end].role != System
    decreases |messages| - i
  {
    if i < |messages| && messages[i].role == System then RunEnd(messages, i + 1) else i
  }

  function RunBlocks(messages: seq<Message>, i: nat, end: nat): seq<WireBlock>
    requires i <= end <= |messages|
    decreases end - i
  {
    if i == end then [] else SystemTextBlocks(messages[i].content) + RunBlocks(messages, i + 1, end)
  }

  // ---- turns ----

  function LastRole(out: seq<Turn>): Option<Role> {
    if out == [] then None else Some(out[|out| - 1].role)
  }

  function MergeContent(prev: WireContent, next: WireContent): WireContent {
    WBlocks(ResultsFirst(ToBlocks(prev) + ToBlocks(next)))
  }

  /** Append a turn; merge it into a predecessor of the same role; skip nil content. */
  function AppendTurn(out: seq<Turn>, role: Role, content: WireContent): seq<Turn> {
    if content.WNil? then out
    else if LastRole(out) == Some(role) then
      out[..|out| - 1] + [Turn(role, MergeContent(out[|out| - 1].content, content))]
    else out + [Turn(role, content)]
  }

  function CallIDs(content: seq<Block>): set<string> {
    set b | b in content && b.ToolCall? && b.id != "" :: b.id
  }

  function NotOrphan(dropped: set<string>): Block -> bool {
    (b: Block) => !(b.ToolResult? && b.callID in dropped)
  }

  /** A user turn without the results whose call was dropped. */
  function DropOrphans(content: seq<Block>, dropped: set<string>): seq<Block> {
    Filter(NotOrphan(dropped), content)
  }

  /** What the pass has built: the turns, the top-level system blocks, the ids of dropped calls. */
  datatype State = State(out: seq<Turn>, system: seq<WireBlock>, dropped: set<string>)

  /** A system run may stay in the conversation at this point of the pass. */
  predicate StaysFor(out: seq<Turn>, messages: seq<Message>, end: nat)
    requires end <= |messages|
  {
    LastRole(out) == Some(User) && (end == |messages| || messages[end].role == Assistant)
  }

  function Next(messages: seq<Message>, i: nat): (n: nat)
    requires i < |messages|
    ensures i < n <= |messages|
  {
    if messages[i].role == System then RunEnd(messages, i + 1) else i + 1
  }

  /** One iteration of the pass, at message i. */
  function Step(messages: seq<Message>, i: nat, st: State): State
    requires i < |messages|
  {
    var m := messages[i];
    match m.role
    case System =>
      var end := RunEnd(messages, i + 1);
      var blocks := RunBlocks(messages, i, end);
      if StaysFor(st.out, messages, end) then
        st.(out := AppendTurn(st.out, System, TextContent(blocks)))
      else st.(system := st.system + blocks)
    case Developer => st.(system := st.system + SystemTextBlocks(m.content))
    case Assistant =>
      if st.out == [] then st.(dropped := st.dropped + CallIDs(m.content))
      else st.(out := AppendTurn(st.out, Assistant, EncodeContent(m.content)))
    case User =>
      st.(out := AppendTurn(st.out, User, EncodeContent(DropOrphans(m.content, st.dropped))))
  }

  /** The pass from message i on. */
  function Pass(messages: seq<Message>, i: nat, st: State): State
    requires i <= |messages|
    decreases |messages| - i
  {
    if i == |messages| then st else Pass(messages, Next(messages, i), Step(messages, i, st))
  }

  function Start(instructions: Option<string>): State {
    State([], if instructions.Some? && instructions.value != ""
              then [WText(instructions.value, None, [])] else [], {})
  }

  /** A system turn that the pass left before a turn other than an assistant's. */
  predicate Misplaced(out: seq<Turn>) {
    |out| > 1 && out[0].role == System && out[1].role != Assistant
  }

  function Kept(out: seq<Turn>): seq<Turn> {
    if out == [] then []
    else if Misplaced(out) then Kept(out[1..])
    else [out[0]] + Kept(out[1..])
  }

  function Lifted(out: seq<Turn>): seq<WireBlock> {
    if out == [] then []
    else if Misplaced(out) then SystemBlocksOf(out[0].content) + Lifted(out[1..])
    else Lifted(out[1..])
  }

  /** The turns of the request. */
  function EncodedTurns(messages: seq<Message>, instructions: Option<string>): seq<Turn> {
    Kept(Pass(messages, 0, Start(instructions)).out)
  }

  /** The top-level system field of the request. */
  function EncodedSystem(messages: seq<Message>, instructions: Option<string>): WireContent {
    var st := Pass(messages, 0, Start(instructions));
    TextContent(st.system + Lifted(st.out))
  }

  // ---- placement ----

  /** What the pass keeps: roles alternate, a system turn follows a user turn, the first turn is a user's. */
  ghost predicate Alternates(out: seq<Turn>) {
    && (out != [] ==> out[0].role == User)
    && (forall i :: 0 <= i < |out| ==> out[i].role != Developer && !out[i].content.WNil?)
    && (forall i {:trigger out[i].role} :: 1 <= i < |out| ==>
          && out[i - 1].role != out[i].role
          && (out[i].role == System ==> out[i - 1].role == User))
  }

  lemma {:induction false} SnocAlternates(out: seq<Turn>, turn: Turn)
    requires Alternates(out) && turn.role != Developer && !turn.content.WNil?
    requires LastRole(out) != Some(turn.role)
    requires turn.role != User ==> out != []
    requires turn.role == System ==> LastRole(out) == Some(User)
    ensures Alternates(out + [turn])
  {
  }

  lemma {:induction false} AppendAlternates(out: seq<Turn>, role: Role, content: WireContent)
    requires Alternates(out)
    requires role != Developer
    requires role != User ==> out != []
    requires role == System ==> LastRole(out) == Some(User)
    ensures Alternates(AppendTurn(out, role, content))
  {
    if !content.WNil? {
      if LastRole(out) == Some(role) {
        var front := out[..|out| - 1];
        assert Alternates(front);
        SnocAlternates(front, Turn(role, MergeContent(out[|out| - 1].content, content)));
      } else {
        SnocAlternates(out, Turn(role, content));
      }
    }
  }

  lemma {:induction false} StepAlternates(messages: seq<Message>, i: nat, st: State)
    requires i < |messages| && Alternates(st.out)
    ensures Alternates(Step(messages, i, st).out)
  {
    var m := messages[i];
    match m.role
    case System =>
      var end := RunEnd(messages, i + 1);
      if StaysFor(st.out, messages, end) {
        AppendAlternates(st.out, System, TextContent(RunBlocks(messages, i, end)));
      }
    case Developer =>
    case Assistant =>
      if st.out != [] {
        AppendAlternates(st.out, Assistant, EncodeContent(m.content));
      }
    case User =>
      AppendAlternates(st.out, User, EncodeContent(DropOrphans(m.content, st.dropped)));
  }

  lemma {:induction false} PassAlternates(messages: seq<Message>, i: nat, st: State)
    requires i <= |messages| && Alternates(st.out)
    ensures Alternates(Pass(messages, i, st).out)
    decreases |messages| - i
  {
    if i < |messages| {
      StepAlternates(messages, i, st);
      PassAlternates(messages, Next(messages, i), Step(messages, i, st));
    }
  }

  /** What Anthropic accepts, given the role of the turn before: see Accepted. */
  ghost predicate AcceptedAfter(prev: Role, turns: seq<Turn>)
    decreases turns
  {
    turns == [] ||
    (&& turns[0].role != Developer && !turns[0].content.WNil?
     && (turns[0].role == prev ==> prev == User)
     && (turns[0].role == System ==> prev == User && (|turns| == 1 || turns[1].role == Assistant))
     && AcceptedAfter(turns[0].role, turns[1..]))
  }

  /** The post-pass repairs what the pass could not know, given the turn before. */
  lemma {:induction false} KeptAccepted(prev: Role, out: seq<Turn>)
    requires forall i :: 0 <= i < |out| ==> out[i].role != Developer && !out[i].content.WNil?
    requires forall i {:trigger out[i].role} :: 1 <= i < |out| ==>
               && out[i - 1].role != out[i].role
               && (out[i].role == System ==> out[i - 1].role == User)
    requires out != [] ==> out[0].role != prev && (out[0].role == System ==> prev == User)
    ensures AcceptedAfter(prev, Kept(out))
    ensures out != [] && out[0].role != System ==> Kept(out) != [] && Kept(out)[0] == out[0]
    decreases out
  {
    if out != [] {
      KeptAccepted(out[0].role, out[1..]);
      if Misplaced(out) {
        assert out[1..][0].role == User;
        assert Kept(out) == Kept(out[1..]);
      } else if out[0].role == System && |out| > 1 {
        assert out[1..][0].role == Assistant;
        assert Kept(out[1..])[0] == out[1];
      }
    }
  }

  /**
   The placement rules of the Messages API: the first turn is a user's, a system
   turn has a user turn directly before it and an assistant turn or the end
   directly after it, and only user turns may stand next to their own kind.
   */
  ghost predicate Accepted(turns: seq<Turn>) {
    && (turns != [] ==> turns[0].role == User)
    && (forall i :: 0 <= i < |turns| ==> turns[i].role in {System, User, Assistant} && !turns[i].content.WNil?)
    && (forall i {:trigger turns[i]} :: 0 <= i < |turns| && turns[i].role == System ==>
          && 0 < i && turns[i - 1].role == User
          && (i + 1 == |turns| || turns[i + 1].role == Assistant))
    && (forall i {:trigger turns[i]} :: 1 <= i < |turns| && turns[i - 1].role == turns[i].role ==>
          turns[i].role == User)
  }

  lemma {:induction false} AcceptedAfterAll(prev: Role, turns: seq<Turn>, i: nat)
    requires AcceptedAfter(prev, turns) && i < |turns|
    ensures turns[i].role != Developer && !turns[i].content.WNil?
    ensures turns[i].role == System ==> i + 1 == |turns| || turns[i + 1].role == Assistant
    ensures var before := if i == 0 then prev else turns[i - 1].role;
            && (turns[i].role == before ==> before == User)
            && (turns[i].role == System ==> before == User)
    decreases i
  {
    if i > 0 {
      AcceptedAfterAll(turns[0].role, turns[1..], i - 1);
    }
  }

  /** Every history, however it is shaped, becomes a list that Anthropic accepts. */
  lemma {:induction false} Placement(messages: seq<Message>, instructions: Option<string>)
    ensures Accepted(EncodedTurns(messages, instructions))
  {
    PassAlternates(messages, 0, Start(instructions));
    var out := Pass(messages, 0, Start(instructions)).out;
    var turns := Kept(out);
    if out != [] {
      KeptAccepted(Assistant, out);
    }
    forall i | 0 <= i < |turns|
      ensures turns[i].role != Developer && !turns[i].content.WNil?
      ensures turns[i].role == System ==> i + 1 == |turns| || turns[i + 1].role == Assistant
      ensures var before := if i == 0 then Assistant else turns[i - 1].role;
              && (turns[i].role == before ==> before == User)
              && (turns[i].role == System ==> before == User)
    {
      AcceptedAfterAll(Assistant, turns, i);
    }
  }
}
