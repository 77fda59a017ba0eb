/**
 What the pass has emitted stays where it is: a later message can only extend
 the last turn or add one. From this follow the two neighbour rules of
 encodeAnthropicTurns: results given directly after a call open the next turn,
 and a system run in a valid position is not moved.
 */
module AnthropicAdjacency {
  import opened Wrappers
  import opened Sequences
  import opened AnthropicModel
  import opened AnthropicEncode
  import opened AnthropicTurns
  import opened AnthropicItems
  import opened AnthropicLinkage
  import opened AnthropicConservation

  predicate Ordered(content: WireContent) {
    ResultsFirst(ToBlocks(content)) == ToBlocks(content)
  }

  function ResultsOf(content: WireContent): seq<WireBlock> {
    Filter(IsToolResult, ToBlocks(content))
  }

  /** Content grows by merging: its results stay first, its calls stay. */
  ghost predicate ContentGrows(a: WireContent, b: WireContent) {
    && ResultsOf(a) <= ResultsOf(b)
    && UseIDs(ToBlocks(a)) <= UseIDs(ToBlocks(b))
    && (a == b || Ordered(b))
  }

  /** Emitted turns are fixed, except that the last one may still grow. */
  ghost predicate Grows(a: seq<Turn>, b: seq<Turn>) {
    && |a| <= |b|
    && (forall t :: 0 <= t < |a| - 1 ==> a[t] == b[t])
    && (a != [] ==> a[|a| - 1].role == b[|a| - 1].role
                    && ContentGrows(a[|a| - 1].content, b[|a| - 1].content))
  }

  lemma {:induction false} ContentGrowsTransitive(a: WireContent, b: WireContent, c: WireContent)
    requires ContentGrows(a, b) && ContentGrows(b, c)
    ensures ContentGrows(a, c)
  {
  }

  lemma {:induction false} GrowsTransitive(a: seq<Turn>, b: seq<Turn>, c: seq<Turn>)
    requires Grows(a, b) && Grows(b, c)
    ensures Grows(a, c)
  {
    if a != [] {
      var n := |a| - 1;
      if |b| > |a| {
        assert b[n] == c[n];
      } else {
        ContentGrowsTransitive(a[n].content, b[n].content, c[n].content);
      }
    }
  }

  lemma {:induction false} MergeGrows(prev: WireContent, next: WireContent)
    ensures ContentGrows(prev, MergeContent(prev, next))
  {
    var p, n := ToBlocks(prev), ToBlocks(next);
    ResultsFirstParts(p + n);
    FilterAppend(IsToolResult, p, n);
    MergedIDs(prev, next);
  }

  lemma {:induction false} AppendGrows(out: seq<Turn>, role: Role, content: WireContent)
    ensures Grows(out, AppendTurn(out, role, content))
  {
    if out != [] && LastRole(out) == Some(role) {
      MergeGrows(out[|out| - 1].content, content);
    }
  }

  lemma {:induction false} EmitGrows(items: seq<Item>, e: Emitted)
    ensures Grows(e.out, Emit(items, e).out)
    decreases items
  {
    if items != [] {
      var next := Put(items[0], e);
      AppendGrows(e.out, items[0].role, TurnContent(items[0]));
      EmitGrows(items[1..], next);
      GrowsTransitive(e.out, next.out, Emit(items, e).out);
    }
  }

  /** What has been emitted before item i. */
  function Before(items: seq<Item>, i: nat, origin: Emitted): Emitted
    requires i <= |items|
  {
    Emit(items[..i], origin)
  }

  lemma {:induction false} BeforeNext(items: seq<Item>, i: nat, origin: Emitted)
    requires i < |items|
    ensures Before(items, i + 1, origin) == Put(items[i], Before(items, i, origin))
  {
    assert items[..i + 1] == items[..i] + [items[i]];
    EmitAppend(items[..i], [items[i]], origin);
    assert [items[i]][1..] == [];
  }

  lemma {:induction false} BeforeGrows(items: seq<Item>, i: nat, origin: Emitted)
    requires i <= |items|
    ensures Grows(Before(items, i, origin).out, Emit(items, origin).out)
  {
    assert items == items[..i] + items[i..];
    EmitAppend(items[..i], items[i..], origin);
    EmitGrows(items[i..], Before(items, i, origin));
  }

  lemma {:induction false} AppendsNew(out: seq<Turn>, turn: Turn)
    requires LastRole(out) != Some(turn.role) && !turn.content.WNil?
    ensures AppendTurn(out, turn.role, turn.content) == out + [turn]
  {
  }

  /** A conversation item that carries something leaves a turn of its role at the end, with its calls. */
  lemma {:induction false} ConversationEmits(items: seq<Item>, i: nat, origin: Emitted)
    requires i < |items| && IsConversation(items[i]) && Carries(items[i])
    ensures var out, after := Before(items, i, origin).out, Before(items, i + 1, origin).out;
            && after != [] && after[|after| - 1].role == items[i].role
            && UseIDs(ToBlocks(items[i].content)) <= UseIDs(ToBlocks(after[|after| - 1].content))
            && (LastRole(out) != Some(items[i].role) ==> after == out + [Turn(items[i].role, items[i].content)])
  {
    BeforeNext(items, i, origin);
    var out := Before(items, i, origin).out;
    if LastRole(out) == Some(items[i].role) {
      MergedIDs(out[|out| - 1].content, items[i].content);
    } else {
      AppendsNew(out, Turn(items[i].role, items[i].content));
    }
  }

  // ---- the post-pass keeps neighbours ----

  /** Two neighbouring turns that are not lifted stay neighbours. */
  lemma {:induction false} KeptNeighbours(out: seq<Turn>, u: nat) returns (v: nat)
    requires u + 1 < |out| && !Misplaced(out[u..]) && !Misplaced(out[u + 1..])
    ensures v + 1 < |Kept(out)| && Kept(out)[v] == out[u] && Kept(out)[v + 1] == out[u + 1]
    decreases u
  {
    assert out[0..] == out;
    if u == 0 {
      v := 0;
    } else {
      assert out[1..][u - 1..] == out[u..] && out[1..][u..] == out[u + 1..];
      var w := KeptNeighbours(out[1..], u - 1);
      v := if Misplaced(out) then w else w + 1;
    }
  }

  lemma {:induction false} KeptOne(out: seq<Turn>, u: nat)
    requires u < |out| && !Misplaced(out[u..])
    ensures out[u] in Kept(out)
    decreases u
  {
    assert out[0..] == out;
    if u > 0 {
      assert out[1..][u - 1..] == out[u..];
      KeptOne(out[1..], u - 1);
    }
  }

  // ---- results directly after a call ----

  /** System and developer items emit nothing after an assistant turn. */
  lemma {:induction false} BetweenEmitsNothing(items: seq<Item>, i: nat, k: nat, origin: Emitted)
    requires i <= k <= |items|
    requires forall m :: i <= m < k ==> !IsConversation(items[m])
    requires LastRole(Before(items, i, origin).out) == Some(Assistant)
    ensures Before(items, k, origin).out == Before(items, i, origin).out
    decreases k - i
  {
    if i < k {
      BeforeNext(items, i, origin);
      BetweenEmitsNothing(items, i + 1, k, origin);
    }
  }

  /** The turn with the calls of one item is directly followed by the turn that the results of another open. */
  ghost predicate OpensAfter(uses: set<string>, results: seq<WireBlock>, turns: seq<Turn>) {
    exists v :: 0 <= v && v + 1 < |turns| && CallThenResults(uses, results, turns[v], turns[v + 1])
  }

  predicate CallThenResults(uses: set<string>, results: seq<WireBlock>, call: Turn, answer: Turn) {
    && call.role == Assistant && uses <= TurnUses(call)
    && answer.role == User && results <= ToBlocks(answer.content)
  }

  /** The pair may still grow at its end; its results stay in front, and it is never pulled apart. */
  lemma {:induction false} PairStays(uses: set<string>, a: seq<Turn>, results: WireContent, out: seq<Turn>)
    requires a != [] && a[|a| - 1].role == Assistant && uses <= TurnUses(a[|a| - 1])
    requires Ordered(results) && Grows(a + [Turn(User, results)], out)
    ensures OpensAfter(uses, ResultsOf(results), Kept(out))
  {
    var u, pair := |a| - 1, a + [Turn(User, results)];
    assert out[u] == pair[u] && out[u + 1].role == User;
    var last := out[u + 1].content;
    assert ContentGrows(results, last);
    assert ResultsOf(results) <= ResultsOf(last) <= ToBlocks(last);
    var v := KeptNeighbours(out, u);
    assert CallThenResults(uses, ResultsOf(results), Kept(out)[v], Kept(out)[v + 1]);
  }

  lemma {:induction false} ItemsOpenNextTurn(items: seq<Item>, j: nat, k: nat, origin: Emitted)
    requires j < k < |items| && items[j].role == Assistant && items[k].role == User
    requires Carries(items[j]) && Carries(items[k]) && Ordered(items[k].content)
    requires forall m :: j < m < k ==> !IsConversation(items[m])
    ensures OpensAfter(UseIDs(ToBlocks(items[j].content)), ResultsOf(items[k].content),
                       Kept(Emit(items, origin).out))
  {
    ConversationEmits(items, j, origin);
    BetweenEmitsNothing(items, j + 1, k, origin);
    ConversationEmits(items, k, origin);
    BeforeGrows(items, k + 1, origin);
    PairStays(UseIDs(ToBlocks(items[j].content)), Before(items, k, origin).out, items[k].content,
              Emit(items, origin).out);
  }

  // ---- the same, told of messages ----

  lemma {:induction false} EncodedResults(content: seq<Block>)
    ensures ResultsOf(EncodeContent(content)) == RenderAll(Filter(IsCanonicalResult, content))
  {
    RenderPartition(content);
    if content != [] && AllPlainText(content) {
      forall b | b in content
        ensures !IsCanonicalResult(b)
      {
        assert IsPlainText(b);
      }
      FilterNone(IsCanonicalResult, content);
      assert ToBlocks(EncodeContent(content)) == []
        || Filter(IsToolResult, ToBlocks(EncodeContent(content))[1..]) == [];
    } else {
      ResultsFirstParts(RenderAll(content));
    }
  }

  lemma {:induction false} RenderedMember(content: seq<Block>, b: Block)
    requires b in content
    ensures forall w :: w in RenderBlock(b) ==> w in RenderAll(content)
  {
    if b != content[0] {
      RenderedMember(content[1..], b);
    }
  }

  /** The results that user message k gives, without those of dropped calls, as they are rendered. */
  ghost function KeptResults(messages: seq<Message>, k: nat): seq<WireBlock>
    requires k < |messages|
  {
    RenderAll(Filter(IsCanonicalResult, DropOrphans(messages[k].content, DroppedBefore(messages, k))))
  }

  lemma {:induction false} OpenedStays(messages: seq<Message>, j: nat, m: nat)
    requires j <= m <= |messages| && Opened(messages, j)
    ensures Opened(messages, m)
  {
  }

  /** The calls of a kept message j, if no earlier assistant message makes them too, are not dropped. */
  lemma {:induction false} NotDropped(messages: seq<Message>, j: nat, k: nat)
    requires j < k < |messages| && messages[j].role == Assistant && Opened(messages, j)
    requires forall m :: 0 <= m < j && messages[m].role == Assistant ==>
               CallIDs(messages[m].content) !! CallIDs(messages[j].content)
    ensures DroppedBefore(messages, k) !! CallIDs(messages[j].content)
  {
    forall m | j <= m < k
      ensures Opened(messages, m)
    {
      OpenedStays(messages, j, m);
    }
  }

  /** A result whose call was not dropped is among the kept ones. */
  lemma {:induction false} AnswerIsKept(messages: seq<Message>, k: nat, b: Block)
    requires k < |messages| && b in messages[k].content && b.ToolResult?
    requires b.callID !in DroppedBefore(messages, k)
    ensures RenderBlock(b) != [] && RenderBlock(b)[0] in KeptResults(messages, k)
  {
    var dropped := DroppedBefore(messages, k);
    FilterMembers(NotOrphan(dropped), messages[k].content);
    var kept := DropOrphans(messages[k].content, dropped);
    FilterMembers(IsCanonicalResult, kept);
    RenderedMember(Filter(IsCanonicalResult, kept), b);
  }

  lemma {:induction false} ResultsOfUser(messages: seq<Message>, k: nat)
    requires k < |messages| && messages[k].role == User
    ensures ResultsOf(Rendered(messages, k)) == KeptResults(messages, k)
    ensures Ordered(Rendered(messages, k))
  {
    EncodedResults(DropOrphans(messages[k].content, DroppedBefore(messages, k)));
    RenderedIsOrdered(messages, k);
  }

  /** Message j is a kept assistant message whose calls no earlier assistant message makes. */
  ghost predicate KeptCaller(messages: seq<Message>, j: nat) {
    && j < |messages| && messages[j].role == Assistant && Opened(messages, j)
    && (forall m :: 0 <= m < j && messages[m].role == Assistant ==>
          CallIDs(messages[m].content) !! CallIDs(messages[j].content))
  }

  /**
   A kept assistant message j, then only system and developer messages, then a
   user message k that answers one of its calls: in the request, the turn that
   holds every call of j is directly followed by a user turn that opens with the
   results of k, the answers to j among them.
   */
  lemma {:induction false} ResultsOpenNextTurn(messages: seq<Message>, instructions: Option<string>, j: nat, k: nat)
    requires KeptCaller(messages, j)
    requires j < k < |messages| && messages[k].role == User
    requires forall m :: j < m < k ==> messages[m].role in {System, Developer}
    requires exists b :: b in messages[k].content && b.ToolResult? && b.callID in CallIDs(messages[j].content)
    ensures OpensAfter(CallIDs(messages[j].content), KeptResults(messages, k), EncodedTurns(messages, instructions))
    ensures forall b :: b in messages[k].content && b.ToolResult? && b.callID in CallIDs(messages[j].content) ==>
              RenderBlock(b) != [] && RenderBlock(b)[0] in KeptResults(messages, k)
  {
    NotDropped(messages, j, k);
    forall b | b in messages[k].content && b.ToolResult? && b.callID in CallIDs(messages[j].content)
      ensures RenderBlock(b) != [] && RenderBlock(b)[0] in KeptResults(messages, k)
    {
      AnswerIsKept(messages, k, b);
    }
    var items := Items(messages);
    ResultsOfUser(messages, k);
    EncodedIDs(messages[j].content);
    ItemRoles(messages);
    ItemAt(messages, j);
    ItemAt(messages, k);
    assert items[j].content == EncodeContent(messages[j].content);
    assert Carries(items[j]) && Carries(items[k]);
    ItemsOpenNextTurn(items, j, k, Origin(instructions));
    PassIsEmission(messages, instructions);
    var turns, uses := EncodedTurns(messages, instructions), UseIDs(ToBlocks(items[j].content));
    var v :| 0 <= v && v + 1 < |turns| && CallThenResults(uses, KeptResults(messages, k), turns[v], turns[v + 1]);
    assert CallThenResults(CallIDs(messages[j].content), KeptResults(messages, k), turns[v], turns[v + 1]);
  }

  // ---- a system run in a valid position stays ----

  lemma {:induction false} StaysLast(before: seq<Turn>, run: Turn)
    ensures run in Kept(before + [run])
  {
    assert (before + [run])[|before|..] == [run];
    KeptOne(before + [run], |before|);
  }

  lemma {:induction false} StaysBeforeAssistant(before: seq<Turn>, run: Turn, next: Turn, out: seq<Turn>)
    requires next.role == Assistant && Grows(before + [run] + [next], out)
    ensures run in Kept(out)
  {
    var t := |before|;
    assert out[t] == (before + [run] + [next])[t] && out[t + 1].role == Assistant;
    assert out[t..][1] == out[t + 1];
    KeptOne(out, t);
  }

  /** A run that carries text, placeable, after a user item with content. */
  predicate RunAfterUser(items: seq<Item>, s: nat) {
    && 0 < s < |items| && items[s].role == System && items[s].placeable && Carries(items[s])
    && items[s - 1].role == User && Carries(items[s - 1])
  }

  lemma {:induction false} RunIsPlaced(items: seq<Item>, s: nat, origin: Emitted)
    requires RunAfterUser(items, s)
    ensures Before(items, s + 1, origin).out ==
            Before(items, s, origin).out + [Turn(System, TextContent(items[s].text))]
  {
    ConversationEmits(items, s - 1, origin);
    BeforeNext(items, s, origin);
    AppendsNew(Before(items, s, origin).out, Turn(System, TextContent(items[s].text)));
  }

  /** A run of items from s to e that is directly after a user's and before an assistant's or the end. */
  ghost predicate PlacedRun(items: seq<Item>, s: nat, e: nat) {
    && RunAfterUser(items, s) && s < e <= |items|
    && (forall k :: s < k < e ==> !Carries(items[k]))
    && (e < |items| ==> items[e].role == Assistant && Carries(items[e]))
  }

  lemma {:induction false} ItemsRunStays(items: seq<Item>, s: nat, e: nat, origin: Emitted)
    requires PlacedRun(items, s, e)
    ensures Turn(System, TextContent(items[s].text)) in Kept(Emit(items, origin).out)
  {
    var before, run := Before(items, s, origin).out, Turn(System, TextContent(items[s].text));
    RunIsPlaced(items, s, origin);
    EmptyTail(items, s + 1, e, origin);
    if e < |items| {
      ConversationEmits(items, e, origin);
      BeforeGrows(items, e + 1, origin);
      StaysBeforeAssistant(before, run, Turn(Assistant, items[e].content), Emit(items, origin).out);
    } else {
      assert items[..e] == items;
      StaysLast(before, run);
    }
  }

  lemma {:induction false} EmptyTail(items: seq<Item>, i: nat, e: nat, origin: Emitted)
    requires i <= e <= |items| && forall k :: i <= k < e ==> !Carries(items[k])
    ensures Before(items, e, origin) == Before(items, i, origin)
  {
    assert items[..e] == items[..i] + items[i..e];
    EmitAppend(items[..i], items[i..e], origin);
    EmitNothing(items[i..e], Before(items, i, origin));
  }

  /** A system run s..e after a user message with content, before the end or an assistant message with content. */
  ghost predicate ValidRun(messages: seq<Message>, s: nat, e: nat) {
    && 0 < s < e <= |messages| && RunStart(messages, s) && e == RunEnd(messages, s + 1)
    && SystemSource(messages, s) != []
    && messages[s - 1].role == User && Carries(Items(messages)[s - 1])
    && (e < |messages| ==> messages[e].role == Assistant && Carries(Items(messages)[e]))
  }

  /** The run of item s ends where the run of the messages does. */
  lemma {:induction false} RunReachesEnd(messages: seq<Message>, s: nat)
    requires s < |messages| && RunStart(messages, s)
    ensures RunEnd(messages, s) == RunEnd(messages, s + 1) == Next(messages, s)
  {
  }

  /** The same of the items. */
  ghost predicate ValidItems(items: seq<Item>, s: nat, e: nat) {
    && 0 < s < e <= |items| && items[s].role == System && items[s].placeable && items[s].text != []
    && items[s - 1].role == User && Carries(items[s - 1])
    && (e < |items| ==> items[e].role == Assistant && Carries(items[e]))
  }

  lemma {:induction false} ItemStartsRun(messages: seq<Message>, s: nat)
    requires s < |messages| && RunStart(messages, s)
    ensures var it, end := Items(messages)[s], RunEnd(messages, s + 1);
            && it.role == System && it.text == SystemSource(messages, s)
            && it.placeable == (end == |messages| || messages[end].role == Assistant)
  {
    RunReachesEnd(messages, s);
    ItemAt(messages, s);
  }

  lemma {:induction false} ValidRunGivesItems(messages: seq<Message>, s: nat, e: nat)
    requires ValidRun(messages, s, e)
    ensures ValidItems(Items(messages), s, e) && Items(messages)[s].text == SystemSource(messages, s)
  {
    ItemRoles(messages);
    ItemStartsRun(messages, s);
  }

  lemma {:induction false} RunTailIsSilent(messages: seq<Message>, s: nat, e: nat)
    requires ValidRun(messages, s, e)
    ensures forall k :: s < k < e ==> !Carries(Items(messages)[k])
  {
    RunReachesEnd(messages, s);
    RunTail(messages, s);
  }

  lemma {:induction false} ValidItemsStay(items: seq<Item>, s: nat, e: nat, origin: Emitted)
    requires ValidItems(items, s, e) && forall k :: s < k < e ==> !Carries(items[k])
    ensures Turn(System, TextContent(items[s].text)) in Kept(Emit(items, origin).out)
  {
    assert Carries(items[s]) && Carries(items[s - 1]);
    ItemsRunStays(items, s, e, origin);
  }

  /** A run in a valid position is not moved: it is a system turn of its own, with its own text. */
  lemma {:induction false} ValidRunStays(messages: seq<Message>, instructions: Option<string>, s: nat, e: nat)
    requires ValidRun(messages, s, e)
    ensures Turn(System, TextContent(SystemSource(messages, s))) in EncodedTurns(messages, instructions)
  {
    ValidRunGivesItems(messages, s, e);
    RunTailIsSilent(messages, s, e);
    ValidItemsStay(Items(messages), s, e, Origin(instructions));
    PassIsEmission(messages, instructions);
  }
}
