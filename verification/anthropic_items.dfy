/**
 The history of encodeAnthropicTurns as a list of items: what each message
 brings, said without reference to the pass, and a plain left-to-right emission
 of them. The pass is shown to be that emission.
 */
module AnthropicItems {
  import opened Wrappers
  import opened Sequences
  import opened AnthropicModel
  import opened AnthropicEncode
  import opened AnthropicTurns

  // ---- what a message contributes, independently of the pass ----

  /** Some user message before i has content to show: the conversation is open. */
  ghost predicate Opened(messages: seq<Message>, i: nat)
    requires i <= |messages|
    decreases i, 0
  {
    exists u :: 0 <= u < i && messages[u].role == User && !Rendered(messages, u).WNil?
  }

  /** The calls of the assistant messages that come before the conversation is open. */
  ghost function DroppedBefore(messages: seq<Message>, i: nat): set<string>
    requires i <= |messages|
    decreases i, 1
  {
    set j, id | 0 <= j < i && messages[j].role == Assistant && !Opened(messages, j)
                && id in CallIDs(messages[j].content) :: id
  }

  /** The content of a conversation message; nil for one that is dropped. */
  ghost function Rendered(messages: seq<Message>, i: nat): WireContent
    requires i < |messages|
    decreases i, 2
  {
    match messages[i].role
    case User => EncodeContent(DropOrphans(messages[i].content, DroppedBefore(messages, i)))
    case Assistant => if Opened(messages, i) then EncodeContent(messages[i].content) else WNil
    case _ => WNil
  }

  predicate RunStart(messages: seq<Message>, i: nat)
    requires i < |messages|
  {
    messages[i].role == System && (i == 0 || messages[i - 1].role != System)
  }

  /** The system text of a developer message, or of the run that starts at i. */
  function SystemSource(messages: seq<Message>, i: nat): seq<WireBlock>
    requires i < |messages|
  {
    if messages[i].role == Developer then SystemTextBlocks(messages[i].content)
    else if RunStart(messages, i) then RunBlocks(messages, i, RunEnd(messages, i + 1))
    else []
  }

  /**
   What message i brings: the content of a conversation message, or the system
   text of a developer message or of the run that starts here (the other
   messages of a run bring nothing). A run is placeable when an assistant
   message or the end follows it.
   */
  datatype Item = Item(role: Role, content: WireContent, text: seq<WireBlock>, placeable: bool)

  ghost function ItemOf(messages: seq<Message>, i: nat): Item
    requires i < |messages|
  {
    var end := RunEnd(messages, i);
    Item(messages[i].role, Rendered(messages, i), SystemSource(messages, i),
         end == |messages| || messages[end].role == Assistant)
  }

  ghost function Items(messages: seq<Message>): (items: seq<Item>)
    ensures |items| == |messages|
  {
    FirstItems(messages, |messages|)
  }

  ghost function FirstItems(messages: seq<Message>, n: nat): (items: seq<Item>)
    requires n <= |messages|
    ensures |items| == n
  {
    if n == 0 then [] else FirstItems(messages, n - 1) + [ItemOf(messages, n - 1)]
  }

  lemma {:induction false} FirstItemsAt(messages: seq<Message>, n: nat, i: nat)
    requires i < n <= |messages|
    ensures FirstItems(messages, n)[i] == ItemOf(messages, i)
  {
    if i < n - 1 {
      FirstItemsAt(messages, n - 1, i);
    }
  }

  lemma {:induction false} ItemAt(messages: seq<Message>, i: nat)
    requires i < |messages|
    ensures Items(messages)[i] == ItemOf(messages, i)
  {
    FirstItemsAt(messages, |messages|, i);
  }

  lemma {:induction false} ItemRoles(messages: seq<Message>)
    ensures forall i :: 0 <= i < |messages| ==> Items(messages)[i].role == messages[i].role
  {
    forall i | 0 <= i < |messages|
      ensures Items(messages)[i].role == messages[i].role
    {
      ItemAt(messages, i);
    }
  }

  predicate IsConversation(it: Item) {
    it.role == User || it.role == Assistant
  }

  /** The item has something to carry over. */
  predicate Carries(it: Item) {
    if IsConversation(it) then !it.content.WNil? else it.text != []
  }

  /** The item goes into the turns when out has been emitted so far. */
  predicate IntoTurns(it: Item, out: seq<Turn>) {
    IsConversation(it) || (it.role == System && it.placeable && LastRole(out) == Some(User))
  }

  function TurnContent(it: Item): WireContent {
    if IsConversation(it) then it.content else TextContent(it.text)
  }

  datatype Emitted = Emitted(out: seq<Turn>, system: seq<WireBlock>)

  function Put(it: Item, e: Emitted): Emitted {
    if !Carries(it) then e
    else if IntoTurns(it, e.out) then e.(out := AppendTurn(e.out, it.role, TurnContent(it)))
    else e.(system := e.system + it.text)
  }

  function Emit(items: seq<Item>, e: Emitted): Emitted {
    if items == [] then e else Emit(items[1..], Put(items[0], e))
  }

  lemma {:induction false} EmitAppend(a: seq<Item>, b: seq<Item>, e: Emitted)
    ensures Emit(a + b, e) == Emit(b, Emit(a, e))
    decreases a
  {
    if a == [] {
      assert a + b == b;
    } else {
      EmitAppend(a[1..], b, Put(a[0], e));
      assert (a + b)[1..] == a[1..] + b && (a + b)[0] == a[0];
    }
  }

  lemma {:induction false} EmitNothing(items: seq<Item>, e: Emitted)
    requires forall k :: 0 <= k < |items| ==> !Carries(items[k])
    ensures Emit(items, e) == e
    decreases items
  {
    if items != [] {
      EmitNothing(items[1..], e);
    }
  }

  // ---- the pass is the emission ----

  ghost predicate Stop(messages: seq<Message>, i: nat)
    requires i <= |messages|
  {
    i == |messages| || messages[i].role != System || RunStart(messages, i)
  }

  /** The state of the pass at message i agrees with the reference notions above. */
  ghost predicate Agrees(messages: seq<Message>, i: nat, st: State)
    requires i <= |messages|
  {
    && Stop(messages, i)
    && (st.out != [] <==> Opened(messages, i))
    && st.dropped == DroppedBefore(messages, i)
  }

  lemma {:induction false} OpenedNext(messages: seq<Message>, i: nat)
    requires i < |messages|
    ensures Opened(messages, Next(messages, i)) <==>
            Opened(messages, i) || (messages[i].role == User && !Rendered(messages, i).WNil?)
    ensures DroppedBefore(messages, Next(messages, i)) ==
            DroppedBefore(messages, i) +
            if messages[i].role == Assistant && !Opened(messages, i) then CallIDs(messages[i].content) else {}
  {
    assert forall j :: i < j < Next(messages, i) ==> messages[j].role == System;
  }

  lemma {:induction false} StepPutsConversation(messages: seq<Message>, i: nat, st: State)
    requires i < |messages| && Agrees(messages, i, st) && messages[i].role in {User, Assistant}
    ensures Step(messages, i, st).out == AppendTurn(st.out, messages[i].role, Rendered(messages, i))
    ensures Step(messages, i, st).system == st.system
  {
  }

  lemma {:induction false} AppendShows(out: seq<Turn>, role: Role, content: WireContent)
    ensures AppendTurn(out, role, content) != [] <==> out != [] || !content.WNil?
  {
  }

  /** A system or developer message neither opens the conversation nor drops a call. */
  lemma {:induction false} StepOthers(messages: seq<Message>, i: nat, st: State)
    requires i < |messages| && messages[i].role in {System, Developer}
    ensures Step(messages, i, st).out != [] <==> st.out != []
    ensures Step(messages, i, st).dropped == st.dropped
  {
  }

  lemma {:induction false} StepDrops(messages: seq<Message>, i: nat, st: State)
    requires i < |messages| && messages[i].role in {User, Assistant}
    ensures Step(messages, i, st).dropped ==
            st.dropped + if messages[i].role == Assistant && st.out == [] then CallIDs(messages[i].content) else {}
  {
  }

  lemma {:induction false} LeadingAssistantBringsNothing(messages: seq<Message>, i: nat)
    requires i < |messages| && messages[i].role == Assistant && !Opened(messages, i)
    ensures Rendered(messages, i).WNil?
  {
  }

  lemma {:induction false} NextStops(messages: seq<Message>, i: nat)
    requires i < |messages|
    ensures Stop(messages, Next(messages, i))
  {
  }

  lemma {:induction false} StepOpens(messages: seq<Message>, i: nat, st: State)
    requires i < |messages| && Agrees(messages, i, st)
    ensures Step(messages, i, st).out != [] <==> Opened(messages, Next(messages, i))
  {
    OpenedNext(messages, i);
    if messages[i].role in {User, Assistant} {
      StepPutsConversation(messages, i, st);
      AppendShows(st.out, messages[i].role, Rendered(messages, i));
      if messages[i].role == Assistant && !Opened(messages, i) {
        LeadingAssistantBringsNothing(messages, i);
      }
    } else {
      StepOthers(messages, i, st);
    }
  }

  lemma {:induction false} StepDroppedBefore(messages: seq<Message>, i: nat, st: State)
    requires i < |messages| && Agrees(messages, i, st)
    ensures Step(messages, i, st).dropped == DroppedBefore(messages, Next(messages, i))
  {
    OpenedNext(messages, i);
    if messages[i].role in {User, Assistant} {
      StepDrops(messages, i, st);
    } else {
      StepOthers(messages, i, st);
    }
  }

  lemma {:induction false} StepAgrees(messages: seq<Message>, i: nat, st: State)
    requires i < |messages| && Agrees(messages, i, st)
    ensures Agrees(messages, Next(messages, i), Step(messages, i, st))
  {
    NextStops(messages, i);
    StepOpens(messages, i, st);
    StepDroppedBefore(messages, i, st);
  }

  /** One step of the pass puts the item of message i. */
  lemma {:induction false} StepPuts(messages: seq<Message>, i: nat, st: State)
    requires i < |messages| && Agrees(messages, i, st)
    ensures Put(ItemOf(messages, i), Emitted(st.out, st.system)) ==
            Emitted(Step(messages, i, st).out, Step(messages, i, st).system)
  {
    if messages[i].role in {User, Assistant} {
      StepPutsConversation(messages, i, st);
    } else if messages[i].role == System {
      assert RunEnd(messages, i) == RunEnd(messages, i + 1);
    }
  }

  /** The rest of a system run brings nothing of its own. */
  lemma {:induction false} RunTailCarriesNothing(messages: seq<Message>, i: nat, k: nat)
    requires i < |messages| && i < k < Next(messages, i)
    ensures !Carries(ItemOf(messages, k))
  {
    assert messages[k].role == System && messages[k - 1].role == System;
  }

  lemma {:induction false} RunTail(messages: seq<Message>, i: nat)
    requires i < |messages|
    ensures forall k :: i < k < Next(messages, i) ==> !Carries(Items(messages)[k])
  {
    forall k | i < k < Next(messages, i)
      ensures !Carries(Items(messages)[k])
    {
      RunTailCarriesNothing(messages, i, k);
      ItemAt(messages, k);
    }
  }

  /** Emitting one item and then those of its run that carry nothing. */
  lemma {:induction false} EmitRun(items: seq<Item>, i: nat, next: nat, e: Emitted)
    requires i < next <= |items| && forall k :: i < k < next ==> !Carries(items[k])
    ensures Emit(items[i..], e) == Emit(items[next..], Put(items[i], e))
  {
    var tail := items[i + 1..next];
    EmitNothing(tail, Put(items[i], e));
    assert items[i..][0] == items[i] && items[i..][1..] == tail + items[next..];
    EmitAppend(tail, items[next..], Put(items[i], e));
  }

  lemma {:induction false} PassEmits(messages: seq<Message>, i: nat, st: State)
    requires i <= |messages| && Agrees(messages, i, st)
    ensures Emit(Items(messages)[i..], Emitted(st.out, st.system)) ==
            Emitted(Pass(messages, i, st).out, Pass(messages, i, st).system)
    decreases |messages| - i
  {
    if i < |messages| {
      StepPuts(messages, i, st);
      StepAgrees(messages, i, st);
      PassEmits(messages, Next(messages, i), Step(messages, i, st));
      RunTail(messages, i);
      ItemAt(messages, i);
      EmitRun(Items(messages), i, Next(messages, i), Emitted(st.out, st.system));
    }
  }

  /** What the emission starts from: the instructions in the system field. */
  function Origin(instructions: Option<string>): Emitted {
    Emitted([], Start(instructions).system)
  }

  /** The pass over the whole history is the emission of its items. */
  lemma {:induction false} PassIsEmission(messages: seq<Message>, instructions: Option<string>)
    ensures var e := Emit(Items(messages), Origin(instructions));
            && EncodedTurns(messages, instructions) == Kept(e.out)
            && EncodedSystem(messages, instructions) == TextContent(e.system + Lifted(e.out))
  {
    PassEmits(messages, 0, Start(instructions));
    assert Items(messages)[0..] == Items(messages);
  }

  lemma {:induction false} KeptIsEmpty(out: seq<Turn>)
    ensures Kept(out) == [] <==> out == []
    decreases out
  {
    if out != [] {
      KeptIsEmpty(out[1..]);
    }
  }

  /** A request has no turns, and is refused, exactly when no user message has content to show. */
  lemma {:induction false} NoTurns(messages: seq<Message>, instructions: Option<string>)
    ensures EncodedTurns(messages, instructions) == [] <==> !Opened(messages, |messages|)
  {
    KeptIsEmpty(Pass(messages, 0, Start(instructions)).out);
    PassOpens(messages, 0, Start(instructions));
  }

  lemma {:induction false} PassOpens(messages: seq<Message>, i: nat, st: State)
    requires i <= |messages| && Agrees(messages, i, st)
    ensures Pass(messages, i, st).out != [] <==> Opened(messages, |messages|)
    decreases |messages| - i
  {
    if i < |messages| {
      StepAgrees(messages, i, st);
      PassOpens(messages, Next(messages, i), Step(messages, i, st));
    }
  }
}
