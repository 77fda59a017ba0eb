/**
 Conservation through encodeAnthropicTurns: every message that brings something
 appears exactly once, in source order, in the turns or in the top-level system
 field, and nothing else appears.
 */
module AnthropicConservation {
  import opened Wrappers
  import opened Sequences
  import opened AnthropicModel
  import opened AnthropicEncode
  import opened AnthropicTurns
  import opened AnthropicItems
  import AnthropicLinkage

  // ---- the trace: where each item went ----

  /** For each turn the items it holds; the items in the system field, first directly, then lifted. */
  datatype Trace = Trace(turns: seq<seq<nat>>, top: seq<nat>, late: seq<nat>)

  predicate Increasing(s: seq<nat>) {
    forall a, b :: 0 <= a < b < |s| ==> s[a] < s[b]
  }

  predicate Below(s: seq<nat>, n: nat) {
    forall k :: 0 <= k < |s| ==> s[k] < n
  }

  /** The rendered blocks of the items idx, one after the other. */
  function BlocksOf(items: seq<Item>, idx: seq<nat>): seq<WireBlock>
    requires Below(idx, |items|)
  {
    if idx == [] then [] else ToBlocks(items[idx[0]].content) + BlocksOf(items, idx[1..])
  }

  /** The system text of the items idx, one after the other. */
  function TextOf(items: seq<Item>, idx: seq<nat>): seq<WireBlock>
    requires Below(idx, |items|)
  {
    if idx == [] then [] else items[idx[0]].text + TextOf(items, idx[1..])
  }

  /** The same after each item has been rendered as a turn and taken back. */
  function LiftedTextOf(items: seq<Item>, idx: seq<nat>): seq<WireBlock>
    requires Below(idx, |items|)
  {
    if idx == [] then [] else SystemBlocksOf(TextContent(items[idx[0]].text)) + LiftedTextOf(items, idx[1..])
  }

  /** A turn holds exactly the items idx, merged in order and with results first. */
  predicate Holds(items: seq<Item>, turn: Turn, idx: seq<nat>) {
    && idx != [] && Below(idx, |items|)
    && (forall k :: 0 <= k < |idx| ==> items[idx[k]].role == turn.role)
    && if turn.role == System then |idx| == 1 && turn.content == TextContent(items[idx[0]].text)
       else ToBlocks(turn.content) == ResultsFirst(BlocksOf(items, idx))
  }

  predicate AllHold(items: seq<Item>, turns: seq<Turn>, groups: seq<seq<nat>>) {
    |groups| == |turns| && forall t :: 0 <= t < |turns| ==> Holds(items, turns[t], groups[t])
  }

  /** What rendering guarantees about items: results come first, system text is non-empty text. */
  predicate WellRendered(it: Item) {
    && (IsConversation(it) ==> ResultsFirst(ToBlocks(it.content)) == ToBlocks(it.content))
    && (forall b :: b in it.text ==> b.WText? && b.text != "")
  }

  lemma {:induction false} BlocksOfAppend(items: seq<Item>, a: seq<nat>, x: nat)
    requires Below(a, |items|) && x < |items|
    ensures Below(a + [x], |items|)
    ensures BlocksOf(items, a + [x]) == BlocksOf(items, a) + ToBlocks(items[x].content)
  {
    if a == [] {
      assert a + [x] == [x] && [x][1..] == [];
      assert [] + ToBlocks(items[x].content) == ToBlocks(items[x].content) == ToBlocks(items[x].content) + [];
    } else {
      BlocksOfAppend(items, a[1..], x);
      assert (a + [x])[1..] == a[1..] + [x] && (a + [x])[0] == a[0];
      SeqAssociative(ToBlocks(items[a[0]].content), BlocksOf(items, a[1..]), ToBlocks(items[x].content));
    }
  }

  lemma {:induction false} TextOfAppend(items: seq<Item>, a: seq<nat>, x: nat)
    requires Below(a, |items|) && x < |items|
    ensures Below(a + [x], |items|)
    ensures TextOf(items, a + [x]) == TextOf(items, a) + items[x].text
  {
    if a == [] {
      assert a + [x] == [x] && [x][1..] == [];
      assert [] + items[x].text == items[x].text == items[x].text + [];
    } else {
      TextOfAppend(items, a[1..], x);
      assert (a + [x])[1..] == a[1..] + [x] && (a + [x])[0] == a[0];
      SeqAssociative(items[a[0]].text, TextOf(items, a[1..]), items[x].text);
    }
  }

  // ---- the emission keeps the trace ----

  /** The places of the items before i: each that carries something is in one of them, once. */
  ghost predicate Places(items: seq<Item>, i: nat, inTurns: seq<nat>, inTop: seq<nat>)
    requires i <= |items|
  {
    && Increasing(inTurns) && Increasing(inTop) && Below(inTop, |items|)
    && (forall x :: x in inTop ==> x !in inTurns && x < |items| && !IsConversation(items[x]))
    && (forall x :: x in inTurns || x in inTop <==> 0 <= x < i && Carries(items[x]))
  }

  ghost predicate Traced(items: seq<Item>, base: seq<WireBlock>, i: nat, e: Emitted, tr: Trace)
    requires i <= |items|
  {
    && AllHold(items, e.out, tr.turns)
    && Places(items, i, Flatten(tr.turns), tr.top)
    && e.system == base + TextOf(items, tr.top)
  }

  lemma {:induction false} PlacesNext(items: seq<Item>, i: nat, inTurns: seq<nat>, inTop: seq<nat>)
    requires i < |items| && Places(items, i, inTurns, inTop)
    ensures Carries(items[i]) ==> Places(items, i + 1, inTurns + [i], inTop)
    ensures Carries(items[i]) && !IsConversation(items[i]) ==> Places(items, i + 1, inTurns, inTop + [i])
    ensures !Carries(items[i]) ==> Places(items, i + 1, inTurns, inTop)
  {
    assert forall k :: 0 <= k < |inTurns| ==> inTurns[k] in inTurns;
    assert forall k :: 0 <= k < |inTop| ==> inTop[k] in inTop;
    assert forall x :: x in inTurns + [i] <==> x in inTurns || x == i;
    assert forall x :: x in inTop + [i] <==> x in inTop || x == i;
  }

  lemma {:induction false} GroupsSnoc(items: seq<Item>, out: seq<Turn>, groups: seq<seq<nat>>, turn: Turn,
                                      idx: seq<nat>)
    requires AllHold(items, out, groups) && Holds(items, turn, idx)
    ensures AllHold(items, out + [turn], groups + [idx])
    ensures Flatten(groups + [idx]) == Flatten(groups) + idx
  {
    FlattenSnoc(groups, idx);
  }

  /** Item i opens a turn of its own. */
  lemma {:induction false} HoldsNew(items: seq<Item>, i: nat)
    requires i < |items| && WellRendered(items[i]) && items[i].role != Developer
    ensures Holds(items, Turn(items[i].role, TurnContent(items[i])), [i])
  {
    assert BlocksOf(items, [i]) == ToBlocks(items[i].content) + BlocksOf(items, []);
    assert BlocksOf(items, [i]) == ToBlocks(items[i].content);
  }

  /** Item i is merged into the last turn. */
  lemma {:induction false} HoldsMerged(items: seq<Item>, last: Turn, idx: seq<nat>, i: nat)
    requires i < |items| && IsConversation(items[i]) && last.role == items[i].role && Holds(items, last, idx)
    ensures Holds(items, Turn(last.role, MergeContent(last.content, items[i].content)), idx + [i])
  {
    BlocksOfAppend(items, idx, i);
    ResultsFirstIncremental(BlocksOf(items, idx), ToBlocks(items[i].content));
  }

  /** Item i goes into the turns: into one of its own, or merged into the last. */
  lemma {:induction false} TraceTurn(items: seq<Item>, i: nat, out: seq<Turn>, groups: seq<seq<nat>>)
    returns (groups': seq<seq<nat>>)
    requires i < |items| && WellRendered(items[i]) && AllHold(items, out, groups)
    requires Carries(items[i]) && IntoTurns(items[i], out)
    ensures AllHold(items, AppendTurn(out, items[i].role, TurnContent(items[i])), groups')
    ensures Flatten(groups') == Flatten(groups) + [i]
  {
    var role, content := items[i].role, TurnContent(items[i]);
    if LastRole(out) == Some(role) {
      var n := |out| - 1;
      assert AllHold(items, out[..n], groups[..n]);
      FlattenSnoc(groups[..n], groups[n]);
      assert groups[..n] + [groups[n]] == groups;
      groups' := groups[..n] + [groups[n] + [i]];
      HoldsMerged(items, out[n], groups[n], i);
      GroupsSnoc(items, out[..n], groups[..n], Turn(role, MergeContent(out[n].content, content)), groups[n] + [i]);
    } else {
      groups' := groups + [[i]];
      HoldsNew(items, i);
      GroupsSnoc(items, out, groups, Turn(role, content), [i]);
    }
  }

  lemma {:induction false} TopExtended(items: seq<Item>, base: seq<WireBlock>, top: seq<nat>, i: nat)
    requires i < |items| && Below(top, |items|)
    ensures Below(top + [i], |items|)
    ensures base + TextOf(items, top) + items[i].text == base + TextOf(items, top + [i])
  {
    TextOfAppend(items, top, i);
  }

  lemma {:induction false} PutTraced(items: seq<Item>, base: seq<WireBlock>, i: nat, e: Emitted, tr: Trace)
    returns (tr': Trace)
    requires i < |items| && WellRendered(items[i]) && Traced(items, base, i, e, tr)
    ensures Traced(items, base, i + 1, Put(items[i], e), tr')
  {
    PlacesNext(items, i, Flatten(tr.turns), tr.top);
    if !Carries(items[i]) {
      tr' := tr;
    } else if IntoTurns(items[i], e.out) {
      var groups := TraceTurn(items, i, e.out, tr.turns);
      tr' := tr.(turns := groups);
    } else {
      TopExtended(items, base, tr.top, i);
      tr' := tr.(top := tr.top + [i]);
    }
  }

  lemma {:induction false} EmitTraced(items: seq<Item>, base: seq<WireBlock>, i: nat, e: Emitted, tr: Trace)
    returns (tr': Trace)
    requires i <= |items| && (forall k :: 0 <= k < |items| ==> WellRendered(items[k]))
    requires Traced(items, base, i, e, tr)
    ensures Traced(items, base, |items|, Emit(items[i..], e), tr')
    decreases |items| - i
  {
    if i == |items| {
      tr' := tr;
    } else {
      var mid := PutTraced(items, base, i, e, tr);
      assert items[i..][1..] == items[i + 1..];
      tr' := EmitTraced(items, base, i + 1, Put(items[i], e), mid);
    }
  }

  // ---- the post-pass moves whole system runs, and nothing else ----

  function KeptGroups(out: seq<Turn>, groups: seq<seq<nat>>): seq<seq<nat>>
    requires |out| == |groups|
  {
    if out == [] then []
    else if Misplaced(out) then KeptGroups(out[1..], groups[1..])
    else [groups[0]] + KeptGroups(out[1..], groups[1..])
  }

  function LateGroups(out: seq<Turn>, groups: seq<seq<nat>>): seq<nat>
    requires |out| == |groups|
  {
    if out == [] then []
    else if Misplaced(out) then groups[0] + LateGroups(out[1..], groups[1..])
    else LateGroups(out[1..], groups[1..])
  }

  lemma {:induction false} KeptHold(items: seq<Item>, out: seq<Turn>, groups: seq<seq<nat>>)
    requires AllHold(items, out, groups)
    ensures AllHold(items, Kept(out), KeptGroups(out, groups))
    decreases out
  {
    if out != [] {
      assert Holds(items, out[0], groups[0]);
      KeptHold(items, out[1..], groups[1..]);
    }
  }

  /** The turns that are taken out are single runs. */
  ghost predicate AllSystem(items: seq<Item>, idx: seq<nat>) {
    Below(idx, |items|) && forall k :: 0 <= k < |idx| ==> items[idx[k]].role == System
  }

  lemma {:induction false} LateHold(items: seq<Item>, out: seq<Turn>, groups: seq<seq<nat>>)
    requires AllHold(items, out, groups)
    ensures AllSystem(items, LateGroups(out, groups))
    ensures Lifted(out) == LiftedTextOf(items, LateGroups(out, groups))
    decreases out
  {
    if out != [] {
      assert Holds(items, out[0], groups[0]);
      LateHold(items, out[1..], groups[1..]);
      if Misplaced(out) {
        LateCons(items, out[0], groups[0][0], LateGroups(out[1..], groups[1..]));
        assert groups[0] == [groups[0][0]];
      }
    }
  }

  lemma {:induction false} LateCons(items: seq<Item>, turn: Turn, x: nat, late: seq<nat>)
    requires Holds(items, turn, [x]) && turn.role == System && AllSystem(items, late)
    ensures AllSystem(items, [x] + late)
    ensures LiftedTextOf(items, [x] + late) == SystemBlocksOf(turn.content) + LiftedTextOf(items, late)
  {
    assert [x][0] == x && ([x] + late)[1..] == late;
  }

  lemma {:induction false} IncreasingSplit(a: seq<nat>, b: seq<nat>)
    ensures Increasing(a + b) <==>
            Increasing(a) && Increasing(b) && forall x, y :: x in a && y in b ==> x < y
  {
    if Increasing(a + b) {
      forall x, y | x in a && y in b
        ensures x < y
      {
        var i, j :| 0 <= i < |a| && a[i] == x && 0 <= j < |b| && b[j] == y;
        assert (a + b)[i] == x && (a + b)[|a| + j] == y;
      }
      assert forall i :: 0 <= i < |a| ==> (a + b)[i] == a[i];
      assert forall j {:trigger b[j]} :: 0 <= j < |b| ==> (a + b)[|a| + j] == b[j];
    }
    if Increasing(a) && Increasing(b) && forall x, y :: x in a && y in b ==> x < y {
      forall i, j | 0 <= i < j < |a + b|
        ensures (a + b)[i] < (a + b)[j]
      {
        if i < |a| <= j {
          assert a[i] in a && b[j - |a|] in b;
        }
      }
    }
  }

  lemma {:induction false} KeptPlaces(out: seq<Turn>, groups: seq<seq<nat>>)
    requires |out| == |groups| && Increasing(Flatten(groups))
    ensures Increasing(Flatten(KeptGroups(out, groups))) && Increasing(LateGroups(out, groups))
    ensures forall x :: x in Flatten(groups) <==>
              x in Flatten(KeptGroups(out, groups)) || x in LateGroups(out, groups)
    ensures forall x :: x in LateGroups(out, groups) ==> x !in Flatten(KeptGroups(out, groups))
    decreases out
  {
    if out != [] {
      var g, rest := groups[0], groups[1..];
      IncreasingSplit(g, Flatten(rest));
      KeptPlaces(out[1..], rest);
      IncreasingSplit(g, Flatten(KeptGroups(out[1..], rest)));
      IncreasingSplit(g, LateGroups(out[1..], rest));
      assert ([g] + KeptGroups(out[1..], rest))[1..] == KeptGroups(out[1..], rest);
    }
  }

  lemma {:induction false} NothingLateAlternates(out: seq<Turn>, groups: seq<seq<nat>>)
    requires |out| == |groups| && (forall t :: 0 <= t < |groups| ==> groups[t] != [])
    requires LateGroups(out, groups) == []
    ensures Kept(out) == out
    decreases out
  {
    if out != [] {
      NothingLateAlternates(out[1..], groups[1..]);
    }
  }

  // ---- the separator join is associative ----

  lemma {:induction false} TextsAppend(a: seq<WireBlock>, b: seq<WireBlock>)
    ensures Texts(a + b) == Texts(a) + Texts(b)
  {
    if a == [] {
      assert a + b == b;
    } else {
      TextsAppend(a[1..], b);
      assert (a + b)[1..] == a[1..] + b && (a + b)[0] == a[0];
    }
  }

  lemma {:induction false} JoinReplace(a: seq<string>, m: seq<string>, r: seq<string>, sep: string)
    requires m != []
    ensures Join(a + [Join(m, sep)] + r, sep) == Join(a + m + r, sep)
  {
    var one := [Join(m, sep)];
    assert Join(one, sep) == Join(m, sep);
    assert one + [] == one && m + [] == m;
    if r == [] {
      assert a + one + r == a + one && a + m + r == a + m;
    } else {
      JoinAppend(one, r, sep);
      JoinAppend(m, r, sep);
      assert a + one + r == a + (one + r) && a + m + r == a + (m + r);
    }
    if a == [] {
      assert a + one + r == one + r && a + m + r == m + r;
    } else {
      JoinAppend(a, one + r, sep);
      JoinAppend(a, m + r, sep);
    }
  }

  /** The text that a rendered system field or turn shows. */
  function Shown(content: WireContent): string {
    match content
    case WNil => ""
    case WString(s) => s
    case WBlocks(blocks) => Join(Texts(blocks), SYSTEM_SEPARATOR)
  }

  lemma {:induction false} ShownText(blocks: seq<WireBlock>)
    ensures Shown(TextContent(blocks)) == Join(Texts(blocks), SYSTEM_SEPARATOR)
  {
  }

  /** Rendering a run and taking its block form back gives the run or its join, never nothing. */
  lemma {:induction false} LiftedBlocks(blocks: seq<WireBlock>)
    requires blocks != [] && forall b :: b in blocks ==> b.WText? && b.text != ""
    ensures Texts(blocks) != []
    ensures Texts(SystemBlocksOf(TextContent(blocks))) == Texts(blocks)
            || Texts(SystemBlocksOf(TextContent(blocks))) == [Join(Texts(blocks), SYSTEM_SEPARATOR)]
  {
    assert blocks[0] in blocks;
    assert Texts(blocks) == [blocks[0].text] + Texts(blocks[1..]);
  }

  lemma {:induction false} LiftedJoin(items: seq<Item>, a: seq<WireBlock>, late: seq<nat>)
    requires Below(late, |items|)
    requires forall k :: 0 <= k < |late| ==> items[late[k]].text != [] && WellRendered(items[late[k]])
    ensures Join(Texts(a + LiftedTextOf(items, late)), SYSTEM_SEPARATOR)
            == Join(Texts(a + TextOf(items, late)), SYSTEM_SEPARATOR)
    decreases late
  {
    if late != [] {
      var source := items[late[0]].text;
      var lifted := SystemBlocksOf(TextContent(source));
      var rest := TextOf(items, late[1..]);
      LiftedJoin(items, a + lifted, late[1..]);
      assert a + LiftedTextOf(items, late) == a + lifted + LiftedTextOf(items, late[1..]);
      assert a + TextOf(items, late) == a + source + rest;
      LiftedBlocks(source);
      TextsAppend(a + lifted, rest);
      TextsAppend(a, lifted);
      TextsAppend(a + source, rest);
      TextsAppend(a, source);
      JoinReplace(Texts(a), Texts(source), Texts(rest), SYSTEM_SEPARATOR);
    }
  }

  // ---- the theorem ----

  /** Every item that carries something is in exactly one place. */
  ghost predicate PlacedOnce(items: seq<Item>, tr: Trace) {
    && Increasing(Flatten(tr.turns)) && Increasing(tr.top) && Increasing(tr.late)
    && Below(tr.top, |items|) && Below(tr.late, |items|)
    && (forall x :: x in tr.top ==> x !in Flatten(tr.turns) && x !in tr.late && !IsConversation(items[x]))
    && (forall x :: x in tr.late ==> x !in Flatten(tr.turns) && !IsConversation(items[x]))
    && (forall x :: x in Flatten(tr.turns) || x in tr.top || x in tr.late <==>
          0 <= x < |items| && Carries(items[x]))
  }

  /**
   Nothing is lost and nothing is said twice. A conversation turn holds the
   rendered blocks of its messages in source order, results first; an
   in-conversation system turn is one whole run; the system field shows the
   instructions, then the runs that went there directly, then the lifted ones.
   Equal neighbours are left only by lifting.
   */
  ghost predicate Conserves(items: seq<Item>, base: seq<WireBlock>,
                            turns: seq<Turn>, system: WireContent, tr: Trace)
  {
    && PlacedOnce(items, tr)
    && AllHold(items, turns, tr.turns)
    && system == TextContent(base + TextOf(items, tr.top) + LiftedTextOf(items, tr.late))
    && Shown(system) == Join(Texts(base + TextOf(items, tr.top) + TextOf(items, tr.late)), SYSTEM_SEPARATOR)
    && (tr.late == [] ==> Alternates(turns))
  }

  lemma {:induction false} LiftKeepsText(items: seq<Item>, base: seq<WireBlock>, out: seq<Turn>, tr: Trace)
    requires forall k :: 0 <= k < |items| ==> WellRendered(items[k])
    requires AllHold(items, out, tr.turns) && Places(items, |items|, Flatten(tr.turns), tr.top)
    requires Below(LateGroups(out, tr.turns), |items|)
    ensures var late := LateGroups(out, tr.turns);
            Shown(TextContent(base + TextOf(items, tr.top) + LiftedTextOf(items, late)))
            == Join(Texts(base + TextOf(items, tr.top) + TextOf(items, late)), SYSTEM_SEPARATOR)
  {
    var late := LateGroups(out, tr.turns);
    LateHold(items, out, tr.turns);
    KeptPlaces(out, tr.turns);
    forall k | 0 <= k < |late|
      ensures items[late[k]].text != []
    {
      assert late[k] in late && late[k] in Flatten(tr.turns);
      assert Carries(items[late[k]]);
    }
    LiftedJoin(items, base + TextOf(items, tr.top), late);
    ShownText(base + TextOf(items, tr.top) + LiftedTextOf(items, late));
  }

  lemma {:induction false} LiftConserves(items: seq<Item>, base: seq<WireBlock>, e: Emitted, tr: Trace)
    requires forall k :: 0 <= k < |items| ==> WellRendered(items[k])
    requires Traced(items, base, |items|, e, tr) && Alternates(e.out)
    ensures Conserves(items, base, Kept(e.out), TextContent(e.system + Lifted(e.out)),
                      Trace(KeptGroups(e.out, tr.turns), tr.top, LateGroups(e.out, tr.turns)))
  {
    KeptHold(items, e.out, tr.turns);
    LateHold(items, e.out, tr.turns);
    KeptPlaces(e.out, tr.turns);
    LiftKeepsText(items, base, e.out, tr);
    if LateGroups(e.out, tr.turns) == [] {
      assert forall t :: 0 <= t < |e.out| ==> Holds(items, e.out[t], tr.turns[t]);
      NothingLateAlternates(e.out, tr.turns);
    }
  }

  lemma {:induction false} EncodedIsOrdered(content: seq<Block>)
    ensures ResultsFirst(ToBlocks(EncodeContent(content))) == ToBlocks(EncodeContent(content))
  {
    ResultsFirstParts(RenderAll(content));
    OrderedIsFixed([]);
    if EncodeContent(content).WString? {
      OrderedIsFixed(ToBlocks(EncodeContent(content)));
    }
  }

  lemma {:induction false} RenderedIsEncoded(messages: seq<Message>, i: nat) returns (content: seq<Block>)
    requires i < |messages|
    ensures Rendered(messages, i).WNil? || Rendered(messages, i) == EncodeContent(content)
  {
    content := if messages[i].role == User then DropOrphans(messages[i].content, DroppedBefore(messages, i))
               else messages[i].content;
  }

  lemma {:induction false} RenderedIsOrdered(messages: seq<Message>, i: nat)
    requires i < |messages|
    ensures ResultsFirst(ToBlocks(Rendered(messages, i))) == ToBlocks(Rendered(messages, i))
  {
    var content := RenderedIsEncoded(messages, i);
    OrderedIsFixed([]);
    EncodedIsOrdered(content);
  }

  lemma {:induction false} ItemIsWellRendered(messages: seq<Message>, i: nat)
    requires i < |messages|
    ensures WellRendered(ItemOf(messages, i))
  {
    RenderedIsOrdered(messages, i);
    AnthropicLinkage.SystemTextIsText(messages[i].content);
    if RunStart(messages, i) {
      AnthropicLinkage.RunBlocksAreText(messages, i, RunEnd(messages, i + 1));
    }
  }

  lemma {:induction false} EmissionAlternates(messages: seq<Message>, instructions: Option<string>)
    ensures Alternates(Emit(Items(messages), Origin(instructions)).out)
  {
    PassAlternates(messages, 0, Start(instructions));
    PassEmits(messages, 0, Start(instructions));
    assert Items(messages)[0..] == Items(messages);
  }

  lemma {:induction false} Conservation(messages: seq<Message>, instructions: Option<string>)
    ensures exists tr :: Conserves(Items(messages), Origin(instructions).system, EncodedTurns(messages, instructions),
                                   EncodedSystem(messages, instructions), tr)
  {
    var items, origin := Items(messages), Origin(instructions);
    forall k | 0 <= k < |items|
      ensures WellRendered(items[k])
    {
      ItemIsWellRendered(messages, k);
      ItemAt(messages, k);
    }
    assert Places(items, 0, Flatten<nat>([]), []);
    var tr := EmitTraced(items, origin.system, 0, origin, Trace([], [], []));
    assert items[0..] == items;
    var e := Emit(items, origin);
    EmissionAlternates(messages, instructions);
    LiftConserves(items, origin.system, e, tr);
    PassIsEmission(messages, instructions);
    assert Conserves(items, origin.system, EncodedTurns(messages, instructions), EncodedSystem(messages, instructions),
                     Trace(KeptGroups(e.out, tr.turns), tr.top, LateGroups(e.out, tr.turns)));
  }
}
