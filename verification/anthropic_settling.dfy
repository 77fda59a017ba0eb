/**
 When decode-after-encode is idempotent. The first trip can turn blocks into
 unmarked texts, which a second trip joins into one, or into an empty text, which
 a second trip drops; in every other case, and from the second trip on, nothing
 changes any more.
 */
module AnthropicSettling {
  import opened Wrappers
  import opened Sequences
  import opened AnthropicModel
  import opened AnthropicEncode
  import opened AnthropicDecode
  import opened AnthropicNormal

  // ---- what a source block shows ----

  /** The first trip leaves an unmarked text: the only kind of block that the string form joins. */
  predicate ShowsText(b: Block) {
    match b
    case Text(text, cache, citations) =>
      text != "" && cache.None? && forall c :: c in citations ==> !IsAnthropicCitation(c)
    case Refusal(refusal, cache) => refusal != "" && cache.None?
    case ReasoningBlock(r, _) => !Native(r) && (r.text != "" || |r.summary| > 0)
    case FileBlock(source, _, cache) => source.Some? && source.value.TextDocument? && cache.None?
    case _ => false
  }

  /** The first trip leaves nothing. */
  predicate ShowsNothing(b: Block) {
    match b
    case Text(text, _, _) => text == ""
    case Refusal(refusal, _) => refusal == ""
    case ReasoningBlock(r, _) => !Native(r) && r.text == "" && r.summary == []
    case RedactedReasoning(r, _) => r.provider != Anthropic || r.encrypted == ""
    case ImageBlock(image, _) => EncodeImage(image).None?
    case FileBlock(source, _, _) => source.None?
    case Audio(_, _) => true
    case _ => false
  }

  /** The same inside a tool result, which keeps nothing but texts, images and documents. */
  predicate PartShowsText(b: Block) {
    || (b.Text? && ShowsText(b))
    || (b.FileBlock? && b.source.Some? && b.source.value.TextDocument?)
  }

  predicate PartShowsNothing(b: Block) {
    if b.Text? || b.ImageBlock? || b.FileBlock? then ShowsNothing(b) else true
  }

  function TextsShown(blocks: seq<Block>): nat {
    if blocks == [] then 0 else (if ShowsText(blocks[0]) then 1 else 0) + TextsShown(blocks[1..])
  }

  function PartTextsShown(content: seq<Block>): nat {
    if content == [] then 0 else (if PartShowsText(content[0]) then 1 else 0) + PartTextsShown(content[1..])
  }

  predicate OnlyTexts(blocks: seq<Block>) {
    forall b :: b in blocks ==> ShowsText(b) || ShowsNothing(b)
  }

  /** Nothing but unmarked texts is left, and several of them. */
  predicate ShowsSeveralTexts(blocks: seq<Block>) {
    OnlyTexts(blocks) && TextsShown(blocks) >= 2
  }

  predicate PartsShowSeveralTexts(content: seq<Block>) {
    (forall b :: b in content ==> PartShowsText(b) || PartShowsNothing(b)) && PartTextsShown(content) >= 2
  }

  /** Reasoning of another family with nothing but empty summaries. */
  predicate ShowsEmptyText(b: Block) {
    b.ReasoningBlock? && !Native(b.reasoning) && b.reasoning.text == ""
    && |b.reasoning.summary| > 0 && Join(b.reasoning.summary, "") == ""
  }

  predicate ResultSettles(content: seq<Block>) {
    AllPlainText(content) || !PartsShowSeveralTexts(content)
  }

  predicate BlockSettles(b: Block) {
    && !ShowsEmptyText(b)
    && (b.ToolResult? ==> ResultSettles(b.content))
  }

  /** Read off the source blocks. */
  predicate Settles(blocks: seq<Block>) {
    AllPlainText(blocks) || (!ShowsSeveralTexts(blocks) && forall b :: b in blocks ==> BlockSettles(b))
  }

  predicate Merges(blocks: seq<Block>) {
    |blocks| >= 2 && AllPlainText(blocks)
  }

  lemma {:induction false} NoCitationsIff(citations: seq<Citation>)
    ensures Filter(IsAnthropicCitation, citations) == [] <==> forall c :: c in citations ==> !IsAnthropicCitation(c)
  {
    FilterMembers(IsAnthropicCitation, citations);
    if Filter(IsAnthropicCitation, citations) != [] {
      assert Filter(IsAnthropicCitation, citations)[0] in Filter(IsAnthropicCitation, citations);
    }
  }

  lemma {:induction false} BlockShows(b: Block)
    ensures ShowsNothing(b) <==> NormalBlock(b) == []
    ensures ShowsText(b) <==> |NormalBlock(b)| == 1 && IsPlainText(NormalBlock(b)[0])
    ensures |NormalBlock(b)| <= 1
  {
    if b.Text? {
      NoCitationsIff(b.citations);
    }
  }

  lemma {:induction false} PartShows(b: Block)
    ensures PartShowsNothing(b) <==> NormalResultPart(b) == []
    ensures PartShowsText(b) <==> |NormalResultPart(b)| == 1 && IsPlainText(NormalResultPart(b)[0])
    ensures |NormalResultPart(b)| <= 1
  {
    if b.Text? {
      NoCitationsIff(b.citations);
    }
  }

  lemma {:induction false} PlainConcatenation(a: seq<Block>, b: seq<Block>)
    ensures AllPlainText(a + b) <==> AllPlainText(a) && AllPlainText(b)
  {
    assert forall x :: x in a + b <==> x in a || x in b;
  }

  lemma {:induction false} AtMostOnePlain(a: seq<Block>)
    requires |a| <= 1
    ensures AllPlainText(a) <==> a == [] || IsPlainText(a[0])
  {
    assert a != [] ==> a[0] in a;
  }

  lemma {:induction false} BlocksShow(blocks: seq<Block>)
    ensures AllPlainText(NormalBlocks(blocks)) <==> OnlyTexts(blocks)
    ensures AllPlainText(NormalBlocks(blocks)) ==> |NormalBlocks(blocks)| == TextsShown(blocks)
  {
    if blocks != [] {
      BlockShows(blocks[0]);
      AtMostOnePlain(NormalBlock(blocks[0]));
      PlainConcatenation(NormalBlock(blocks[0]), NormalBlocks(blocks[1..]));
      BlocksShow(blocks[1..]);
      assert forall b :: b in blocks <==> b == blocks[0] || b in blocks[1..];
    }
  }

  lemma {:induction false} PartsShow(content: seq<Block>)
    ensures AllPlainText(NormalResultParts(content)) <==>
      forall b :: b in content ==> PartShowsText(b) || PartShowsNothing(b)
    ensures AllPlainText(NormalResultParts(content)) ==> |NormalResultParts(content)| == PartTextsShown(content)
  {
    if content != [] {
      PartShows(content[0]);
      AtMostOnePlain(NormalResultPart(content[0]));
      PlainConcatenation(NormalResultPart(content[0]), NormalResultParts(content[1..]));
      PartsShow(content[1..]);
      assert forall b :: b in content <==> b == content[0] || b in content[1..];
    }
  }

  lemma {:induction false} NormalWithoutResults(blocks: seq<Block>)
    requires !AllPlainText(blocks) && forall b :: b in blocks ==> !b.ToolResult?
    ensures Normal(blocks) == NormalBlocks(blocks)
  {
    FilterNone(IsCanonicalResult, blocks);
    FilterAll(IsCanonicalOther, blocks);
    assert NormalBlocks([]) + NormalBlocks(blocks) == NormalBlocks(blocks);
  }

  lemma {:induction false} OnlyTextsAreInOrder(blocks: seq<Block>)
    requires !AllPlainText(blocks) && OnlyTexts(blocks)
    ensures Normal(blocks) == NormalBlocks(blocks)
  {
    forall b | b in blocks
      ensures !b.ToolResult?
    {
      assert ShowsText(b) || ShowsNothing(b);
    }
    NormalWithoutResults(blocks);
  }

  lemma {:induction false} OnlyTextsIff(blocks: seq<Block>)
    requires !AllPlainText(blocks)
    ensures AllPlainText(Normal(blocks)) <==> OnlyTexts(blocks)
  {
    OrderedFirst(blocks);
    BlocksShow(ResultsThenOthers(blocks));
  }

  /** Several unmarked texts and nothing else come out of the first trip exactly when the source blocks show that. */
  lemma {:induction false} SeveralTextsIff(blocks: seq<Block>)
    requires !AllPlainText(blocks)
    ensures Merges(Normal(blocks)) <==> ShowsSeveralTexts(blocks)
  {
    OnlyTextsIff(blocks);
    if OnlyTexts(blocks) {
      OnlyTextsAreInOrder(blocks);
      BlocksShow(blocks);
    }
  }

  // ---- plain texts ----

  predicate NothingToJoin(blocks: seq<Block>) {
    blocks == [] || (|blocks| == 1 && IsPlainText(blocks[0]) && blocks[0].text != "")
  }

  /** Joining is idempotent, and fixes a list of plain texts exactly when there is nothing to join or drop. */
  lemma {:induction false} JoinedFixed(blocks: seq<Block>)
    requires AllPlainText(blocks)
    ensures AllPlainText(Joined(blocks)) && Joined(Joined(blocks)) == Joined(blocks)
    ensures NothingToJoin(Joined(blocks))
    ensures Joined(blocks) == blocks <==> NothingToJoin(blocks)
  {
    var s := PlainConcat(blocks);
    if |blocks| == 1 {
      assert IsPlainText(blocks[0]);
      assert s == blocks[0].text + PlainConcat(blocks[1..]);
      assert blocks[1..] == [] && blocks[0].text + "" == blocks[0].text;
      assert blocks == [Text(blocks[0].text, None, [])];
    }
    var one := [Text(s, None, [])];
    assert IsPlainText(one[0]) && one[1..] == [];
    assert PlainConcat(one) == s;
  }

  // ---- the content of a tool result ----

  lemma {:induction false} CitationsFixed(citations: seq<Citation>)
    ensures Filter(IsAnthropicCitation, Filter(IsAnthropicCitation, citations))
      == Filter(IsAnthropicCitation, citations)
  {
    FilterMembers(IsAnthropicCitation, citations);
    FilterAll(IsAnthropicCitation, Filter(IsAnthropicCitation, citations));
  }

  lemma {:induction false} PartFixed(b: Block)
    ensures |NormalResultPart(b)| <= 1
    ensures forall x :: x in NormalResultPart(b) ==> NormalResultPart(x) == [x] && (x.Text? ==> x.text != "")
  {
    if b.Text? {
      CitationsFixed(b.citations);
    }
  }

  lemma {:induction false} PartsFixed(content: seq<Block>)
    ensures NormalResultParts(NormalResultParts(content)) == NormalResultParts(content)
    ensures forall x :: x in NormalResultParts(content) && x.Text? ==> x.text != ""
  {
    if content != [] {
      var head, tail := NormalResultPart(content[0]), NormalResultParts(content[1..]);
      PartFixed(content[0]);
      PartsFixed(content[1..]);
      if head == [] {
        assert head + tail == tail;
      } else {
        assert (head + tail)[1..] == tail && (head + tail)[0] == head[0];
      }
    }
  }

  lemma {:induction false} ResultIdempotentIff(content: seq<Block>)
    ensures NormalResult(NormalResult(content)) == NormalResult(content) <==> ResultSettles(content)
  {
    if AllPlainText(content) {
      JoinedFixed(content);
    } else {
      var once := NormalResult(content);
      PartsFixed(content);
      PartsShow(content);
      if AllPlainText(once) {
        JoinedFixed(once);
        assert |once| == 1 ==> once[0] in once && IsPlainText(once[0]) && once[0].text != "";
      }
    }
  }

  lemma {:induction false} NormalResultSettles(content: seq<Block>)
    ensures ResultSettles(NormalResult(content))
  {
    if AllPlainText(content) {
      JoinedFixed(content);
    } else {
      PartsFixed(content);
      PartsShow(NormalResult(content));
    }
  }

  // ---- one block, and a list of them ----

  lemma {:induction false} BlockFixedIff(b: Block)
    ensures |NormalBlock(b)| <= 1
    ensures |NormalBlocks(NormalBlock(b))| <= |NormalBlock(b)|
    ensures NormalBlocks(NormalBlock(b)) == NormalBlock(b) <==> BlockSettles(b)
  {
    var once := NormalBlock(b);
    if once != [] {
      assert once[1..] == [];
      assert NormalBlocks(once) == NormalBlock(once[0]) + [];
    }
    if b.Text? {
      CitationsFixed(b.citations);
    }
    if b.ToolResult? {
      ResultIdempotentIff(b.content);
    }
  }

  lemma {:induction false} BlocksFixedIff(blocks: seq<Block>)
    ensures |NormalBlocks(NormalBlocks(blocks))| <= |NormalBlocks(blocks)|
    ensures NormalBlocks(NormalBlocks(blocks)) == NormalBlocks(blocks) <==> forall b :: b in blocks ==> BlockSettles(b)
  {
    if blocks != [] {
      var head, tail := NormalBlock(blocks[0]), NormalBlocks(blocks[1..]);
      BlockFixedIff(blocks[0]);
      BlocksFixedIff(blocks[1..]);
      NormalBlocksAppend(head, tail);
      EqualConcatenations(NormalBlocks(head), head, NormalBlocks(tail), tail);
      assert forall b :: b in blocks <==> b == blocks[0] || b in blocks[1..];
    }
  }

  lemma {:induction false} EqualConcatenations<T>(a: seq<T>, a': seq<T>, b: seq<T>, b': seq<T>)
    requires |a| <= |a'| && |b| <= |b'|
    ensures a + b == a' + b' <==> a == a' && b == b'
  {
    if a + b == a' + b' {
      assert |a| == |a'|;
      assert (a + b)[..|a|] == a && (a' + b')[..|a|] == a';
      assert (a + b)[|a|..] == b && (a' + b')[|a|..] == b';
    }
  }

  // ---- a message ----

  /** Every normal block comes from a source block, and every source block's are there. */
  lemma {:induction false} NormalMembers(blocks: seq<Block>)
    ensures forall b, x :: b in blocks && x in NormalBlock(b) ==> x in NormalBlocks(blocks)
    ensures forall x :: x in NormalBlocks(blocks) ==> exists b :: b in blocks && x in NormalBlock(b)
  {
    if blocks != [] {
      NormalMembers(blocks[1..]);
    }
  }

  lemma {:induction false} OrderedConcatenation(results: seq<Block>, others: seq<Block>)
    requires forall x :: x in results ==> x.ToolResult?
    requires forall x :: x in others ==> !x.ToolResult?
    ensures ResultsThenOthers(results + others) == results + others
  {
    FilterAppend(IsCanonicalResult, results, others);
    FilterAppend(IsCanonicalOther, results, others);
    FilterAll(IsCanonicalResult, results);
    FilterNone(IsCanonicalResult, others);
    FilterNone(IsCanonicalOther, results);
    FilterAll(IsCanonicalOther, others);
  }

  /** The normal form is in results-first order already. */
  lemma {:induction false} NormalIsOrdered(blocks: seq<Block>)
    requires !AllPlainText(blocks)
    ensures ResultsThenOthers(Normal(blocks)) == Normal(blocks)
  {
    var results, others := Filter(IsCanonicalResult, blocks), Filter(IsCanonicalOther, blocks);
    FilterMembers(IsCanonicalResult, blocks);
    FilterMembers(IsCanonicalOther, blocks);
    NormalKeepsKind(results, true);
    NormalKeepsKind(others, false);
    OrderedConcatenation(NormalBlocks(results), NormalBlocks(others));
  }

  lemma {:induction false} NormalKeepsKind(blocks: seq<Block>, results: bool)
    requires forall b :: b in blocks ==> b.ToolResult? == results
    ensures forall x :: x in NormalBlocks(blocks) ==> x.ToolResult? == results
  {
    if blocks != [] {
      NormalKeepsKind(blocks[1..], results);
      var head, tail := NormalBlock(blocks[0]), NormalBlocks(blocks[1..]);
      assert blocks[0] in blocks;
      assert forall x :: x in head ==> x.ToolResult? == results;
      assert forall x :: x in head + tail ==> x in head || x in tail;
    }
  }

  /** The second trip over a message that is not plain text. */
  lemma {:induction false} SecondTrip(blocks: seq<Block>)
    requires !AllPlainText(blocks)
    ensures !AllPlainText(Normal(blocks)) ==> Normal(Normal(blocks)) == NormalBlocks(Normal(blocks))
    ensures NormalBlocks(Normal(blocks)) == Normal(blocks) <==> forall b :: b in blocks ==> BlockSettles(b)
  {
    var ordered := ResultsThenOthers(blocks);
    OrderedFirst(blocks);
    BlocksFixedIff(ordered);
    NormalIsOrdered(blocks);
    OrderedFirst(Normal(blocks));
  }

  /** The members of a message's normal form, as those of the blocks' normal forms. */
  lemma {:induction false} MessageMembers(blocks: seq<Block>)
    requires !AllPlainText(blocks)
    ensures forall b, x :: b in blocks && x in NormalBlock(b) ==> x in Normal(blocks)
    ensures forall x :: x in Normal(blocks) ==> exists b :: b in blocks && x in NormalBlock(b)
  {
    OrderedFirst(blocks);
    NormalMembers(ResultsThenOthers(blocks));
  }

  lemma {:induction false} EmptyTextOrigin(b: Block)
    ensures ShowsEmptyText(b) <==> Text("", None, []) in NormalBlock(b)
    ensures b.ToolResult? ==> exists x :: x in NormalBlock(b) && !IsPlainText(x)
  {
    if b.ToolResult? {
      assert NormalBlock(b)[0] in NormalBlock(b);
    }
    if ShowsEmptyText(b) {
      assert NormalBlock(b)[0] in NormalBlock(b);
    }
  }

  /** A message whose normal form is plain: what a second trip finds in it. */
  lemma {:induction false} PlainNormalForm(blocks: seq<Block>)
    requires !AllPlainText(blocks) && AllPlainText(Normal(blocks))
    ensures (forall b :: b in blocks ==> BlockSettles(b)) <==> Text("", None, []) !in Normal(blocks)
  {
    MessageMembers(blocks);
    forall b | b in blocks
      ensures ShowsEmptyText(b) <==> Text("", None, []) in NormalBlock(b)
      ensures !b.ToolResult?
    {
      EmptyTextOrigin(b);
    }
  }

  /** Decode-after-encode is idempotent on exactly these messages. */
  lemma {:induction false} IdempotentIff(blocks: seq<Block>)
    ensures Normal(Normal(blocks)) == Normal(blocks) <==> Settles(blocks)
  {
    if AllPlainText(blocks) {
      JoinedFixed(blocks);
    } else {
      SecondTrip(blocks);
      SeveralTextsIff(blocks);
      if AllPlainText(Normal(blocks)) {
        var once := Normal(blocks);
        PlainNormalForm(blocks);
        JoinedFixed(once);
        if |once| == 1 {
          assert once[0] in once && IsPlainText(once[0]);
          assert once[0] == Text(once[0].text, None, []);
        }
      }
    }
  }

  lemma {:induction false} NormalBlocksSettle(b: Block, x: Block)
    requires x in NormalBlock(b)
    ensures BlockSettles(x)
    ensures !IsPlainText(x) ==> exists y :: y in NormalBlock(x) && !IsPlainText(y)
  {
    if b.ToolResult? {
      NormalResultSettles(b.content);
      assert NormalBlock(x)[0].ToolResult?;
    }
    if b.Text? {
      CitationsFixed(b.citations);
    }
    if !IsPlainText(x) {
      assert NormalBlock(x) != [] && NormalBlock(x)[0] in NormalBlock(x);
    }
  }

  /** From the second trip on nothing changes, whatever the message. */
  lemma {:induction false} SecondTripIsFinal(blocks: seq<Block>)
    ensures Normal(Normal(Normal(blocks))) == Normal(Normal(blocks))
  {
    var once := Normal(blocks);
    IdempotentIff(once);
    if !AllPlainText(once) && !AllPlainText(blocks) {
      FirstTripSettles(blocks);
    } else if AllPlainText(blocks) {
      JoinedFixed(blocks);
    }
  }

  lemma {:induction false} FirstTripSettles(blocks: seq<Block>)
    requires !AllPlainText(blocks) && !AllPlainText(Normal(blocks))
    ensures Settles(Normal(blocks))
  {
    var once := Normal(blocks);
    MessageMembers(blocks);
    forall x | x in once
      ensures BlockSettles(x)
      ensures !IsPlainText(x) ==> exists y :: y in NormalBlock(x) && !IsPlainText(y)
    {
      var b :| b in blocks && x in NormalBlock(b);
      NormalBlocksSettle(b, x);
    }
    var x :| x in once && !IsPlainText(x);
    var y :| y in NormalBlock(x) && !IsPlainText(y);
    MessageMembers(once);
    SeveralTextsIff(once);
  }

  lemma {:induction false} TwoTextsJoin(s: string, t: string)
    requires s + t != ""
    ensures Normal([Text(s, None, []), Text(t, None, [])]) == [Text(s + t, None, [])]
  {
    var x, y := Text(s, None, []), Text(t, None, []);
    assert IsPlainText(x) && IsPlainText(y);
    assert [x, y] == [x] + [y] && [x][1..] == [] && [y][1..] == [];
    PlainConcatAppend([x], [y]);
    assert PlainConcat([x]) == s + "" == s && PlainConcat([y]) == t + "" == t;
  }

  lemma {:induction false} TwoRefusals(s: string, t: string)
    requires s != "" && t != ""
    ensures Normal([Refusal(s, None), Refusal(t, None)]) == [Text(s, None, []), Text(t, None, [])]
  {
    var a, b := Refusal(s, None), Refusal(t, None);
    assert !IsPlainText(a) && a in [a, b];
    NormalWithoutResults([a, b]);
    assert [a, b][1..] == [b] && [b][1..] == [];
    assert NormalBlocks([b]) == NormalBlock(b) + NormalBlocks([b][1..]);
    assert NormalBlocks([a, b]) == NormalBlock(a) + NormalBlocks([a, b][1..]);
  }

  /** Two refusals become two texts, which the next encoding joins. */
  lemma {:induction false} NotIdempotent()
    ensures var blocks := [Refusal("a", None), Refusal("b", None)];
            && AllCovered(blocks)
            && Normal(blocks) == [Text("a", None, []), Text("b", None, [])]
            && Normal(Normal(blocks)) == [Text("ab", None, [])]
  {
    TwoRefusals("a", "b");
    assert "a" + "b" == "ab";
    TwoTextsJoin("a", "b");
  }

  // ---- through the wire twice ----

  lemma {:induction false} PartsStayCovered(content: seq<Block>)
    requires forall p :: p in content ==> CoveredMedia(p)
    ensures forall x :: x in NormalResultParts(content) ==> CoveredMedia(x)
  {
    if content != [] {
      PartsStayCovered(content[1..]);
      assert CoveredMedia(content[0]);
    }
  }

  lemma {:induction false} BlockStaysCovered(b: Block)
    requires Covered(b)
    ensures AllCovered(NormalBlock(b))
    ensures OwnCalls(NormalBlock(b)) == OwnCall(b)
  {
    if b.ToolResult? && !AllPlainText(b.content) {
      PartsStayCovered(b.content);
    }
    if NormalBlock(b) != [] {
      assert NormalBlock(b)[1..] == [];
    }
  }

  lemma {:induction false} BlocksStayCovered(blocks: seq<Block>)
    requires AllCovered(blocks)
    ensures AllCovered(NormalBlocks(blocks))
    ensures OwnCalls(NormalBlocks(blocks)) == OwnCalls(blocks)
  {
    if blocks != [] {
      BlockStaysCovered(blocks[0]);
      BlocksStayCovered(blocks[1..]);
      NormalBlocksAppend(NormalBlock(blocks[0]), NormalBlocks(blocks[1..]));
    }
  }

  lemma {:induction false} MessageStaysCovered(blocks: seq<Block>)
    requires AllCovered(blocks)
    ensures AllCovered(Normal(blocks)) && OwnCalls(Normal(blocks)) == OwnCalls(blocks)
  {
    if AllPlainText(blocks) {
      PlainTextHasNoCalls(blocks);
      JoinedFixed(blocks);
      PlainTextHasNoCalls(Joined(blocks));
    } else {
      OrderedFirst(blocks);
      BlocksStayCovered(ResultsThenOthers(blocks));
    }
  }

  lemma {:induction false} ConversationStaysCovered(messages: seq<seq<Block>>)
    requires forall m :: m in messages ==> AllCovered(m)
    ensures forall m :: m in NormalAll(messages) ==> AllCovered(m)
    ensures OwnCallsInAll(NormalAll(messages)) == OwnCallsInAll(messages)
    ensures NormalAll(NormalAll(messages)) == NormalAll(messages) <==> forall m :: m in messages ==> Settles(m)
  {
    if messages != [] {
      MessageStaysCovered(messages[0]);
      IdempotentIff(messages[0]);
      ConversationStaysCovered(messages[1..]);
      assert NormalAll(messages)[1..] == NormalAll(messages[1..]);
      assert NormalAll(NormalAll(messages))[1..] == NormalAll(NormalAll(messages[1..]));
      assert forall m :: m in messages <==> m == messages[0] || m in messages[1..];
    }
  }

  /**
   Encoding the decoded conversation and decoding it once more gives it back
   unchanged exactly when every message of the source settles.
   */
  lemma {:induction false} SecondRoundTrip(messages: seq<seq<Block>>)
    requires forall m :: m in messages ==> AllCovered(m)
    requires Distinct(OwnCallsInAll(messages))
    ensures var once := DecodeRequest(EncodeAll(messages));
            && once.Ok?
            && (DecodeRequest(EncodeAll(once.value)) == once <==> forall m :: m in messages ==> Settles(m))
  {
    DecodeAfterEncode(messages);
    ConversationStaysCovered(messages);
    DecodeAfterEncode(NormalAll(messages));
  }
}
