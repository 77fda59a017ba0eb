/**
 Decoding Anthropic content (anthropic_ir_request_decode.go) and the
 request-scoped namespace of tool ids (tool_vocabulary.go): the content tree is
 walked once to claim every explicit id and once to decode. An array that cannot
 be read is CMalformed; one that the first walk reads and the decoder refuses
 (too many blocks, bad citations) is CRefused.
 */
module AnthropicDecode {
  import opened Wrappers
  import opened Sequences
  import opened AnthropicModel
  import opened Text
  import Decimal

  /** A tool_use input: absent or null, a JSON object, or anything else. */
  datatype Input = NoInput | ObjectInput(text: string) | OtherInput

  datatype DocumentSource =
    | NoDocument
    | OpaqueSource(source: string)
    | TextSource(text: string)
    | ContentSource(content: Content)
    | UnsupportedSource

  datatype Part =
    | PText(text: string, cache: Option<CacheControl>, citations: seq<Citation>)
    | PImage(image: Option<ImageSource>, cache: Option<CacheControl>)
    | PDocument(source: DocumentSource, title: string, cache: Option<CacheControl>)
    | PToolUse(id: string, name: string, input: Input, cache: Option<CacheControl>)
    | PToolResult(toolUseID: string, content: Content, isError: bool, cache: Option<CacheControl>)
    | PThinking(thinking: string, signature: string)
    | PRedactedThinking(data: string)
    | PSkipped(kind: string)

  datatype Content = CNil | CString(s: string) | CParts(parts: seq<Part>)
    | CRefused(parts: seq<Part>) | CMalformed

  // ---- the namespace of tool ids ----

  /** Every id claimed so far, and those the pre-scan claimed that no call has consumed yet. */
  datatype IDs = IDs(seen: set<string>, pre: set<string>)

  datatype Decoded<+T> = Ok(value: T) | DuplicateID | Malformed

  function PreReserve(ids: IDs, id: string): Decoded<IDs> {
    if id in ids.seen then DuplicateID else Ok(IDs(ids.seen + {id}, ids.pre + {id}))
  }

  function Reserve(ids: IDs, id: string): Decoded<IDs> {
    if id in ids.pre then Ok(ids.(pre := ids.pre - {id}))
    else if id in ids.seen then DuplicateID
    else Ok(ids.(seen := ids.seen + {id}))
  }

  /** The k-th spelling of a generated id. */
  function Spelling(base: string, k: nat): string {
    if k == 0 then base else base + "_" + Decimal.Print(k)
  }

  /** The first spelling from k on that is not taken. */
  function FirstFree(taken: set<string>, base: string, k: nat): string
    decreases taken
  {
    if Spelling(base, k) in taken then FirstFree(taken - {Spelling(base, k)}, base, k + 1)
    else Spelling(base, k)
  }

  function Synthesize(ids: IDs, base: string): (string, IDs) {
    var id := FirstFree(ids.seen, base, 0);
    (id, ids.(seen := ids.seen + {id}))
  }

  function SyntheticToolID(index: nat): string {
    "toolu_proxy_" + Decimal.Print(index)
  }

  lemma {:induction false} SpellingsDiffer(base: string, j: nat, k: nat)
    requires Spelling(base, j) == Spelling(base, k)
    ensures j == k
  {
    Decimal.PrintIsCanonical(j);
    Decimal.PrintIsCanonical(k);
    if j > 0 && k > 0 {
      assert Spelling(base, j)[|base| + 1..] == Decimal.Print(j);
      assert Spelling(base, k)[|base| + 1..] == Decimal.Print(k);
    }
  }

  /** The generated spelling is new: it is none of the taken ones, nor an earlier spelling. */
  lemma {:induction false} FirstFreeIsFree(taken: set<string>, base: string, k: nat)
    ensures FirstFree(taken, base, k) !in taken
    ensures exists j :: j >= k && FirstFree(taken, base, k) == Spelling(base, j)
    decreases taken
  {
    if Spelling(base, k) in taken {
      FirstFreeIsFree(taken - {Spelling(base, k)}, base, k + 1);
      var j :| j >= k + 1 && FirstFree(taken, base, k) == Spelling(base, j);
      if Spelling(base, j) == Spelling(base, k) {
        SpellingsDiffer(base, j, k);
      }
    }
  }

  // ---- the two walks ----

  function PreScan(content: Content, ids: IDs): Decoded<IDs> {
    if content.CParts? || content.CRefused? then PreScanParts(content.parts, ids) else Ok(ids)
  }

  function PreScanParts(parts: seq<Part>, ids: IDs): Decoded<IDs> {
    if parts == [] then Ok(ids)
    else
      var r := PreScanPart(parts[0], ids);
      if r.Ok? then PreScanParts(parts[1..], r.value) else r
  }

  function PreScanPart(p: Part, ids: IDs): Decoded<IDs> {
    match p
    case PToolUse(id, _, _, _) => if id == "" then Ok(ids) else PreReserve(ids, id)
    case PToolResult(_, content, _, _) => PreScan(content, ids)
    case PDocument(ContentSource(content), _, _) => PreScan(content, ids)
    case _ => Ok(ids)
  }

  function Decode(content: Content, ids: IDs): Decoded<(seq<Block>, IDs)> {
    match content
    case CNil => Ok(([], ids))
    case CString(s) => Ok((if s == "" then [] else [Text(s, None, [])], ids))
    case CMalformed => Malformed
    case CRefused(_) => Malformed
    case CParts(parts) => DecodeParts(parts, 0, ids)
  }

  /** The parts from index i of their list on. */
  function DecodeParts(parts: seq<Part>, i: nat, ids: IDs): Decoded<(seq<Block>, IDs)> {
    if parts == [] then Ok(([], ids))
    else
      var head := DecodePart(parts[0], i, ids);
      if !head.Ok? then head
      else
        var tail := DecodeParts(parts[1..], i + 1, head.value.1);
        if !tail.Ok? then tail else Ok((head.value.0 + tail.value.0, tail.value.1))
  }

  function ImageOf(source: ImageSource): Image {
    match source
    case FileSource(fileID) => Image("", fileID, "", "", "")
    case Base64Source(mediaType, data) => Image("", "", data, mediaType, "")
    case URLSource(url) =>
      var inline := SplitDataURL(url);
      if inline.None? then Image(url, "", "", "", "") else Image("", "", inline.value.1, inline.value.0, "")
  }

  const DATA_PREFIX := "data:"

  /** splitBase64DataURL: media type and payload of data:type[;parameter]*;base64,payload */
  function SplitDataURL(raw: string): Option<(string, string)> {
    if |raw| < |DATA_PREFIX| || raw[..|DATA_PREFIX|] != DATA_PREFIX then None
    else
      var (meta, payload, found) := Cut(raw[|DATA_PREFIX|..], ',');
      if !found || payload == "" then None
      else
        var parts := Split(meta, ';');
        if |parts| < 2 || parts[0] == "" || "base64" !in parts[1..] then None else Some((parts[0], payload))
  }

  /** A document's breakpoint goes to its last block, unless that has its own. */
  function CacheLast(blocks: seq<Block>, cache: Option<CacheControl>): seq<Block> {
    if cache.Some? && blocks != [] && blocks[|blocks| - 1].cache.None? then
      blocks[|blocks| - 1 := blocks[|blocks| - 1].(cache := cache)]
    else blocks
  }

  function DecodeDocument(source: DocumentSource, title: string, ids: IDs): Decoded<(seq<Block>, IDs)> {
    match source
    case NoDocument => Malformed
    case UnsupportedSource => Malformed
    case OpaqueSource(s) => Ok(([FileBlock(Some(OpaqueDocument(s)), title, None)], ids))
    case TextSource(text) => Ok(([Text(text, None, [])], ids))
    case ContentSource(content) => Decode(content, ids)
  }

  function DecodePart(p: Part, i: nat, ids: IDs): Decoded<(seq<Block>, IDs)> {
    match p
    case PText(text, cache, citations) => Ok(([Text(text, cache, citations)], ids))
    case PImage(source, cache) =>
      if source.None? then Malformed else Ok(([ImageBlock(ImageOf(source.value), cache)], ids))
    case PDocument(source, title, cache) =>
      var r := DecodeDocument(source, title, ids);
      if r.Ok? then Ok((CacheLast(r.value.0, cache), r.value.1)) else r
    case PToolUse(id, name, input, cache) =>
      if input.OtherInput? then Malformed
      else
        var arguments := if input.NoInput? then "{}" else input.text;
        if id == "" then
          var (generated, ids') := Synthesize(ids, SyntheticToolID(i));
          Ok(([ToolCall(generated, name, arguments, cache)], ids'))
        else
          var r := Reserve(ids, id);
          if r.Ok? then Ok(([ToolCall(id, name, arguments, cache)], r.value)) else DuplicateID
    case PToolResult(toolUseID, content, isError, cache) =>
      var r := Decode(content, ids);
      if r.Ok? then Ok(([ToolResult(toolUseID, r.value.0, isError, cache)], r.value.1)) else r
    case PThinking(thinking, signature) =>
      Ok(([ReasoningBlock(Reasoning(thinking, [], signature, "", Anthropic), None)], ids))
    case PRedactedThinking(data) =>
      Ok(([RedactedReasoning(Reasoning("", [], "", data, Anthropic), None)], ids))
    case PSkipped(_) => Ok(([], ids))
  }

  // ---- explicit ids: what the first walk claims, the second consumes ----

  /** The non-empty ids of the tool_use blocks in the tree, in the order of the walk. */
  function ExplicitIDs(content: Content): seq<string> {
    if content.CParts? || content.CRefused? then ExplicitInParts(content.parts) else []
  }

  function ExplicitInParts(parts: seq<Part>): seq<string> {
    if parts == [] then [] else ExplicitInPart(parts[0]) + ExplicitInParts(parts[1..])
  }

  function ExplicitInPart(p: Part): seq<string> {
    match p
    case PToolUse(id, _, _, _) => if id == "" then [] else [id]
    case PToolResult(_, content, _, _) => ExplicitIDs(content)
    case PDocument(ContentSource(content), _, _) => ExplicitIDs(content)
    case _ => []
  }

  ghost predicate Distinct(s: seq<string>) {
    forall i, j :: 0 <= i < j < |s| ==> s[i] != s[j]
  }

  function Elements(s: seq<string>): set<string> {
    set x | x in s
  }

  lemma {:induction false} DistinctAppend(a: seq<string>, b: seq<string>)
    ensures Distinct(a + b) <==> Distinct(a) && Distinct(b) && Elements(a) !! Elements(b)
    ensures Elements(a + b) == Elements(a) + Elements(b)
  {
    var s := a + b;
    assert forall i :: 0 <= i < |a| ==> s[i] == a[i];
    assert forall j {:trigger b[j]} :: 0 <= j < |b| ==> s[|a| + j] == b[j];
    if Distinct(s) {
      assert forall i, j :: 0 <= i < j < |a| ==> s[i] != s[j];
      forall i, j | 0 <= i < j < |b|
        ensures b[i] != b[j]
      {
        assert s[|a| + i] != s[|a| + j];
      }
      forall x | x in a
        ensures x !in b
      {
        var i :| 0 <= i < |a| && a[i] == x;
        assert forall j {:trigger b[j]} :: 0 <= j < |b| ==> s[i] != s[|a| + j];
      }
    }
    if Distinct(a) && Distinct(b) && Elements(a) !! Elements(b) {
      forall i, j | 0 <= i < j < |s|
        ensures s[i] != s[j]
      {
        if i < |a| <= j {
          assert s[i] in Elements(a) && s[j] in Elements(b);
        } else if |a| <= i {
          assert b[i - |a|] != b[j - |a|];
        }
      }
    }
  }

  /** The pre-scan succeeds exactly when the explicit ids are new and distinct, and claims exactly them. */
  ghost predicate Claims(claimed: seq<string>, ids: IDs, r: Decoded<IDs>) {
    if Distinct(claimed) && Elements(claimed) !! ids.seen then
      r == Ok(IDs(ids.seen + Elements(claimed), ids.pre + Elements(claimed)))
    else r == DuplicateID
  }

  lemma {:induction false} PreScanClaims(content: Content, ids: IDs)
    ensures Claims(ExplicitIDs(content), ids, PreScan(content, ids))
    decreases content, 1
  {
    if content.CParts? || content.CRefused? {
      PreScanPartsClaims(content.parts, ids);
    } else {
      NothingClaimed(ids);
    }
  }

  lemma {:induction false} NothingClaimed(ids: IDs)
    ensures Claims([], ids, Ok(ids))
  {
    assert Elements([]) == {};
    assert ids.seen + {} == ids.seen && ids.pre + {} == ids.pre;
  }

  lemma {:induction false} PreScanPartClaims(p: Part, ids: IDs)
    ensures Claims(ExplicitInPart(p), ids, PreScanPart(p, ids))
    decreases p, 1
  {
    match p
    case PToolUse(id, _, _, _) =>
      NothingClaimed(ids);
      assert Elements([id]) == {id};
    case PToolResult(_, content, _, _) => PreScanClaims(content, ids);
    case PDocument(ContentSource(content), _, _) => PreScanClaims(content, ids);
    case _ => NothingClaimed(ids);
  }

  lemma {:induction false} PreScanPartsClaims(parts: seq<Part>, ids: IDs)
    ensures Claims(ExplicitInParts(parts), ids, PreScanParts(parts, ids))
    decreases parts, 0
  {
    if parts == [] {
      NothingClaimed(ids);
    } else {
      var head, tail := ExplicitInPart(parts[0]), ExplicitInParts(parts[1..]);
      DistinctAppend(head, tail);
      PreScanPartClaims(parts[0], ids);
      var r := PreScanPart(parts[0], ids);
      if r.Ok? {
        PreScanPartsClaims(parts[1..], r.value);
        assert ids.seen + Elements(head) + Elements(tail) == ids.seen + Elements(head + tail);
        assert ids.pre + Elements(head) + Elements(tail) == ids.pre + Elements(head + tail);
      }
    }
  }

  // ---- the ids of the decoded calls ----

  /** The ids of the tool calls among blocks, nested ones included, in order. */
  function CallIDsIn(blocks: seq<Block>): seq<string> {
    if blocks == [] then [] else CallIDsOf(blocks[0]) + CallIDsIn(blocks[1..])
  }

  function CallIDsOf(b: Block): seq<string> {
    match b
    case ToolCall(id, _, _, _) => [id]
    case ToolResult(_, content, _, _) => CallIDsIn(content)
    case _ => []
  }

  lemma {:induction false} CallIDsAppend(a: seq<Block>, b: seq<Block>)
    ensures CallIDsIn(a + b) == CallIDsIn(a) + CallIDsIn(b)
  {
    if a == [] {
      assert a + b == b;
    } else {
      CallIDsAppend(a[1..], b);
      assert (a + b)[1..] == a[1..] + b && (a + b)[0] == a[0];
    }
  }

  lemma {:induction false} CacheLastKeepsIDs(blocks: seq<Block>, cache: Option<CacheControl>)
    ensures CallIDsIn(CacheLast(blocks, cache)) == CallIDsIn(blocks)
  {
    var out := CacheLast(blocks, cache);
    if out != blocks {
      var n := |blocks| - 1;
      assert blocks == blocks[..n] + [blocks[n]] && out == blocks[..n] + [out[n]];
      CallIDsAppend(blocks[..n], [blocks[n]]);
      CallIDsAppend(blocks[..n], [out[n]]);
      assert [blocks[n]][1..] == [] && [out[n]][1..] == [];
      assert CallIDsOf(out[n]) == CallIDsOf(blocks[n]);
    }
  }

  /** The namespace is ready for a tree: its explicit ids are claimed and not yet consumed. */
  ghost predicate Ready(explicit: seq<string>, ids: IDs) {
    && ids.pre <= ids.seen
    && Distinct(explicit) && Elements(explicit) <= ids.pre
  }

  /**
   What decoding does to the namespace: it never meets a duplicate id; it
   consumes exactly the explicit ids; every call gets its explicit id or one
   that nobody had, and no two calls get the same.
   */
  ghost predicate Consumes(explicit: seq<string>, ids: IDs, r: Decoded<(seq<Block>, IDs)>) {
    && r != DuplicateID
    && (r.Ok? ==>
          && r.value.1.pre == ids.pre - Elements(explicit)
          && ids.seen <= r.value.1.seen
          && Distinct(CallIDsIn(r.value.0))
          && Elements(CallIDsIn(r.value.0)) <= Elements(explicit) + (r.value.1.seen - ids.seen))
  }

  lemma {:induction false} DecodeConsumes(content: Content, ids: IDs)
    requires Ready(ExplicitIDs(content), ids)
    ensures Consumes(ExplicitIDs(content), ids, Decode(content, ids))
    decreases content, 1
  {
    if content.CParts? {
      DecodePartsConsumes(content.parts, 0, ids);
    } else {
      assert CallIDsIn([]) == []
        && forall s :: CallIDsIn([Text(s, None, [])]) == [] + CallIDsIn([Text(s, None, [])][1..]);
      assert ids.pre - Elements([]) == ids.pre;
    }
  }

  lemma {:induction false} SingleCall(b: Block)
    ensures CallIDsIn([b]) == CallIDsOf(b)
  {
    assert [b][1..] == [];
  }

  lemma {:induction false} DecodePartConsumes(p: Part, i: nat, ids: IDs)
    requires Ready(ExplicitInPart(p), ids)
    ensures Consumes(ExplicitInPart(p), ids, DecodePart(p, i, ids))
    decreases p, 1
  {
    var r := DecodePart(p, i, ids);
    assert CallIDsIn([]) == [] && Elements([]) == {};
    assert ids.pre - {} == ids.pre;
    if r.Ok? && |r.value.0| == 1 {
      SingleCall(r.value.0[0]);
    }
    match p
    case PToolUse(id, _, _, _) =>
      assert Elements([id]) == {id};
      if id == "" {
        FirstFreeIsFree(ids.seen, SyntheticToolID(i), 0);
        assert r.Ok? ==> Elements(CallIDsIn(r.value.0)) == {r.value.0[0].id};
      } else {
        assert id in Elements(ExplicitInPart(p));
      }
    case PToolResult(_, content, _, _) =>
      DecodeConsumes(content, ids);
    case PDocument(ContentSource(content), _, cache) =>
      DecodeConsumes(content, ids);
      if r.Ok? {
        CacheLastKeepsIDs(Decode(content, ids).value.0, cache);
      }
    case PDocument(OpaqueSource(s), title, cache) =>
      CacheLastKeepsIDs([FileBlock(Some(OpaqueDocument(s)), title, None)], cache);
      SingleCall(FileBlock(Some(OpaqueDocument(s)), title, None));
    case PDocument(TextSource(text), _, cache) =>
      CacheLastKeepsIDs([Text(text, None, [])], cache);
      SingleCall(Text(text, None, []));
    case _ =>
  }

  lemma {:induction false} DecodePartsConsumes(parts: seq<Part>, i: nat, ids: IDs)
    requires Ready(ExplicitInParts(parts), ids)
    ensures Consumes(ExplicitInParts(parts), ids, DecodeParts(parts, i, ids))
    decreases parts, 0
  {
    if parts == [] {
      assert CallIDsIn([]) == [] && ids.pre - Elements([]) == ids.pre;
    } else {
      var head, tail := ExplicitInPart(parts[0]), ExplicitInParts(parts[1..]);
      DistinctAppend(head, tail);
      DecodePartConsumes(parts[0], i, ids);
      var r := DecodePart(parts[0], i, ids);
      if r.Ok? {
        DecodePartsConsumes(parts[1..], i + 1, r.value.1);
        var t := DecodeParts(parts[1..], i + 1, r.value.1);
        if t.Ok? {
          CallIDsAppend(r.value.0, t.value.0);
          DistinctAppend(CallIDsIn(r.value.0), CallIDsIn(t.value.0));
          assert ids.pre - Elements(head) - Elements(tail) == ids.pre - Elements(head + tail);
        }
      }
    }
  }

  // ---- a whole request ----

  function ExplicitInAll(contents: seq<Content>): seq<string> {
    if contents == [] then [] else ExplicitIDs(contents[0]) + ExplicitInAll(contents[1..])
  }

  function PreScanAll(contents: seq<Content>, ids: IDs): Decoded<IDs> {
    if contents == [] then Ok(ids)
    else
      var r := PreScan(contents[0], ids);
      if r.Ok? then PreScanAll(contents[1..], r.value) else r
  }

  function DecodeAll(contents: seq<Content>, ids: IDs): Decoded<(seq<seq<Block>>, IDs)> {
    if contents == [] then Ok(([], ids))
    else
      match Decode(contents[0], ids)
      case DuplicateID => DuplicateID
      case Malformed => Malformed
      case Ok((blocks, ids')) =>
        match DecodeAll(contents[1..], ids')
        case DuplicateID => DuplicateID
        case Malformed => Malformed
        case Ok((rest, ids'')) => Ok(([blocks] + rest, ids''))
  }

  /** The message contents of a request: all are scanned before the first is decoded. */
  function DecodeRequest(contents: seq<Content>): Decoded<seq<seq<Block>>> {
    match PreScanAll(contents, IDs({}, {}))
    case DuplicateID => DuplicateID
    case Malformed => Malformed
    case Ok(ids) =>
      match DecodeAll(contents, ids)
      case DuplicateID => DuplicateID
      case Malformed => Malformed
      case Ok((messages, _)) => Ok(messages)
  }

  function CallIDsInAll(messages: seq<seq<Block>>): seq<string> {
    if messages == [] then [] else CallIDsIn(messages[0]) + CallIDsInAll(messages[1..])
  }

  lemma {:induction false} PreScanAllClaims(contents: seq<Content>, ids: IDs)
    ensures Claims(ExplicitInAll(contents), ids, PreScanAll(contents, ids))
    decreases contents
  {
    if contents == [] {
      NothingClaimed(ids);
    } else {
      var head, tail := ExplicitIDs(contents[0]), ExplicitInAll(contents[1..]);
      DistinctAppend(head, tail);
      PreScanClaims(contents[0], ids);
      var r := PreScan(contents[0], ids);
      if r.Ok? {
        PreScanAllClaims(contents[1..], r.value);
        assert ids.seen + Elements(head) + Elements(tail) == ids.seen + Elements(head + tail);
        assert ids.pre + Elements(head) + Elements(tail) == ids.pre + Elements(head + tail);
      }
    }
  }

  lemma {:induction false} DecodeAllConsumes(contents: seq<Content>, ids: IDs)
    requires Ready(ExplicitInAll(contents), ids)
    ensures DecodeAll(contents, ids) != DuplicateID
    ensures DecodeAll(contents, ids).Ok? ==>
              var (messages, ids') := DecodeAll(contents, ids).value;
              && ids'.pre == ids.pre - Elements(ExplicitInAll(contents))
              && ids.seen <= ids'.seen
              && Distinct(CallIDsInAll(messages))
              && Elements(CallIDsInAll(messages)) <= Elements(ExplicitInAll(contents)) + (ids'.seen - ids.seen)
    decreases contents
  {
    if contents == [] {
      assert ids.pre - Elements([]) == ids.pre;
    } else {
      var head, tail := ExplicitIDs(contents[0]), ExplicitInAll(contents[1..]);
      DistinctAppend(head, tail);
      DecodeConsumes(contents[0], ids);
      var r := Decode(contents[0], ids);
      if r.Ok? {
        DecodeAllConsumes(contents[1..], r.value.1);
        var t := DecodeAll(contents[1..], r.value.1);
        if t.Ok? {
          DistinctAppend(CallIDsIn(r.value.0), CallIDsInAll(t.value.0));
          assert ([r.value.0] + t.value.0)[1..] == t.value.0;
          assert ids.pre - Elements(head) - Elements(tail) == ids.pre - Elements(head + tail);
        }
      }
    }
  }

  /**
   A request is refused for a duplicate id exactly when two tool_use blocks,
   however deeply nested, carry the same id; in a decoded request no two tool
   calls share an id, generated ones included.
   */
  lemma {:induction false} RequestIDsAreUnique(contents: seq<Content>)
    ensures DecodeRequest(contents) == DuplicateID <==> !Distinct(ExplicitInAll(contents))
    ensures DecodeRequest(contents).Ok? ==> Distinct(CallIDsInAll(DecodeRequest(contents).value))
  {
    var empty := IDs({}, {});
    PreScanAllClaims(contents, empty);
    if Distinct(ExplicitInAll(contents)) {
      DecodeAllConsumes(contents, PreScanAll(contents, empty).value);
    }
  }
}
