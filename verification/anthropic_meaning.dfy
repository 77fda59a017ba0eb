/**
 What an Anthropic request means, told without the namespace of tool ids: which
 contents can be read, and what each part stands for. The decoder refuses exactly
 the other requests, and gives exactly these blocks, but for the ids that it had
 to generate.
 */
module AnthropicMeaning {
  import opened Wrappers
  import opened Sequences
  import opened AnthropicModel
  import opened AnthropicDecode
  import opened Text
  import Decimal

  // ---- what can be read ----

  ghost predicate Readable(content: Content) {
    match content
    case CNil => true
    case CString(_) => true
    case CParts(parts) => forall p :: p in parts ==> ReadablePart(p)
    case CRefused(_) => false
    case CMalformed => false
  }

  ghost predicate ReadablePart(p: Part) {
    match p
    case PImage(source, _) => source.Some?
    case PDocument(ContentSource(content), _, _) => Readable(content)
    case PDocument(source, _, _) => source.OpaqueSource? || source.TextSource?
    case PToolUse(_, _, input, _) => !input.OtherInput?
    case PToolResult(_, content, _, _) => Readable(content)
    case _ => true
  }

  // ---- what it means ----

  /** The blocks of a content; a call without an id has none here. */
  function Meaning(content: Content): seq<Block> {
    match content
    case CString(s) => if s == "" then [] else [Text(s, None, [])]
    case CParts(parts) => MeaningOfParts(parts)
    case _ => []
  }

  function MeaningOfParts(parts: seq<Part>): seq<Block> {
    if parts == [] then [] else MeaningOfPart(parts[0]) + MeaningOfParts(parts[1..])
  }

  function MeaningOfPart(p: Part): seq<Block> {
    match p
    case PText(text, cache, citations) => [Text(text, cache, citations)]
    case PImage(source, cache) => if source.Some? then [ImageBlock(Pictured(source.value), cache)] else []
    case PDocument(OpaqueSource(id), title, cache) => [FileBlock(Some(OpaqueDocument(id)), title, cache)]
    case PDocument(TextSource(text), _, cache) => [Text(text, cache, [])]
    case PDocument(ContentSource(content), _, cache) => EndingWith(Meaning(content), cache)
    case PDocument(_, _, _) => []
    case PToolUse(id, name, ObjectInput(arguments), cache) => [ToolCall(id, name, arguments, cache)]
    case PToolUse(id, name, _, cache) => [ToolCall(id, name, "{}", cache)]
    case PToolResult(toolUseID, content, isError, cache) => [ToolResult(toolUseID, Meaning(content), isError, cache)]
    case PThinking(thinking, signature) =>
      [ReasoningBlock(Reasoning(thinking, [], signature, "", Anthropic), None)]
    case PRedactedThinking(data) => [RedactedReasoning(Reasoning("", [], "", data, Anthropic), None)]
    case PSkipped(_) => []
  }

  /** The breakpoint of a document on the last of its blocks, which may have its own. */
  function EndingWith(blocks: seq<Block>, cache: Option<CacheControl>): seq<Block> {
    if blocks == [] then []
    else
      var last := blocks[|blocks| - 1];
      blocks[..|blocks| - 1] + [if last.cache.None? then last.(cache := cache) else last]
  }

  /** An inline URL is taken apart: data:<media type>[;<parameter>]*,<payload> with a base64 parameter. */
  ghost predicate Inline(url: string, media: string, parameters: seq<string>, payload: string) {
    && url == "data:" + Join([media] + parameters, ";") + "," + payload
    && media != "" && payload != "" && "base64" in parameters
    && ',' !in Join([media] + parameters, ";")
    && forall part :: part in [media] + parameters ==> ';' !in part
  }

  function Pictured(source: ImageSource): Image {
    match source
    case FileSource(fileID) => Image("", fileID, "", "", "")
    case Base64Source(mediaType, data) => Image("", "", data, mediaType, "")
    case URLSource(url) =>
      match SplitDataURL(url)
      case None => Image(url, "", "", "", "")
      case Some((media, payload)) => Image("", "", payload, media, "")
  }

  // ---- up to generated ids ----

  ghost predicate Generated(id: string) {
    exists suffix :: id == "toolu_proxy_" + suffix
  }

  ghost predicate Reads(meant: Block, read: Block) {
    match meant
    case ToolCall("", name, arguments, cache) =>
      read.ToolCall? && Generated(read.id) && read == ToolCall(read.id, name, arguments, cache)
    case ToolResult(callID, content, isError, cache) =>
      && read.ToolResult? && read == ToolResult(callID, read.content, isError, cache)
      && ReadsAll(content, read.content)
    case _ => read == meant
  }

  ghost predicate ReadsAll(meant: seq<Block>, read: seq<Block>) {
    |read| == |meant| && forall k :: 0 <= k < |meant| ==> Reads(meant[k], read[k])
  }

  // ---- a data URL is inline in one way at most ----

  /** Which URLs are inline images, and what they hold. */
  lemma {:induction false} SplitDataURLIff(url: string, media: string, payload: string)
    ensures SplitDataURL(url) == Some((media, payload)) <==>
            exists parameters :: Inline(url, media, parameters, payload)
  {
    if SplitDataURL(url) == Some((media, payload)) {
      SplitIsInline(url, media, payload);
    }
    if exists parameters :: Inline(url, media, parameters, payload) {
      var parameters :| Inline(url, media, parameters, payload);
      InlineSplits(url, media, parameters, payload);
    }
  }

  lemma {:induction false} SplitIsInline(url: string, media: string, payload: string)
    requires SplitDataURL(url) == Some((media, payload))
    ensures exists parameters :: Inline(url, media, parameters, payload)
  {
    var rest := url[|DATA_PREFIX|..];
    var meta := Cut(rest, ',').0;
    SplitJoins(meta, ';');
    SplitIsFree(meta, ';');
    var parameters := Split(meta, ';')[1..];
    assert [media] + parameters == Split(meta, ';');
    assert url == url[..|DATA_PREFIX|] + rest;
    assert url == "data:" + meta + "," + payload;
    assert Inline(url, media, parameters, payload);
  }

  lemma {:induction false} InlineSplits(url: string, media: string, parameters: seq<string>, payload: string)
    requires Inline(url, media, parameters, payload)
    ensures SplitDataURL(url) == Some((media, payload))
  {
    var meta := Join([media] + parameters, ";");
    assert url[|DATA_PREFIX|..] == meta + [','] + payload && url[..|DATA_PREFIX|] == DATA_PREFIX;
    CutAt(meta, ',', payload);
    assert [media][0] == media && media in [media] + parameters;
    JoinSplits(media, parameters, ';');
    assert ([media] + parameters)[1..] == parameters;
  }

  // ---- the decoder refuses the others ----

  /** A result is good exactly for what can be read; a duplicate id says nothing of it. */
  ghost predicate Judges(readable: bool, r: Decoded<(seq<Block>, IDs)>) {
    (r.Ok? ==> readable) && (r.Malformed? ==> !readable)
  }

  lemma {:induction false} DecodeJudges(content: Content, ids: IDs)
    ensures Judges(Readable(content), Decode(content, ids))
    decreases content, 1
  {
    if content.CParts? {
      DecodePartsJudges(content.parts, 0, ids);
    }
  }

  lemma {:induction false} DecodePartJudges(p: Part, i: nat, ids: IDs)
    ensures Judges(ReadablePart(p), DecodePart(p, i, ids))
    decreases p, 1
  {
    match p
    case PToolResult(_, content, _, _) => DecodeJudges(content, ids);
    case PDocument(ContentSource(content), title, _) =>
      DecodeJudges(content, ids);
      assert DecodeDocument(ContentSource(content), title, ids) == Decode(content, ids);
    case PDocument(source, title, _) =>
      assert DecodeDocument(source, title, ids).Ok? <==> source.OpaqueSource? || source.TextSource?;
      assert DecodeDocument(source, title, ids) != DuplicateID;
    case _ =>
  }

  lemma {:induction false} DecodePartsJudges(parts: seq<Part>, i: nat, ids: IDs)
    ensures Judges(forall p :: p in parts ==> ReadablePart(p), DecodeParts(parts, i, ids))
    decreases parts, 0
  {
    if parts != [] {
      DecodePartJudges(parts[0], i, ids);
      assert parts[0] in parts && forall p :: p in parts <==> p == parts[0] || p in parts[1..];
      var head := DecodePart(parts[0], i, ids);
      if head.Ok? {
        DecodePartsJudges(parts[1..], i + 1, head.value.1);
      }
    }
  }

  // ---- and gives what is meant ----

  lemma {:induction false} GeneratedIDs(taken: set<string>, i: nat)
    ensures Generated(FirstFree(taken, SyntheticToolID(i), 0))
  {
    var id := FirstFree(taken, SyntheticToolID(i), 0);
    FirstFreeIsFree(taken, SyntheticToolID(i), 0);
    var j :| j >= 0 && id == Spelling(SyntheticToolID(i), j);
    if j == 0 {
      assert id == "toolu_proxy_" + Decimal.Print(i);
    } else {
      assert id == "toolu_proxy_" + (Decimal.Print(i) + "_" + Decimal.Print(j));
    }
  }

  lemma {:induction false} ReadsAppend(a: seq<Block>, b: seq<Block>, c: seq<Block>, d: seq<Block>)
    requires ReadsAll(a, c) && ReadsAll(b, d)
    ensures ReadsAll(a + b, c + d)
  {
  }

  lemma {:induction false} CacheLastReads(meant: seq<Block>, read: seq<Block>, cache: Option<CacheControl>)
    requires ReadsAll(meant, read)
    ensures ReadsAll(EndingWith(meant, cache), CacheLast(read, cache))
  {
    if meant != [] {
      var n := |meant| - 1;
      assert Reads(meant[n], read[n]);
      assert meant[n].cache == read[n].cache;
    }
  }

  lemma {:induction false} DecodeMeans(content: Content, ids: IDs)
    requires Decode(content, ids).Ok?
    ensures ReadsAll(Meaning(content), Decode(content, ids).value.0)
    decreases content, 1
  {
    if content.CParts? {
      DecodePartsMean(content.parts, 0, ids);
    }
  }

  lemma {:induction false} DecodePartMeans(p: Part, i: nat, ids: IDs)
    requires DecodePart(p, i, ids).Ok?
    ensures ReadsAll(MeaningOfPart(p), DecodePart(p, i, ids).value.0)
    decreases p, 1
  {
    match p
    case PToolUse(id, _, _, _) =>
      if id == "" {
        GeneratedIDs(ids.seen, i);
      }
    case PToolResult(_, content, _, _) => DecodeMeans(content, ids);
    case PDocument(ContentSource(content), _, cache) =>
      DecodeMeans(content, ids);
      CacheLastReads(Meaning(content), Decode(content, ids).value.0, cache);
    case _ =>
  }

  lemma {:induction false} DecodePartsMean(parts: seq<Part>, i: nat, ids: IDs)
    requires DecodeParts(parts, i, ids).Ok?
    ensures ReadsAll(MeaningOfParts(parts), DecodeParts(parts, i, ids).value.0)
    decreases parts, 0
  {
    if parts != [] {
      DecodePartMeans(parts[0], i, ids);
      var head := DecodePart(parts[0], i, ids).value;
      DecodePartsMean(parts[1..], i + 1, head.1);
      ReadsAppend(MeaningOfPart(parts[0]), MeaningOfParts(parts[1..]), head.0,
                  DecodeParts(parts[1..], i + 1, head.1).value.0);
    }
  }

  // ---- a whole request ----

  lemma {:induction false} DecodeAllMeans(contents: seq<Content>, ids: IDs)
    ensures DecodeAll(contents, ids).Ok? ==> forall c :: c in contents ==> Readable(c)
    ensures DecodeAll(contents, ids).Malformed? ==> exists c :: c in contents && !Readable(c)
    ensures DecodeAll(contents, ids).Ok? ==>
              var messages := DecodeAll(contents, ids).value.0;
              && |messages| == |contents|
              && forall k :: 0 <= k < |contents| ==> ReadsAll(Meaning(contents[k]), messages[k])
    decreases contents
  {
    if contents != [] {
      DecodeJudges(contents[0], ids);
      assert contents[0] in contents && forall c :: c in contents <==> c == contents[0] || c in contents[1..];
      var head := Decode(contents[0], ids);
      if head.Ok? {
        DecodeMeans(contents[0], ids);
        DecodeAllMeans(contents[1..], head.value.1);
      }
    }
  }

  /**
   A request decodes exactly when its explicit ids are distinct and all its
   contents can be read, and then to what they mean.
   */
  lemma {:induction false} RequestMeans(contents: seq<Content>)
    ensures DecodeRequest(contents).Ok? <==>
              Distinct(ExplicitInAll(contents)) && forall c :: c in contents ==> Readable(c)
    ensures DecodeRequest(contents).Ok? ==>
              var messages := DecodeRequest(contents).value;
              && |messages| == |contents|
              && forall k :: 0 <= k < |contents| ==> ReadsAll(Meaning(contents[k]), messages[k])
  {
    RequestIDsAreUnique(contents);
    PreScanAllClaims(contents, IDs({}, {}));
    var scanned := PreScanAll(contents, IDs({}, {}));
    if scanned.Ok? {
      DecodeAllMeans(contents, scanned.value);
    }
  }
}
