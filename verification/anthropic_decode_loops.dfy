/**
 The decoder's two walks as the methods they are: they share one mutable
 namespace of tool ids, and each is proved against its function in
 AnthropicDecode.
 */
module AnthropicDecodeLoops {
  import opened Wrappers
  import opened AnthropicModel
  import opened AnthropicDecode
  import Decimal

  ghost predicate AlreadyTried(x: string, base: string, k: nat) {
    exists j: nat :: j < k && x == Spelling(base, j)
  }

  /** requestToolIDs */
  class RequestToolIDs {
    var seen: set<string>
    var preReserved: set<string>

    ghost function Value(): IDs
      reads this
    {
      IDs(seen, preReserved)
    }

    constructor ()
      ensures Value() == IDs({}, {})
    {
      seen, preReserved := {}, {};
    }

    method PreReserve(id: string) returns (ok: bool)
      modifies this
      ensures ok <==> AnthropicDecode.PreReserve(old(Value()), id).Ok?
      ensures Value() == if ok then AnthropicDecode.PreReserve(old(Value()), id).value else old(Value())
    {
      if id in seen {
        return false;
      }
      seen := seen + {id};
      preReserved := preReserved + {id};
      return true;
    }

    method Claim(id: string) returns (ok: bool)
      modifies this
      ensures ok <==> Reserve(old(Value()), id).Ok?
      ensures Value() == if ok then Reserve(old(Value()), id).value else old(Value())
    {
      if id in preReserved {
        preReserved := preReserved - {id};
        return true;
      }
      if id in seen {
        return false;
      }
      seen := seen + {id};
      return true;
    }

    /** The first free spelling: base, then base_1, base_2 and so on. */
    method Generate(base: string) returns (id: string)
      modifies this
      ensures id == Synthesize(old(Value()), base).0
      ensures Value() == Synthesize(old(Value()), base).1
    {
      id := base;
      var suffix := 0;
      ghost var rest := seen;
      while id in seen
        invariant seen == old(seen) && preReserved == old(preReserved)
        invariant id == Spelling(base, suffix)
        invariant rest <= seen
        invariant forall x :: x in seen && x !in rest ==> AlreadyTried(x, base, suffix)
        invariant FirstFree(seen, base, 0) == FirstFree(rest, base, suffix)
        decreases rest
      {
        if id !in rest {
          var j: nat :| j < suffix && id == Spelling(base, j);
          SpellingsDiffer(base, j, suffix);
          assert false;
        }
        assert AlreadyTried(id, base, suffix + 1);
        rest := rest - {id};
        suffix := suffix + 1;
        id := base + "_" + Decimal.Print(suffix);
      }
      seen := seen + {id};
    }
  }

  /** preReserveAnthropicContent */
  method PreReserveContent(ids: RequestToolIDs, content: Content) returns (ok: bool)
    modifies ids
    ensures ok <==> PreScan(content, old(ids.Value())).Ok?
    ensures ok ==> ids.Value() == PreScan(content, old(ids.Value())).value
    decreases content
  {
    if !(content.CParts? || content.CRefused?) {
      return true;
    }
    var parts := content.parts;
    for i := 0 to |parts|
      invariant PreScanParts(parts, old(ids.Value())) == PreScanParts(parts[i..], ids.Value())
    {
      ok := PreReservePart(ids, parts[i]);
      if !ok {
        return false;
      }
      assert parts[i..][0] == parts[i] && parts[i..][1..] == parts[i + 1..];
    }
    return true;
  }

  method PreReservePart(ids: RequestToolIDs, p: Part) returns (ok: bool)
    modifies ids
    ensures ok <==> PreScanPart(p, old(ids.Value())).Ok?
    ensures ok ==> ids.Value() == PreScanPart(p, old(ids.Value())).value
    decreases p
  {
    ok := true;
    match p {
      case PToolUse(id, _, _, _) =>
        if id != "" {
          ok := ids.PreReserve(id);
        }
      case PToolResult(_, content, _, _) =>
        ok := PreReserveContent(ids, content);
      case PDocument(source, _, _) =>
        if source.ContentSource? {
          ok := PreReserveContent(ids, source.content);
        }
      case _ =>
    }
  }

  /** decodeAnthropicBlocks */
  method DecodeBlocks(ids: RequestToolIDs, parts: seq<Part>) returns (r: Decoded<seq<Block>>)
    modifies ids
    ensures Agrees(r, ids.Value(), DecodeParts(parts, 0, old(ids.Value())))
    decreases parts, 1
  {
    var blocks: seq<Block> := [];
    assert parts[0..] == parts;
    PrependNothing(DecodeParts(parts, 0, ids.Value()));
    for i := 0 to |parts|
      invariant DecodeParts(parts, 0, old(ids.Value())) == Prepend(blocks, DecodeParts(parts[i..], i, ids.Value()))
    {
      ghost var before := ids.Value();
      var one := DecodeBlock(ids, parts[i], i);
      ghost var rest := DecodeParts(parts[i + 1..], i + 1, ids.Value());
      assert parts[i..][0] == parts[i] && parts[i..][1..] == parts[i + 1..];
      if !one.Ok? {
        return one;
      }
      assert DecodeParts(parts[i..], i, before) == Prepend(one.value, rest);
      PrependPrepend(blocks, one.value, rest);
      blocks := blocks + one.value;
    }
    assert parts[|parts|..] == [] && blocks + [] == blocks;
    return Ok(blocks);
  }

  /** A method's result and the namespace it leaves, against the function's value. */
  ghost predicate Agrees(r: Decoded<seq<Block>>, after: IDs, f: Decoded<(seq<Block>, IDs)>) {
    match f
    case Ok((blocks, ids)) => r == Ok(blocks) && after == ids
    case DuplicateID => r == DuplicateID
    case Malformed => r == Malformed
  }

  ghost function Prepend(blocks: seq<Block>, r: Decoded<(seq<Block>, IDs)>): Decoded<(seq<Block>, IDs)> {
    if r.Ok? then Ok((blocks + r.value.0, r.value.1)) else r
  }

  lemma {:induction false} PrependPrepend(a: seq<Block>, b: seq<Block>, r: Decoded<(seq<Block>, IDs)>)
    ensures Prepend(a, Prepend(b, r)) == Prepend(a + b, r)
  {
    if r.Ok? {
      assert a + (b + r.value.0) == a + b + r.value.0;
    }
  }

  lemma {:induction false} PrependNothing(r: Decoded<(seq<Block>, IDs)>)
    ensures Prepend([], r) == r
  {
    if r.Ok? {
      assert [] + r.value.0 == r.value.0;
    }
  }

  method DecodeContent(ids: RequestToolIDs, content: Content) returns (r: Decoded<seq<Block>>)
    modifies ids
    ensures Agrees(r, ids.Value(), Decode(content, old(ids.Value())))
    decreases content, 1
  {
    match content {
      case CNil => r := Ok([]);
      case CString(s) => r := Ok(if s == "" then [] else [Text(s, None, [])]);
      case CMalformed => r := Malformed;
      case CRefused(_) => r := Malformed;
      case CParts(parts) => r := DecodeBlocks(ids, parts);
    }
  }

  method DecodeBlock(ids: RequestToolIDs, p: Part, i: nat) returns (r: Decoded<seq<Block>>)
    modifies ids
    ensures Agrees(r, ids.Value(), DecodePart(p, i, old(ids.Value())))
    decreases p, 1
  {
    match p {
      case PText(text, cache, citations) => r := Ok([Text(text, cache, citations)]);
      case PImage(source, cache) =>
        r := if source.None? then Malformed else Ok([ImageBlock(ImageOf(source.value), cache)]);
      case PDocument(source, title, cache) =>
        ghost var f := DecodeDocument(source, title, ids.Value());
        match source {
          case OpaqueSource(s) => r := Ok([FileBlock(Some(OpaqueDocument(s)), title, None)]);
          case TextSource(text) => r := Ok([Text(text, None, [])]);
          case ContentSource(content) => r := DecodeContent(ids, content);
          case _ => r := Malformed;
        }
        assert Agrees(r, ids.Value(), f);
        if r.Ok? {
          r := Ok(CacheLast(r.value, cache));
        }
      case PToolUse(id, name, input, cache) =>
        if input.OtherInput? {
          return Malformed;
        }
        var arguments := if input.NoInput? then "{}" else input.text;
        if id == "" {
          var generated := ids.Generate(SyntheticToolID(i));
          return Ok([ToolCall(generated, name, arguments, cache)]);
        }
        var ok := ids.Claim(id);
        r := if ok then Ok([ToolCall(id, name, arguments, cache)]) else DuplicateID;
      case PToolResult(toolUseID, content, isError, cache) =>
        ghost var f := Decode(content, ids.Value());
        r := DecodeContent(ids, content);
        assert Agrees(r, ids.Value(), f);
        if r.Ok? {
          r := Ok([ToolResult(toolUseID, r.value, isError, cache)]);
        }
      case PThinking(thinking, signature) =>
        r := Ok([ReasoningBlock(Reasoning(thinking, [], signature, "", Anthropic), None)]);
      case PRedactedThinking(data) =>
        r := Ok([RedactedReasoning(Reasoning("", [], "", data, Anthropic), None)]);
      case PSkipped(_) => r := Ok([]);
    }
  }
}
