/**
 The canonical content blocks (internal/format/ir/ir.go) and the blocks of the
 Anthropic Messages wire that the codec exchanges. JSON values are taken as
 already parsed; the source that a document block renders to is given with the
 block (encodeAnthropicFile is not part of this model).
 */
module AnthropicModel {
  import opened Wrappers

  datatype Role = System | Developer | User | Assistant

  datatype Protocol = Unknown | Chat | Responses | Anthropic | Cursor

  datatype CacheControl = CacheControl(kind: string, ttl: string)

  datatype Citation = Citation(kind: string, citedText: string, url: string, title: string,
                               startIndex: int, endIndex: int)

  datatype Image = Image(url: string, fileID: string, data: string, mediaType: string, detail: string)

  datatype Reasoning = Reasoning(text: string, summary: seq<string>, signature: string,
                                 encrypted: string, provider: Protocol)

  type NonEmpty = s: string | s != "" witness "x"

  /** What a document renders to: its text, or a file, URL or PDF source, which is opaque here. */
  datatype Document = OpaqueDocument(id: string) | TextDocument(text: NonEmpty)

  /** One canonical block. A tool call with empty arguments means the empty object. */
  datatype Block =
    | Text(text: string, cache: Option<CacheControl>, citations: seq<Citation>)
    | ImageBlock(image: Image, cache: Option<CacheControl>)
    | FileBlock(source: Option<Document>, filename: string, cache: Option<CacheControl>)
    | Audio(data: string, cache: Option<CacheControl>)
    | ToolCall(id: string, name: string, arguments: string, cache: Option<CacheControl>)
    | ToolResult(callID: string, content: seq<Block>, isError: bool, cache: Option<CacheControl>)
    | ReasoningBlock(reasoning: Reasoning, cache: Option<CacheControl>)
    | RedactedReasoning(reasoning: Reasoning, cache: Option<CacheControl>)
    | Refusal(refusal: string, cache: Option<CacheControl>)

  datatype Message = Message(role: Role, content: seq<Block>)

  datatype ImageSource =
    | FileSource(fileID: string)
    | Base64Source(mediaType: string, data: string)
    | URLSource(url: string)

  /** One wire block. An empty citation list is the absent "citations" member. */
  datatype WireBlock =
    | WText(text: string, cache: Option<CacheControl>, citations: seq<Citation>)
    | WImage(image: ImageSource, cache: Option<CacheControl>)
    | WDocument(source: Document, title: Option<string>, cache: Option<CacheControl>)
    | WToolUse(id: string, name: string, input: string, cache: Option<CacheControl>)
    | WToolResult(toolUseID: string, content: WireContent, isError: bool, cache: Option<CacheControl>)
    | WThinking(thinking: string, signature: string)
    | WRedactedThinking(data: string)

  /** Go's nil content, the string form and the block-array form (which may be empty). */
  datatype WireContent = WNil | WString(s: string) | WBlocks(blocks: seq<WireBlock>)

  /** A rendered conversation turn. */
  datatype Turn = Turn(role: Role, content: WireContent)
}
