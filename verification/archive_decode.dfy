/**
 The two decoders of a backup archive (internal/backup/archive.go). The byte
 decoder reads the whole payload and then its members; the file decoder hashes,
 counts and splits the payload as it streams. Decompression is an arbitrary
 function of the compressed body and the payload limit; SHA-256 is an arbitrary
 function.
 */
module ArchiveDecode {
  import opened Wrappers
  import opened Bytes
  import opened ArchiveFraming

  const MAGIC: seq<byte> := [77, 86, 66, 49]
  const VERSION: byte := 1
  const HEADER_SIZE: nat := 48
  const CHUNK: nat := 0x8000

  // ---- the header ----

  datatype Header = Header(flags: byte, created: int, sum: seq<byte>)

  function ParseHeader(raw: seq<byte>): Option<Header> {
    if |raw| < HEADER_SIZE || raw[..4] != MAGIC || raw[4] != VERSION then None
    else if raw[5] == 0 || raw[5] > 3 || raw[6] != 0 || raw[7] != 0 then None
    else Some(Header(raw[5], ReadWord(raw[8..16]), raw[16..HEADER_SIZE]))
  }

  function BuildHeader(flags: byte, created: int, sum: seq<byte>): (raw: seq<byte>)
    requires -TWO_63 <= created < TWO_63 && |sum| == 32
    ensures |raw| == HEADER_SIZE
  {
    MAGIC + [VERSION, flags, 0, 0] + Word(created) + sum
  }

  /** A built header parses to what it was built from, whatever follows it. */
  lemma {:induction false} HeaderRoundTrip(flags: byte, created: int, sum: seq<byte>, body: seq<byte>)
    requires 1 <= flags <= 3 && -TWO_63 <= created < TWO_63 && |sum| == 32
    ensures var raw := BuildHeader(flags, created, sum) + body;
            ParseHeader(raw) == Some(Header(flags, created, sum)) && raw[HEADER_SIZE..] == body
  {
    var raw := BuildHeader(flags, created, sum) + body;
    assert raw[..4] == MAGIC && raw[8..16] == Word(created) && raw[16..HEADER_SIZE] == sum;
    WordRoundTrip(created);
  }

  /** The headers that parse are the built ones, and a header parses to what it was built from. */
  lemma {:induction false} HeaderIff(raw: seq<byte>, h: Header)
    ensures ParseHeader(raw) == Some(h) <==>
              && |raw| >= HEADER_SIZE && 1 <= h.flags <= 3 && -TWO_63 <= h.created < TWO_63 && |h.sum| == 32
              && raw[..HEADER_SIZE] == BuildHeader(h.flags, h.created, h.sum)
  {
    if ParseHeader(raw) == Some(h) {
      WordOfReadWord(raw[8..16]);
      var built := BuildHeader(h.flags, h.created, h.sum);
      assert raw[..HEADER_SIZE] == raw[..4] + raw[4..8] + raw[8..16] + raw[16..HEADER_SIZE];
      assert raw[4..8] == [raw[4], raw[5], raw[6], raw[7]];
      assert built == raw[..4] + raw[4..8] + raw[8..16] + raw[16..HEADER_SIZE];
    }
    if && |raw| >= HEADER_SIZE && 1 <= h.flags <= 3 && -TWO_63 <= h.created < TWO_63 && |h.sum| == 32
       && raw[..HEADER_SIZE] == BuildHeader(h.flags, h.created, h.sum) {
      assert raw == BuildHeader(h.flags, h.created, h.sum) + raw[HEADER_SIZE..];
      HeaderRoundTrip(h.flags, h.created, h.sum, raw[HEADER_SIZE..]);
    }
  }

  /**
   The 48 bytes of a header: "MVB1", version 1, the flags, two zeros, the creation
   time as a big-endian int64, the hash.
   */
  lemma {:induction false} HeaderLayout(flags: byte, created: int, sum: seq<byte>)
    requires -TWO_63 <= created < TWO_63 && |sum| == 32
    ensures var raw := BuildHeader(flags, created, sum);
            && |raw| == 48
            && raw[..8] == [77, 86, 66, 49, 1, flags, 0, 0]
            && created == Quad(raw[8], raw[9], raw[10], raw[11]) * 0x1_0000_0000
                          + Quad(raw[12], raw[13], raw[14], raw[15])
                          - (if raw[8] >= 128 then 0x1_0000_0000_0000_0000 else 0)
            && raw[16..] == sum
  {
    var raw := BuildHeader(flags, created, sum);
    assert raw[8..16] == Word(created);
    WordRoundTrip(created);
    WordIsTwosComplement(raw[8..16]);
  }

  // ---- what the decoders accept ----

  /** What a decompressor yields before it ends, and whether it ended well. */
  datatype Stream = Stream(bytes: seq<byte>, ok: bool)

  datatype Codec = Codec(inflate: (seq<byte>, nat) -> Stream, sha: seq<byte> -> seq<byte>)

  datatype Decoded = Decoded(created: int, flags: byte, members: seq<Member>)

  function Decode(codec: Codec, raw: seq<byte>, maxPayload: int): Option<Decoded> {
    if maxPayload <= 0 then None
    else
      var h := ParseHeader(raw);
      if h.None? then None
      else
        var s := codec.inflate(raw[HEADER_SIZE..], maxPayload);
        if !s.ok || |s.bytes| > maxPayload || codec.sha(s.bytes) != h.value.sum then None
        else
          var members := DecodeMembers(s.bytes, h.value.flags, maxPayload);
          if members.None? then None else Some(Decoded(h.value.created, h.value.flags, members.value))
  }

  /** The accepted archives, without any decoder: a good header over a framed payload within the cap. */
  lemma {:induction false} AcceptedIff(codec: Codec, raw: seq<byte>, maxPayload: int, d: Decoded)
    requires maxPayload < TWO_63
    ensures Decode(codec, raw, maxPayload) == Some(d) <==>
              && maxPayload > 0
              && ParseHeader(raw).Some?
              && ParseHeader(raw).value == Header(d.flags, d.created, codec.sha(FrameAll(d.members)))
              && codec.inflate(raw[HEADER_SIZE..], maxPayload) == Stream(FrameAll(d.members), true)
              && |FrameAll(d.members)| <= maxPayload
              && Admissible(d.members, d.flags, maxPayload)
  {
    if maxPayload > 0 && ParseHeader(raw).Some? {
      var s := codec.inflate(raw[HEADER_SIZE..], maxPayload);
      DecodeMembersIff(s.bytes, ParseHeader(raw).value.flags, maxPayload, d.members);
      var parsed := DecodeMembers(s.bytes, ParseHeader(raw).value.flags, maxPayload);
      if parsed.Some? {
        DecodeMembersIff(s.bytes, ParseHeader(raw).value.flags, maxPayload, parsed.value);
      }
    }
  }

  // ---- the archive that a decoder returns ----

  datatype Database = NoDatabase | InMemory(bytes: seq<byte>) | Staged(bytes: seq<byte>) | Discarded(size: nat)

  datatype Archive = Archive(created: int, config: seq<byte>, database: Database)

  datatype Mode = ToMemory | ToFile | Discarding

  function DatabaseIn(mode: Mode, members: seq<Member>): Database {
    if !exists m :: m in members && m.kind == DATABASE then NoDatabase
    else
      var body := BodyOf(members, DATABASE);
      match mode
      case ToMemory => InMemory(body)
      case ToFile => Staged(body)
      case Discarding => Discarded(|body|)
  }

  function ArchiveOf(mode: Mode, d: Decoded): Archive {
    Archive(d.created, BodyOf(d.members, CONFIG), DatabaseIn(mode, d.members))
  }

  /** Whatever is done with the database, config, creation time and database content agree. */
  lemma {:induction false} ModesAgree(codec: Codec, raw: seq<byte>, maxPayload: int)
    requires Decode(codec, raw, maxPayload).Some?
    ensures var d := Decode(codec, raw, maxPayload).value;
            var memory, file, discard := ArchiveOf(ToMemory, d), ArchiveOf(ToFile, d), ArchiveOf(Discarding, d);
            && memory.config == file.config == discard.config
            && memory.created == file.created == discard.created
            && if HasDatabase(d.flags) then
                 && memory.database.InMemory? && memory.database.bytes != []
                 && file.database == Staged(memory.database.bytes)
                 && discard.database == Discarded(|memory.database.bytes|)
               else memory.database == file.database == discard.database == NoDatabase
  {
    var d := Decode(codec, raw, maxPayload).value;
    var payload := codec.inflate(raw[HEADER_SIZE..], maxPayload).bytes;
    ParsedIsFramed(payload, d.flags, maxPayload, {});
    BodyIsMember(d.members, DATABASE);
  }

  lemma {:induction false} BodyIsMember(members: seq<Member>, kind: byte)
    ensures BodyOf(members, kind) != [] ==> exists m :: m in members && m.kind == kind
  {
    if members != [] {
      BodyIsMember(members[1..], kind);
      assert members[0] in members;
    }
  }
}
