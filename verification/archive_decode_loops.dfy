/**
 The decoders of a backup archive as the loops they are: readers that return
 arbitrary short reads, the shared framing loop that consumes one member after
 another, and the two entry points, each proved against ArchiveDecode.Decode.
 */
module ArchiveDecodeLoops {
  import opened Wrappers
  import opened Bytes
  import opened ArchiveFraming
  import opened ArchiveDecode

  /** io.LimitReader: one byte past the cap is all that is ever read. */
  function Capped(s: Stream, max: nat): Stream {
    if |s.bytes| > max then Stream(s.bytes[..max + 1], true) else s
  }

  /** A payload as it is read; hashReader and its count are what lies before off. */
  class PayloadReader {
    const bytes: seq<byte>
    const ok: bool
    var off: nat

    ghost predicate Valid()
      reads this
    {
      off <= |bytes|
    }

    constructor (s: Stream)
      ensures Valid() && bytes == s.bytes && ok == s.ok && off == 0
    {
      bytes, ok, off := s.bytes, s.ok, 0;
    }

    /** One read: some of what is left, or nothing at the end. */
    method Read(max: nat) returns (got: seq<byte>)
      requires Valid() && max > 0
      modifies this`off
      ensures Valid() && off == old(off) + |got| && got == bytes[old(off)..off]
      ensures |got| <= max && (got == [] <==> old(off) == |bytes|)
    {
      if off == |bytes| {
        return [];
      }
      var n: nat :| 0 < n <= max && off + n <= |bytes|;
      got := bytes[off..off + n];
      off := off + n;
    }

    /** io.ReadFull, and reading a LimitedReader to its end: n bytes, or all there is. */
    method ReadFull(n: nat) returns (got: seq<byte>)
      requires Valid()
      modifies this`off
      ensures Valid() && off == old(off) + |got| && got == bytes[old(off)..off]
      ensures |got| == if |bytes| - old(off) < n then |bytes| - old(off) else n
    {
      got := [];
      while |got| < n
        invariant Valid() && off == old(off) + |got| && got == bytes[old(off)..off] && |got| <= n
        decreases n - |got|
      {
        var part := Read(if n - |got| < CHUNK then n - |got| else CHUNK);
        if part == [] {
          return;
        }
        got := got + part;
      }
    }
  }

  /** The consumer of the members. */
  class Sink {
    const mode: Mode
    const canStage: bool
    var config: seq<byte>
    var database: Database

    constructor (mode: Mode, canStage: bool)
      ensures this.mode == mode && this.canStage == canStage && config == [] && database == NoDatabase
    {
      this.mode, this.canStage := mode, canStage;
      config, database := [], NoDatabase;
    }

    /** Whether this consumer can take a member at all. */
    predicate Takes(kind: byte) {
      kind == DATABASE && mode == ToFile ==> canStage
    }

    /** Reads one member's body; a short body or a failed staging file fails. */
    method Consume(kind: byte, size: nat, r: PayloadReader) returns (ok: bool)
      requires r.Valid() && (kind == CONFIG || kind == DATABASE)
      modifies this, r`off
      ensures r.Valid() && old(r.off) <= r.off
      ensures ok <==> Takes(kind) && |r.bytes| - old(r.off) >= size
      ensures ok ==>
                && r.off == old(r.off) + size
                && var body := r.bytes[old(r.off)..r.off];
                   if kind == CONFIG then config == body && database == old(database)
                   else config == old(config) && database == Kept(mode, body)
    {
      if !(kind == DATABASE && mode == ToFile ==> canStage) {
        return false;
      }
      var body := r.ReadFull(size);
      if |body| != size {
        return false;
      }
      if kind == CONFIG {
        config := body;
      } else {
        database := Kept(mode, body);
      }
      return true;
    }
  }

  function Kept(mode: Mode, body: seq<byte>): Database {
    match mode
    case ToMemory => InMemory(body)
    case ToFile => Staged(body)
    case Discarding => Discarded(|body|)
  }

  /** What a sink holds after these members. */
  ghost predicate Holds(mode: Mode, config: seq<byte>, database: Database, members: seq<Member>) {
    && config == BodyOf(members, CONFIG)
    && database == DatabaseIn(mode, members)
  }

  ghost function Parsed(done: seq<Member>, rest: Option<seq<Member>>): Option<seq<Member>> {
    if rest.None? then None else Some(done + rest.value)
  }

  function Kinds(members: seq<Member>): set<byte> {
    set m | m in members :: m.kind
  }

  lemma {:induction false} BodyOfSnoc(done: seq<Member>, m: Member, kind: byte)
    requires m.kind !in Kinds(done)
    ensures BodyOf(done + [m], kind) == if m.kind == kind then m.body else BodyOf(done, kind)
  {
    if done != [] {
      assert done[0].kind in Kinds(done);
      assert Kinds(done[1..]) <= Kinds(done);
      BodyOfSnoc(done[1..], m, kind);
      assert (done + [m])[1..] == done[1..] + [m];
    } else {
      assert [] + [m] == [m];
      assert BodyOf([m][1..], kind) == [];
    }
  }

  lemma {:induction false} HoldsSnoc(mode: Mode, config: seq<byte>, database: Database, done: seq<Member>, m: Member)
    requires Holds(mode, config, database, done) && m.kind !in Kinds(done)
    ensures Holds(mode, if m.kind == CONFIG then m.body else config,
                  if m.kind == DATABASE then Kept(mode, m.body) else database, done + [m])
  {
    BodyOfSnoc(done, m, CONFIG);
    BodyOfSnoc(done, m, DATABASE);
    assert m in done + [m];
    forall x | x in done
      ensures x in done + [m]
    {
    }
  }

  lemma {:induction false} Reslice(bytes: seq<byte>, off: nat, from: nat, to: nat)
    requires off <= |bytes| && from <= to <= |bytes| - off
    ensures bytes[off..][from..to] == bytes[off + from..off + to]
    ensures bytes[off..][to..] == bytes[off + to..]
  {
  }

  /** One step of the framing loop, in terms of Parse. */
  lemma {:induction false} ParseStep(bytes: seq<byte>, off: nat, flags: byte, limit: nat, done: seq<Member>)
    requires off <= |bytes|
    ensures var rest := bytes[off..];
            if |rest| == 0 then Parsed(done, Parse(rest, flags, limit, Kinds(done))) == Some(done)
            else if |rest| < 9 then Parse(rest, flags, limit, Kinds(done)).None?
            else
              var kind, size := bytes[off], Number(bytes[off + 1..off + 9]);
              if size > limit || kind in Kinds(done) || !Allowed(kind, size, flags) || |rest| < 9 + size then
                Parse(rest, flags, limit, Kinds(done)).None?
              else
                var m := Member(kind, bytes[off + 9..off + 9 + size]);
                Parsed(done, Parse(rest, flags, limit, Kinds(done)))
                == Parsed(done + [m], Parse(bytes[off + 9 + size..], flags, limit, Kinds(done + [m])))
  {
    var rest := bytes[off..];
    if |rest| == 0 {
      assert done + [] == done;
    }
    if |rest| >= 9 {
      var kind, size := bytes[off], Number(bytes[off + 1..off + 9]);
      Reslice(bytes, off, 1, 9);
      if |rest| >= 9 + size {
        var m := Member(kind, bytes[off + 9..off + 9 + size]);
        Reslice(bytes, off, 9, 9 + size);
        KindsSnoc(done, m);
        var tail := Parse(bytes[off + 9 + size..], flags, limit, Kinds(done) + {kind});
        if tail.Some? {
          assert done + ([m] + tail.value) == done + [m] + tail.value;
        }
      }
    }
  }

  lemma {:induction false} KindsSnoc(done: seq<Member>, m: Member)
    ensures Kinds(done + [m]) == Kinds(done) + {m.kind}
  {
    forall k | k in Kinds(done) + {m.kind}
      ensures k in Kinds(done + [m])
    {
      if k == m.kind {
        assert m in done + [m];
      } else {
        var x :| x in done && x.kind == k;
        assert x in done + [m];
      }
    }
  }

  /** How far the loop has come: what is done, what the sink holds, and what is left to parse. */
  ghost predicate Progress(bytes: seq<byte>, off: nat, flags: byte, limit: nat, done: seq<Member>,
                           mode: Mode, config: seq<byte>, database: Database) {
    && off <= |bytes|
    && Parse(bytes, flags, limit, {}) == Parsed(done, Parse(bytes[off..], flags, limit, Kinds(done)))
    && Holds(mode, config, database, done)
  }

  lemma {:induction false} NothingRead(bytes: seq<byte>, flags: byte, limit: nat, mode: Mode)
    ensures Kinds([]) == {} && Progress(bytes, 0, flags, limit, [], mode, [], NoDatabase)
  {
    assert bytes[0..] == bytes;
    var all := Parse(bytes, flags, limit, {});
    if all.Some? {
      assert [] + all.value == all.value;
    }
  }

  lemma {:induction false} OneMember(bytes: seq<byte>, off: nat, flags: byte, limit: nat, done: seq<Member>, mode: Mode,
                                     config: seq<byte>, database: Database, m: Member)
    requires Progress(bytes, off, flags, limit, done, mode, config, database)
    requires Taken(bytes, off, flags, limit, Kinds(done), m)
    ensures Progress(bytes, off + 9 + |m.body|, flags, limit, done + [m], mode,
                     if m.kind == CONFIG then m.body else config,
                     if m.kind == DATABASE then Kept(mode, m.body) else database)
    ensures Kinds(done + [m]) == Kinds(done) + {m.kind}
  {
    ParseStep(bytes, off, flags, limit, done);
    HoldsSnoc(mode, config, database, done, m);
    KindsSnoc(done, m);
  }

  /** The loop at the end of the payload, and at a member it must refuse. */
  lemma {:induction false} NoMember(bytes: seq<byte>, off: nat, flags: byte, limit: nat, done: seq<Member>, mode: Mode,
                                    config: seq<byte>, database: Database)
    requires Progress(bytes, off, flags, limit, done, mode, config, database)
    ensures off == |bytes| ==> Parse(bytes, flags, limit, {}) == Some(done)
    ensures Refused(bytes, off, flags, limit, Kinds(done)) ==> Parse(bytes, flags, limit, {}).None?
  {
    ParseStep(bytes, off, flags, limit, done);
  }

  /** The sizes that the loop recorded, against the members it read. */
  ghost predicate Sized(done: seq<Member>, configSize: nat, databaseSize: nat) {
    configSize == |BodyOf(done, CONFIG)| && databaseSize == |BodyOf(done, DATABASE)|
  }

  lemma {:induction false} SizedSnoc(done: seq<Member>, m: Member, configSize: nat, databaseSize: nat)
    requires Sized(done, configSize, databaseSize) && m.kind !in Kinds(done)
    ensures Sized(done + [m], if m.kind == CONFIG then |m.body| else configSize,
                  if m.kind == DATABASE then |m.body| else databaseSize)
  {
    BodyOfSnoc(done, m, CONFIG);
    BodyOfSnoc(done, m, DATABASE);
  }

  datatype Step = End | Refuse | Took(kind: byte, size: nat)

  /** The member that starts at off, its size as its header says. */
  ghost predicate StartsWith(bytes: seq<byte>, off: nat, kind: byte, size: nat) {
    off + 9 <= |bytes| && kind == bytes[off] && size == Number(bytes[off + 1..off + 9])
  }

  /** A member that the loop takes. */
  ghost predicate Taken(bytes: seq<byte>, off: nat, flags: byte, limit: nat, seen: set<byte>, m: Member) {
    && StartsWith(bytes, off, m.kind, |m.body|)
    && off + 9 + |m.body| <= |bytes| && m.body == bytes[off + 9..off + 9 + |m.body|]
    && |m.body| <= limit && m.kind !in seen && Allowed(m.kind, |m.body|, flags)
  }

  /** Nothing that the loop could take starts at off. */
  ghost predicate Refused(bytes: seq<byte>, off: nat, flags: byte, limit: nat, seen: set<byte>) {
    || off < |bytes| < off + 9
    || exists kind: byte, size: nat :: StartsWith(bytes, off, kind, size)
                            && (size > limit || kind in seen || !Allowed(kind, size, flags) || |bytes| < off + 9 + size)
  }

  /** One step of decodeMembers: it consumes at least nine bytes, or ends the loop. */
  method NextMember(r: PayloadReader, flags: byte, limit: nat, sink: Sink, seen: set<byte>)
    returns (step: Step, ghost m: Member)
    requires r.Valid()
    modifies r`off, sink
    ensures r.Valid() && old(r.off) <= r.off
    ensures step == End ==> r.ok && old(r.off) == |r.bytes| == r.off
    ensures step == End ==> sink.config == old(sink.config) && sink.database == old(sink.database)
    ensures step == Refuse ==>
              || (!r.ok && old(r.off) == |r.bytes|)
              || Refused(r.bytes, old(r.off), flags, limit, seen)
              || (HasDatabase(flags) && !sink.Takes(DATABASE))
    ensures step.Took? ==>
              && Taken(r.bytes, old(r.off), flags, limit, seen, m)
              && step == Took(m.kind, |m.body|) && r.off == old(r.off) + 9 + |m.body| && sink.Takes(m.kind)
              && sink.config == (if m.kind == CONFIG then m.body else old(sink.config))
              && sink.database == (if m.kind == DATABASE then Kept(sink.mode, m.body) else old(sink.database))
  {
    m := Member(0, []);
    var hdr := r.ReadFull(9);
    if |hdr| < 9 {
      return if hdr == [] && r.ok then End else Refuse, m;
    }
    var kind, size := hdr[0], Number(hdr[1..]);
    assert hdr[1..] == r.bytes[old(r.off) + 1..old(r.off) + 9];
    assert StartsWith(r.bytes, old(r.off), kind, size);
    if size > limit || kind in seen || !Allowed(kind, size, flags) {
      return Refuse, m;
    }
    var taken := sink.Consume(kind, size, r);
    if !taken {
      return Refuse, m;
    }
    m := Member(kind, r.bytes[old(r.off) + 9..r.off]);
    return Took(kind, size), m;
  }

  /** What the loop knows when it ends: the members it read, or why there are none. */
  ghost predicate LoopEnded(r: PayloadReader, flags: byte, limit: nat, sink: Sink, step: Step, done: seq<Member>) {
    if step == End then r.ok && Parse(r.bytes, flags, limit, {}) == Some(done)
    else !r.ok || Parse(r.bytes, flags, limit, {}).None? || (HasDatabase(flags) && !sink.Takes(DATABASE))
  }

  /** The same step, and what it means for the members read so far. */
  method AdvanceOne(r: PayloadReader, flags: byte, limit: nat, sink: Sink, seen: set<byte>, ghost done: seq<Member>)
    returns (step: Step, ghost done': seq<Member>)
    requires Progress(r.bytes, r.off, flags, limit, done, sink.mode, sink.config, sink.database) && seen == Kinds(done)
    modifies r`off, sink
    ensures r.Valid() && old(r.off) <= r.off
    ensures !step.Took? ==> done' == done && LoopEnded(r, flags, limit, sink, step, done)
    ensures step == End ==> r.off == |r.bytes| && Holds(sink.mode, sink.config, sink.database, done)
    ensures step.Took? ==>
              && old(r.off) + 9 <= r.off
              && Progress(r.bytes, r.off, flags, limit, done', sink.mode, sink.config, sink.database)
              && Kinds(done') == seen + {step.kind} && step.kind !in seen && sink.Takes(step.kind)
              && exists m :: done' == done + [m] && m.kind == step.kind && |m.body| == step.size
  {
    ghost var start, config, database := r.off, sink.config, sink.database;
    ghost var m;
    step, m := NextMember(r, flags, limit, sink, seen);
    done' := done;
    if step.Took? {
      OneMember(r.bytes, start, flags, limit, done, sink.mode, config, database, m);
      done' := done + [m];
    } else {
      NoMember(r.bytes, start, flags, limit, done, sink.mode, config, database);
    }
  }

  /** The loop of decodeMembers. */
  method ReadMembers(r: PayloadReader, flags: byte, limit: nat, sink: Sink)
    returns (ok: bool, configSize: nat, databaseSize: nat, ghost done: seq<Member>)
    requires r.Valid() && r.off == 0
    requires sink.config == [] && sink.database == NoDatabase
    modifies r`off, sink
    ensures r.Valid()
    ensures LoopEnded(r, flags, limit, sink, if ok then End else Refuse, done)
    ensures ok ==>
              && r.off == |r.bytes| && Holds(sink.mode, sink.config, sink.database, done)
              && Sized(done, configSize, databaseSize)
              && (DATABASE in Kinds(done) ==> sink.Takes(DATABASE))
  {
    done, configSize, databaseSize := [], 0, 0;
    var seen: set<byte> := {};
    NothingRead(r.bytes, flags, limit, sink.mode);
    while true
      invariant Progress(r.bytes, r.off, flags, limit, done, sink.mode, sink.config, sink.database)
      invariant seen == Kinds(done) && Sized(done, configSize, databaseSize)
      invariant DATABASE in seen ==> sink.Takes(DATABASE)
      decreases |r.bytes| - r.off
    {
      ghost var before := done;
      var step;
      step, done := AdvanceOne(r, flags, limit, sink, seen, done);
      if !step.Took? {
        return step == End, configSize, databaseSize, done;
      }
      ghost var m :| done == before + [m] && m.kind == step.kind && |m.body| == step.size;
      SizedSnoc(before, m, configSize, databaseSize);
      seen := seen + {step.kind};
      if step.kind == CONFIG {
        configSize := step.size;
      } else if step.kind == DATABASE {
        databaseSize := step.size;
      }
    }
  }

  /** decodeMembers with its checks for missing members. */
  method DecodeStream(r: PayloadReader, flags: byte, limit: nat, sink: Sink) returns (ok: bool)
    requires r.Valid() && r.off == 0
    requires sink.config == [] && sink.database == NoDatabase
    modifies r`off, sink
    ensures r.Valid()
    ensures ok <==>
              && r.ok && DecodeMembers(r.bytes, flags, limit).Some?
              && (HasDatabase(flags) ==> sink.Takes(DATABASE))
    ensures ok ==>
              && r.off == |r.bytes|
              && Holds(sink.mode, sink.config, sink.database, DecodeMembers(r.bytes, flags, limit).value)
  {
    var configSize, databaseSize;
    ghost var done;
    ok, configSize, databaseSize, done := ReadMembers(r, flags, limit, sink);
    if !ok || (HasConfig(flags) && configSize == 0) || (HasDatabase(flags) && databaseSize == 0) {
      return false;
    }
    BodyIsMember(done, DATABASE);
    return true;
  }

  /** readCapped */
  method ReadCapped(r: PayloadReader, max: nat) returns (payload: Option<seq<byte>>)
    requires r.Valid() && r.off == 0
    modifies r`off
    ensures payload == if r.ok && |r.bytes| <= max then Some(r.bytes) else None
  {
    var data: seq<byte> := [];
    while true
      invariant r.Valid() && data == r.bytes[..r.off]
      decreases |r.bytes| - r.off
    {
      var part := r.Read(CHUNK);
      if part == [] {
        break;
      }
      data := data + part;
    }
    assert data == r.bytes;
    if !r.ok || |data| > max {
      return None;
    }
    return Some(data);
  }

  /** decodeLimited */
  method DecodeLimited(codec: Codec, raw: seq<byte>, maxPayload: int) returns (r: Option<Archive>)
    ensures r.Some? <==> Decode(codec, raw, maxPayload).Some?
    ensures r.Some? ==> r.value == ArchiveOf(ToMemory, Decode(codec, raw, maxPayload).value)
  {
    if maxPayload <= 0 {
      return None;
    }
    var h := ParseHeader(raw);
    if h.None? {
      return None;
    }
    var s := codec.inflate(raw[HEADER_SIZE..], maxPayload);
    var body := new PayloadReader(Capped(s, maxPayload));
    var payload := ReadCapped(body, maxPayload);
    if payload.None? || codec.sha(payload.value) != h.value.sum {
      return None;
    }
    var reader := new PayloadReader(Stream(payload.value, true));
    var sink := new Sink(ToMemory, true);
    var ok := DecodeStream(reader, h.value.flags, maxPayload, sink);
    if !ok {
      return None;
    }
    return Some(Archive(h.value.created, sink.config, sink.database));
  }

  /** decodeFileSelected: the hash and the cap are checked after the members were consumed. */
  method DecodeFileSelected(codec: Codec, src: seq<byte>, maxPayload: int, keepDatabase: bool, canStage: bool)
    returns (r: Option<Archive>)
    requires maxPayload < TWO_63
    ensures var d := Decode(codec, src, maxPayload);
            && (r.Some? <==> d.Some? && (keepDatabase && HasDatabase(d.value.flags) ==> canStage))
            && (r.Some? ==> r.value == ArchiveOf(if keepDatabase then ToFile else Discarding, d.value))
  {
    if maxPayload <= 0 {
      return None;
    }
    var h := ParseHeader(src);
    if h.None? {
      return None;
    }
    var s := codec.inflate(src[HEADER_SIZE..], maxPayload);
    var stream := new PayloadReader(Capped(s, maxPayload));
    var sink := new Sink(if keepDatabase then ToFile else Discarding, canStage);
    var ok := DecodeStream(stream, h.value.flags, maxPayload, sink);
    if stream.off > maxPayload {
      return None;
    }
    if !ok {
      return None;
    }
    assert stream.bytes[..stream.off] == stream.bytes;
    if codec.sha(stream.bytes[..stream.off]) != h.value.sum {
      return None;
    }
    return Some(Archive(h.value.created, sink.config, sink.database));
  }
}
