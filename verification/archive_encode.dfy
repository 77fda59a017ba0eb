/**
 Encoding a backup archive (internal/backup/archive.go): the payload pre-check,
 the capped writers, an arbitrary compressor between them, and the streaming
 self-check, after which the staged file is known to decode to the source.
 */
module ArchiveEncode {
  import opened Wrappers
  import opened Bytes
  import opened ArchiveFraming
  import opened ArchiveDecode
  import opened ArchiveDecodeLoops

  // ---- what is encoded ----

  /** A database file as one walk over the members finds it: its stat, and its bytes when it is read. */
  datatype FileView = Missing | Irregular | File(statSize: int, content: seq<byte>)

  /** The file behind a path can differ between the pre-check, the encoding and the self-check. */
  datatype Views = Views(precheck: FileView, encode: FileView, check: FileView)

  datatype Source = Source(created: Option<int>, config: seq<byte>, database: seq<byte>, path: Option<Views>)

  predicate HasDatabaseSource(a: Source) {
    a.database != [] || a.path.Some?
  }

  function Flags(a: Source): byte {
    (if a.config != [] then 1 else 0) + (if HasDatabaseSource(a) then 2 else 0)
  }

  /** A member as its walk announces it: the size, and the bytes that reading it gives. */
  datatype MemberSource = MemberSource(kind: byte, size: int, content: seq<byte>, onDisk: bool)

  /** forEachMember over one view of the database file: config first, then database. */
  function Walk(a: Source, view: FileView): Option<seq<MemberSource>> {
    if a.database != [] && a.path.Some? then None
    else
      var config := if a.config != [] then [MemberSource(CONFIG, |a.config|, a.config, false)] else [];
      if a.database != [] then Some(config + [MemberSource(DATABASE, |a.database|, a.database, false)])
      else if a.path.None? then Some(config)
      else if view.File? && view.statSize > 0 then
        Some(config + [MemberSource(DATABASE, view.statSize, view.content, true)])
      else None
  }

  /** The members that were announced truthfully. */
  predicate Steady(sources: seq<MemberSource>) {
    forall m :: m in sources ==> IsSteady(m)
  }

  predicate IsSteady(m: MemberSource) {
    m.size == |m.content|
  }

  /** Sizes are int64s; what is in memory is as long as it says. */
  predicate IsAnnounced(m: MemberSource) {
    0 <= m.size < TWO_63 && (m.onDisk || IsSteady(m))
  }

  function MembersOf(sources: seq<MemberSource>): (members: seq<Member>)
    ensures |members| == |sources|
  {
    if sources == [] then [] else [Member(sources[0].kind, sources[0].content)] + MembersOf(sources[1..])
  }

  // ---- the same of the source itself ----

  /** There is one source of the database at most, and a file is regular, not empty, and as long as it was announced. */
  predicate Intact(a: Source, view: FileView) {
    if a.path.None? then true
    else a.database == [] && view.File? && view.statSize == |view.content| > 0
  }

  /** What an archive of the source holds: its configuration, then its database, whole. */
  function SourceMembers(a: Source, view: FileView): seq<Member> {
    (if a.config != [] then [Member(CONFIG, a.config)] else [])
    + (if a.database != [] then [Member(DATABASE, a.database)]
       else if a.path.Some? && view.File? then [Member(DATABASE, view.content)] else [])
  }

  /** The walk finds the source's members, exactly when the source is intact. */
  lemma {:induction false} WalkIsSource(a: Source, view: FileView)
    ensures Walk(a, view).Some? && Steady(Walk(a, view).value) <==> Intact(a, view)
    ensures Walk(a, view).Some? ==> MembersOf(Walk(a, view).value) == SourceMembers(a, view)
  {
    if Walk(a, view).Some? {
      var sources := Walk(a, view).value;
      WalkLists(sources);
      if |sources| == 2 {
        assert Steady(sources) <==> IsSteady(sources[0]) && IsSteady(sources[1]);
      } else if |sources| == 1 {
        assert Steady(sources) <==> IsSteady(sources[0]);
      }
    }
  }

  lemma {:induction false} WalkLists(sources: seq<MemberSource>)
    ensures |sources| == 1 ==> MembersOf(sources) == [Member(sources[0].kind, sources[0].content)]
    ensures |sources| == 2 ==>
              MembersOf(sources)
              == [Member(sources[0].kind, sources[0].content), Member(sources[1].kind, sources[1].content)]
  {
    if |sources| == 1 {
      assert sources[1..] == [];
    } else if |sources| == 2 {
      assert sources[1..][1..] == [] && sources[1..][0] == sources[1];
      assert MembersOf(sources[1..]) == [Member(sources[1].kind, sources[1].content)] + MembersOf(sources[1..][1..]);
    }
  }

  function FramedLength(sources: seq<MemberSource>): int {
    if sources == [] then 0 else sources[0].size + 9 + FramedLength(sources[1..])
  }

  lemma {:induction false} FramedLengthIsLength(sources: seq<MemberSource>)
    requires Steady(sources)
    ensures FramedLength(sources) == |FrameAll(MembersOf(sources))|
  {
    if sources != [] {
      assert IsSteady(sources[0]);
      FramedLengthIsLength(sources[1..]);
      assert MembersOf(sources)[1..] == MembersOf(sources[1..]);
    }
  }

  /** The framing and the framed length from one member on. */
  lemma {:induction false} FromMember(sources: seq<MemberSource>, i: nat)
    requires i < |sources|
    ensures FrameAll(MembersOf(sources[i..]))
            == Frame(Member(sources[i].kind, sources[i].content)) + FrameAll(MembersOf(sources[i + 1..]))
    ensures FramedLength(sources[i..]) == sources[i].size + 9 + FramedLength(sources[i + 1..])
  {
    assert sources[i..][0] == sources[i] && sources[i..][1..] == sources[i + 1..];
    assert MembersOf(sources[i..])[1..] == MembersOf(sources[i + 1..]);
  }

  // ---- the pre-check ----

  predicate InInt64(n: int) {
    -TWO_63 <= n < TWO_63
  }

  /**
   The payload pre-check. No operation of the loop leaves the int64 range, and it
   passes exactly when the framed members fit.
   */
  method PayloadFits(sources: seq<MemberSource>, payloadMax: int) returns (fits: bool)
    requires 0 <= payloadMax < TWO_63 - 1
    requires forall m :: m in sources ==> IsAnnounced(m)
    ensures fits <==> FramedLength(sources) <= payloadMax
  {
    var payloadSize := 0;
    assert sources[0..] == sources;
    for i := 0 to |sources|
      invariant 0 <= payloadSize <= payloadMax + 1
      invariant if payloadSize <= payloadMax then FramedLength(sources) == payloadSize + FramedLength(sources[i..])
                else FramedLength(sources) > payloadMax
    {
      var size := sources[i].size;
      assert IsAnnounced(sources[i]);
      FromMember(sources, i);
      FramedLengthIsNatural(sources[i + 1..]);
      assert InInt64(payloadMax - 9) && InInt64(payloadMax - 9 - payloadSize);
      if size > payloadMax - 9 - payloadSize {
        assert InInt64(payloadMax + 1);
        payloadSize := payloadMax + 1;
      } else {
        assert InInt64(size + 9) && InInt64(payloadSize + (size + 9));
        payloadSize := payloadSize + (size + 9);
      }
    }
    assert sources[|sources|..] == [];
    return payloadSize <= payloadMax;
  }

  lemma {:induction false} FramedLengthIsNatural(sources: seq<MemberSource>)
    requires forall m :: m in sources ==> IsAnnounced(m)
    ensures FramedLength(sources) >= 0
  {
    if sources != [] {
      assert IsAnnounced(sources[0]);
      FramedLengthIsNatural(sources[1..]);
    }
  }

  // ---- the writers ----

  datatype Status = Good | TooLarge | PayloadLimit | Failed

  /**
   The staging file. Any write may stop short or fail; faulty records that an
   operation on the way to it did, crossed that a write over the ceiling was refused.
   */
  class StageFile {
    var content: seq<byte>
    ghost var peak: nat
    ghost var faulty: bool
    ghost var crossed: bool

    ghost predicate Valid()
      reads this
    {
      |content| <= peak
    }

    constructor ()
      ensures Valid() && content == [] && peak == 0 && !faulty && !crossed
    {
      content, peak, faulty, crossed := [], 0, false, false;
    }

    method Append(b: seq<byte>) returns (n: nat, ok: bool)
      requires Valid()
      modifies this
      ensures Valid() && n <= |b| && content == old(content) + b[..n]
      ensures peak == if |content| > old(peak) then |content| else old(peak)
      ensures faulty == (old(faulty) || !ok || n < |b|) && crossed == old(crossed)
    {
      n :| 0 <= n <= |b|;
      ok := *;
      content := content + b[..n];
      peak := if |content| > peak then |content| else peak;
      faulty := faulty || !ok || n < |b|;
    }

    /** Writing the final header over the placeholder, syncing and closing; it may fail. */
    method Finish() returns (ok: bool)
      requires Valid()
      modifies this`faulty
      ensures faulty == (old(faulty) || !ok)
    {
      ok := *;
      faulty := faulty || !ok;
    }
  }

  /** capWriter: refuses the whole write that would cross the limit. */
  class CapWriter {
    const w: StageFile
    const limit: int
    var n: int
    var hit: bool

    ghost predicate Valid()
      reads this, w
    {
      w.Valid() && 0 <= n <= limit && |w.content| == HEADER_SIZE + n && w.peak <= HEADER_SIZE + limit
      && hit == w.crossed
    }

    constructor (w: StageFile, limit: int)
      requires w.Valid() && limit >= 0 && |w.content| == HEADER_SIZE && w.peak == HEADER_SIZE && !w.crossed
      ensures Valid() && this.w == w && this.limit == limit && !hit
    {
      this.w, this.limit, n, hit := w, limit, 0, false;
    }

    method Write(b: seq<byte>) returns (written: nat, status: Status)
      requires Valid()
      modifies this, w
      ensures Valid() && written <= |b| && n == old(n) + written
      ensures old(hit) ==> hit
      ensures status == TooLarge <==> |b| > limit - old(n)
      ensures status == TooLarge ==> hit && written == 0
      ensures status == Good ==> written == |b|
      ensures status == Failed ==> w.faulty
      ensures status in {Good, TooLarge, Failed}
      ensures old(w.faulty) ==> w.faulty
    {
      if |b| > limit - n {
        hit := true;
        w.crossed := true;
        return 0, TooLarge;
      }
      var ok;
      written, ok := w.Append(b);
      n := n + written;
      return written, if ok && written == |b| then Good else Failed;
    }
  }

  /**
   The compressor, about which nothing is assumed: it emits what it likes and
   reports what it likes. Not taking what it was given is a fault.
   */
  class Compressor {
    const out: CapWriter

    constructor (out: CapWriter)
      ensures this.out == out
    {
      this.out := out;
    }

    method Emit()
      requires out.Valid()
      modifies out, out.w
      ensures out.Valid() && (old(out.hit) ==> out.hit) && (old(out.w.faulty) ==> out.w.faulty)
    {
      var chunks: seq<seq<byte>> := *;
      for i := 0 to |chunks|
        invariant out.Valid() && (old(out.hit) ==> out.hit) && (old(out.w.faulty) ==> out.w.faulty)
      {
        var n, status := out.Write(chunks[i]);
      }
    }

    method Write(b: seq<byte>) returns (n: nat, ok: bool)
      requires out.Valid()
      modifies out, out.w
      ensures out.Valid() && (old(out.hit) ==> out.hit) && (old(out.w.faulty) ==> out.w.faulty) && n <= |b|
      ensures !ok || n < |b| ==> out.w.faulty
    {
      Emit();
      n :| 0 <= n <= |b|;
      ok := *;
      out.w.faulty := out.w.faulty || !ok || n < |b|;
    }

    method Close() returns (ok: bool)
      requires out.Valid()
      modifies out, out.w
      ensures out.Valid() && (old(out.hit) ==> out.hit) && (old(out.w.faulty) ==> out.w.faulty)
      ensures !ok ==> out.w.faulty
    {
      Emit();
      ok := *;
      out.w.faulty := out.w.faulty || !ok;
    }
  }

  /** payloadWriter: hashes and counts what the compressor took; fed stands for the hash state. */
  class PayloadWriter {
    const w: Compressor
    const limit: int
    var fed: seq<byte>
    var n: int

    ghost predicate Valid()
      reads this, w.out, w.out.w
    {
      w.out.Valid() && n == |fed| <= limit
    }

    constructor (w: Compressor, limit: int)
      requires w.out.Valid() && limit >= 0
      ensures Valid() && this.w == w && this.limit == limit && fed == []
    {
      this.w, this.limit, fed, n := w, limit, [], 0;
    }

    method Write(b: seq<byte>) returns (status: Status)
      requires Valid()
      modifies this, w.out, w.out.w
      ensures Valid() && (old(w.out.hit) ==> w.out.hit) && (old(w.out.w.faulty) ==> w.out.w.faulty)
      ensures status == Good ==> fed == old(fed) + b
      ensures status == PayloadLimit <==> |old(fed)| + |b| > limit
      ensures status == Failed ==> w.out.w.faulty
      ensures status in {Good, PayloadLimit, Failed}
    {
      if n + |b| > limit {
        return PayloadLimit;
      }
      var taken, ok := w.Write(b);
      if taken > 0 {
        fed := fed + b[..taken];
        n := n + taken;
      }
      assert b[..|b|] == b;
      return if ok && taken == |b| then Good else Failed;
    }
  }

  // ---- writing the members ----

  /** streamDatabaseMember: in chunks, exactly the announced size. */
  method StreamMember(p: PayloadWriter, m: MemberSource) returns (status: Status)
    requires p.Valid() && m.size >= 0
    modifies p, p.w.out, p.w.out.w
    ensures p.Valid() && (old(p.w.out.hit) ==> p.w.out.hit) && (old(p.w.out.w.faulty) ==> p.w.out.w.faulty)
    ensures status == Good ==> IsSteady(m) && p.fed == old(p.fed) + m.content
    ensures |old(p.fed)| + m.size <= p.limit ==> status != PayloadLimit
    ensures status == Failed ==> p.w.out.w.faulty || !IsSteady(m)
    ensures status in {Good, PayloadLimit, Failed}
  {
    var off := 0;
    while off < m.size
      invariant 0 <= off <= m.size && off <= |m.content|
      invariant p.Valid() && (old(p.w.out.hit) ==> p.w.out.hit) && (old(p.w.out.w.faulty) ==> p.w.out.w.faulty)
      invariant p.fed == old(p.fed) + m.content[..off]
    {
      var n := if m.size - off > CHUNK then CHUNK else m.size - off;
      if off + n > |m.content| {
        return Failed;
      }
      status := p.Write(m.content[off..off + n]);
      if status != Good {
        return;
      }
      assert m.content[..off] + m.content[off..off + n] == m.content[..off + n];
      off := off + n;
    }
    if off < |m.content| {
      return Failed;
    }
    assert m.content[..off] == m.content;
    return Good;
  }

  method WriteMember(p: PayloadWriter, m: MemberSource) returns (status: Status)
    requires p.Valid() && IsAnnounced(m)
    modifies p, p.w.out, p.w.out.w
    ensures p.Valid() && (old(p.w.out.hit) ==> p.w.out.hit) && (old(p.w.out.w.faulty) ==> p.w.out.w.faulty)
    ensures status == Good ==> IsSteady(m) && p.fed == old(p.fed) + Frame(Member(m.kind, m.content))
    ensures |old(p.fed)| + 9 + m.size <= p.limit ==> status != PayloadLimit
    ensures status == Failed ==> p.w.out.w.faulty || !IsSteady(m)
    ensures status in {Good, PayloadLimit, Failed}
  {
    var hdr := [m.kind] + BigEndian(m.size, 8);
    status := p.Write(hdr);
    if status != Good {
      return;
    }
    assert p.fed == old(p.fed) + hdr;
    if m.onDisk {
      status := StreamMember(p, m);
    } else {
      status := p.Write(m.content);
    }
    assert status == Good ==> old(p.fed) + hdr + m.content == old(p.fed) + Frame(Member(m.kind, m.content));
  }

  lemma {:induction false} SeqMove(a: seq<byte>, b: seq<byte>, c: seq<byte>)
    ensures a + (b + c) == a + b + c
  {
  }

  method WriteMembers(p: PayloadWriter, sources: seq<MemberSource>) returns (status: Status)
    requires p.Valid() && p.fed == []
    requires forall m :: m in sources ==> IsAnnounced(m)
    modifies p, p.w.out, p.w.out.w
    ensures p.Valid()
    ensures status == Good ==> Steady(sources) && p.fed == FrameAll(MembersOf(sources))
    ensures FramedLength(sources) <= p.limit ==> status != PayloadLimit
    ensures status == Failed ==> p.w.out.w.faulty || !Steady(sources)
    ensures status in {Good, PayloadLimit, Failed}
  {
    assert sources[0..] == sources;
    assert [] + FrameAll(MembersOf(sources)) == FrameAll(MembersOf(sources));
    for i := 0 to |sources|
      invariant p.Valid()
      invariant Steady(sources[..i])
      invariant p.fed + FrameAll(MembersOf(sources[i..])) == FrameAll(MembersOf(sources))
      invariant |p.fed| + FramedLength(sources[i..]) == FramedLength(sources)
    {
      var m := sources[i];
      assert IsAnnounced(m);
      FromMember(sources, i);
      FramedLengthIsNatural(sources[i + 1..]);
      ghost var before, rest := p.fed, FrameAll(MembersOf(sources[i + 1..]));
      status := WriteMember(p, m);
      if status != Good {
        return;
      }
      SeqMove(before, Frame(Member(m.kind, m.content)), rest);
      assert sources[..i + 1] == sources[..i] + [m];
    }
    assert sources[|sources|..] == [] && sources[..|sources|] == sources;
    assert p.fed + [] == p.fed;
    return Good;
  }

  // ---- the self-check ----

  lemma {:induction false} PartAhead(bytes: seq<byte>, start: nat, content: seq<byte>, off: nat, n: nat)
    requires start <= |bytes| && content <= bytes[start..] && off + n <= |content|
    ensures start + off + n <= |bytes| && bytes[start + off..start + off + n] == content[off..off + n]
  {
    assert bytes[start..][off..off + n] == bytes[start + off..start + off + n];
  }

  /** The body of one member, in chunks against the source's bytes. */
  method CompareBody(r: PayloadReader, m: MemberSource) returns (same: bool)
    requires r.Valid() && IsAnnounced(m)
    modifies r`off
    ensures r.Valid() && r.off >= old(r.off)
    ensures same ==> IsSteady(m) && r.bytes[old(r.off)..r.off] == m.content
    ensures !same ==> !(IsSteady(m) && m.content <= r.bytes[old(r.off)..])
  {
    var off := 0;
    ghost var body := r.off;
    while off < m.size
      invariant 0 <= off <= m.size && off <= |m.content| && r.Valid()
      invariant r.off == body + off && r.bytes[body..r.off] == m.content[..off]
    {
      var n := if m.size - off > CHUNK then CHUNK else m.size - off;
      if off + n > |m.content| {
        return false;
      }
      var decoded := r.ReadFull(n);
      if |decoded| < n || decoded != m.content[off..off + n] {
        if m.content <= r.bytes[body..] {
          PartAhead(r.bytes, body, m.content, off, n);
          assert false;
        }
        return false;
      }
      assert m.content[..off] + m.content[off..off + n] == m.content[..off + n];
      assert r.bytes[body..body + off] + r.bytes[body + off..r.off] == r.bytes[body..r.off];
      off := off + n;
    }
    if off < |m.content| {
      return false;
    }
    assert m.content[..off] == m.content;
    return true;
  }

  lemma {:induction false} HeaderReads(hdr: seq<byte>, kind: byte, size: nat)
    requires |hdr| == 9 && hdr[0] == kind && Number(hdr[1..]) == size
    ensures hdr == [kind] + BigEndian(size, 8)
  {
    BigEndianOfNumber(hdr[1..]);
  }

  lemma {:induction false} FramedAhead(m: Member, ahead: seq<byte>)
    requires |m.body| < TWO_63 && Frame(m) <= ahead
    ensures |ahead| >= 9 && ahead[0] == m.kind && Number(ahead[1..9]) == |m.body| && m.body <= ahead[9..]
  {
    var rest := ahead[|Frame(m)|..];
    assert ahead == Frame(m) + rest;
    FrameReads(m, rest);
    assert ahead[9..][..|m.body|] == ahead[9..9 + |m.body|];
  }

  /** compareMembers for one member: its header, then its bytes. */
  method CompareMember(r: PayloadReader, m: MemberSource) returns (same: bool)
    requires r.Valid() && IsAnnounced(m)
    modifies r`off
    ensures r.Valid() && r.off >= old(r.off)
    ensures same ==> IsSteady(m) && r.bytes[old(r.off)..r.off] == Frame(Member(m.kind, m.content))
    ensures !same ==> !(IsSteady(m) && Frame(Member(m.kind, m.content)) <= r.bytes[old(r.off)..])
  {
    ghost var ahead := r.bytes[r.off..];
    if Frame(Member(m.kind, m.content)) <= ahead && IsSteady(m) {
      FramedAhead(Member(m.kind, m.content), ahead);
    }
    var hdr := r.ReadFull(9);
    assert |hdr| == 9 ==> hdr[0] == ahead[0] && hdr[1..] == ahead[1..9];
    if |hdr| < 9 || hdr[0] != m.kind || Number(hdr[1..]) != m.size {
      return false;
    }
    HeaderReads(hdr, m.kind, m.size);
    ghost var body := r.off;
    same := CompareBody(r, m);
    assert r.bytes[old(r.off)..body] + r.bytes[body..r.off] == r.bytes[old(r.off)..r.off];
  }

  lemma {:induction false} ReadOn(bytes: seq<byte>, start: nat, off: nat, part: seq<byte>, rest: seq<byte>)
    requires start <= off <= |bytes| && bytes[start..off] == part
    ensures bytes[..start] + (part + rest) == bytes[..off] + rest
  {
    assert bytes[..start] + bytes[start..off] == bytes[..off];
  }

  lemma {:induction false} NextAhead(bytes: seq<byte>, start: nat, part: seq<byte>, rest: seq<byte>)
    requires start <= |bytes| && bytes[..start] + (part + rest) <= bytes
    ensures part <= bytes[start..]
  {
    var all := bytes[..start] + (part + rest);
    assert all[start..][..|part|] == part;
    assert bytes[..|all|][start..] == bytes[start..|all|];
    assert bytes[start..][..|part|] == bytes[start..|all|][..|part|];
  }

  /** The sources from i on do not follow in the stream. */
  lemma {:induction false} NotAhead(bytes: seq<byte>, start: nat, sources: seq<MemberSource>, i: nat)
    requires start <= |bytes| && i < |sources|
    requires bytes[..start] + FrameAll(MembersOf(sources[i..])) == FrameAll(MembersOf(sources))
    requires !(IsSteady(sources[i]) && Frame(Member(sources[i].kind, sources[i].content)) <= bytes[start..])
    ensures !(Steady(sources) && FrameAll(MembersOf(sources)) <= bytes)
  {
    if Steady(sources) && FrameAll(MembersOf(sources)) <= bytes {
      assert sources[i] in sources;
      FromMember(sources, i);
      NextAhead(bytes, start, Frame(Member(sources[i].kind, sources[i].content)),
                FrameAll(MembersOf(sources[i + 1..])));
    }
  }

  method CompareMembers(r: PayloadReader, sources: seq<MemberSource>) returns (same: bool)
    requires r.Valid() && r.off == 0
    requires forall m :: m in sources ==> IsAnnounced(m)
    modifies r`off
    ensures r.Valid()
    ensures same ==> Steady(sources) && r.bytes[..r.off] == FrameAll(MembersOf(sources))
    ensures !same ==> !(Steady(sources) && FrameAll(MembersOf(sources)) <= r.bytes)
  {
    assert sources[0..] == sources;
    assert [] + FrameAll(MembersOf(sources)) == FrameAll(MembersOf(sources));
    for i := 0 to |sources|
      invariant r.Valid() && Steady(sources[..i])
      invariant r.bytes[..r.off] + FrameAll(MembersOf(sources[i..])) == FrameAll(MembersOf(sources))
    {
      var m := sources[i];
      assert IsAnnounced(m);
      FromMember(sources, i);
      ghost var start, rest := r.off, FrameAll(MembersOf(sources[i + 1..]));
      var ok := CompareMember(r, m);
      if !ok {
        NotAhead(r.bytes, start, sources, i);
        return false;
      }
      ReadOn(r.bytes, start, r.off, Frame(Member(m.kind, m.content)), rest);
      assert sources[..i + 1] == sources[..i] + [m];
    }
    assert sources[|sources|..] == [] && sources[..|sources|] == sources;
    assert r.bytes[..r.off] + [] == r.bytes[..r.off];
    return true;
  }

  lemma {:induction false} OneIsAdmissible(m: Member, flags: byte, limit: nat)
    requires m.body != [] && |m.body| <= limit
    requires (m.kind == CONFIG && flags == 1 && |m.body| <= CONFIG_MEMBER_MAX) || (m.kind == DATABASE && flags == 2)
    ensures Admissible([m], flags, limit)
  {
    assert [m] == [m] + [];
    ListedCons(m, [], flags, limit, {});
  }

  lemma {:induction false} TwoAreAdmissible(config: seq<byte>, database: seq<byte>, limit: nat)
    requires config != [] && database != [] && |config| <= CONFIG_MEMBER_MAX && |config| <= limit && |database| <= limit
    ensures Admissible([Member(CONFIG, config), Member(DATABASE, database)], 3, limit)
  {
    var c, d := Member(CONFIG, config), Member(DATABASE, database);
    assert [c, d] == [c] + ([d] + []) && [c, d][1..] == [d];
    ListedCons(d, [], 3, limit, {CONFIG});
    ListedCons(c, [d], 3, limit, {});
  }

  lemma {:induction false} LengthsAreBounded(sources: seq<MemberSource>, limit: nat)
    requires Steady(sources) && FramedLength(sources) <= limit
    ensures |sources| == 1 ==>
      MembersOf(sources) == [Member(sources[0].kind, sources[0].content)] && |sources[0].content| <= limit
    ensures |sources| == 2 ==>
              && MembersOf(sources)
                == [Member(sources[0].kind, sources[0].content), Member(sources[1].kind, sources[1].content)]
              && |sources[0].content| <= limit && |sources[1].content| <= limit
  {
    if 1 <= |sources| <= 2 {
      var rest := sources[1..];
      assert IsSteady(sources[0]);
      assert FramedLength(sources) == sources[0].size + 9 + FramedLength(rest);
      assert MembersOf(sources) == [Member(sources[0].kind, sources[0].content)] + MembersOf(rest);
      if |sources| == 2 {
        assert rest[0] == sources[1] && rest[1..] == [] && IsSteady(sources[1]);
        assert FramedLength(rest) == sources[1].size + 9 + FramedLength([]);
        assert MembersOf(rest) == [Member(sources[1].kind, sources[1].content)] + MembersOf([]);
      }
    }
  }

  /** The members that a walk finds are those the flags announce, each of them non-empty when truthful. */
  lemma {:induction false} WalkIsAdmissible(a: Source, view: FileView, limit: nat)
    requires Walk(a, view).Some? && Steady(Walk(a, view).value) && Flags(a) != 0
    requires |a.config| <= CONFIG_MEMBER_MAX && FramedLength(Walk(a, view).value) <= limit
    ensures Admissible(MembersOf(Walk(a, view).value), Flags(a), limit)
  {
    var sources := Walk(a, view).value;
    LengthsAreBounded(sources, limit);
    assert forall m :: m in sources ==> IsSteady(m);
    if |sources| == 2 {
      assert IsSteady(sources[1]);
      TwoAreAdmissible(sources[0].content, sources[1].content, limit);
    } else {
      assert IsSteady(sources[0]);
      OneIsAdmissible(Member(sources[0].kind, sources[0].content), Flags(a), limit);
    }
  }

  /** The payload of the staged file, streamed: the framing of the walk, within the limit, with the right hash. */
  method CompareStream(codec: Codec, s: Stream, sum: seq<byte>, sources: seq<MemberSource>, payloadMax: nat)
    returns (same: bool)
    requires forall m :: m in sources ==> IsAnnounced(m)
    ensures same <==>
              && Steady(sources) && s == Stream(FrameAll(MembersOf(sources)), true)
              && |s.bytes| <= payloadMax && codec.sha(s.bytes) == sum
  {
    var stream := new PayloadReader(Capped(s, payloadMax));
    same := CompareMembers(stream, sources);
    if !same {
      return;
    }
    var extra := stream.Read(1);
    if extra != [] || !stream.ok {
      return false;
    }
    assert stream.bytes[..stream.off] == stream.bytes;
    if stream.off > payloadMax || codec.sha(stream.bytes[..stream.off]) != sum {
      return false;
    }
  }

  /** A staged file that the decoders accept as exactly the source, which is intact and validates. */
  predicate Checks(codec: Codec, file: seq<byte>, a: Source, created: int, view: FileView, payloadMax: int,
                   validates: bool)
  {
    && validates && Intact(a, view)
    && Decode(codec, file, payloadMax) == Some(Decoded(created, Flags(a), SourceMembers(a, view)))
  }

  /** The verdict over a file whose payload is the framing of the source. */
  lemma {:induction false} ChecksIff(codec: Codec, file: seq<byte>, a: Source, created: int, view: FileView,
                                     payloadMax: int, validates: bool)
    requires 0 < payloadMax < TWO_63 - 1 && |a.config| <= CONFIG_MEMBER_MAX
    ensures Checks(codec, file, a, created, view, payloadMax, validates) <==>
              && validates && Intact(a, view) && ParseHeader(file).Some?
              && ParseHeader(file).value == Header(Flags(a), created, codec.sha(FrameAll(SourceMembers(a, view))))
              && codec.inflate(file[HEADER_SIZE..], payloadMax) == Stream(FrameAll(SourceMembers(a, view)), true)
              && |FrameAll(SourceMembers(a, view))| <= payloadMax
  {
    AcceptedIff(codec, file, payloadMax, Decoded(created, Flags(a), SourceMembers(a, view)));
    if Intact(a, view) && ParseHeader(file).Some? && ParseHeader(file).value.flags == Flags(a) {
      WalkIsSource(a, view);
      FramedLengthIsLength(Walk(a, view).value);
      if |FrameAll(SourceMembers(a, view))| <= payloadMax {
        WalkIsAdmissible(a, view, payloadMax);
      }
    }
  }

  /** selfCheckFile: it passes exactly the files that the decoders accept as the source. */
  method SelfCheck(codec: Codec, file: seq<byte>, a: Source, created: int, view: FileView, payloadMax: int,
                   validates: bool)
    returns (ok: bool)
    requires 0 < payloadMax < TWO_63 - 1 && |a.config| <= CONFIG_MEMBER_MAX
    requires |a.database| < TWO_63 && (view.File? ==> view.statSize < TWO_63)
    ensures ok <==> Checks(codec, file, a, created, view, payloadMax, validates)
  {
    WalkIsSource(a, view);
    ChecksIff(codec, file, a, created, view, payloadMax, validates);
    var h := ParseHeader(file);
    if h.None? || h.value.flags != Flags(a) || h.value.created != created {
      return false;
    }
    var s := codec.inflate(file[HEADER_SIZE..], payloadMax);
    var sources := Walk(a, view);
    if sources.None? {
      return false;
    }
    ok := CompareStream(codec, s, h.value.sum, sources.value, payloadMax);
    ok := ok && validates;
  }

  /** Reading back an archive that passes gives the configuration and the database of the source. */
  lemma {:induction false} CheckedArchiveComesBack(codec: Codec, file: seq<byte>, a: Source, created: int,
                                                   view: FileView, payloadMax: int, validates: bool)
    requires Checks(codec, file, a, created, view, payloadMax, validates)
    ensures Decode(codec, file, payloadMax).Some?
    ensures ArchiveOf(ToMemory, Decode(codec, file, payloadMax).value)
            == Archive(created, a.config,
                       if a.database != [] then InMemory(a.database)
                       else if a.path.Some? then InMemory(view.content) else NoDatabase)
  {
    var members := SourceMembers(a, view);
    var database := if a.path.Some? then view.content else a.database;
    if database == [] {
      assert a.config != [] ==> members == [Member(CONFIG, a.config)];
    } else if a.config == [] {
      assert members == [Member(DATABASE, database)] && members[0] in members && members[1..] == [];
      assert BodyOf(members[1..], CONFIG) == [];
    } else {
      assert members == [Member(CONFIG, a.config), Member(DATABASE, database)] && members[1] in members;
      assert members[1..] == [members[1]];
      assert BodyOf(members[1..], DATABASE) == database;
    }
  }

  // ---- the whole encoder ----

  datatype Encoded = Returned(file: seq<byte>) | Error(status: Status)

  /** The length of the framed members as a walk announces them. */
  function AnnouncedLength(a: Source, view: FileView): int {
    (if a.config != [] then 9 + |a.config| else 0)
    + (if a.database != [] then 9 + |a.database| else if a.path.Some? && view.File? then 9 + view.statSize else 0)
  }

  /** What EncodeFile asks of a source before it stages anything. */
  predicate Encodable(a: Source, stageDir: bool, maxArchiveBytes: int, payloadMax: int) {
    && maxArchiveBytes > 0
    && (a.config != [] || a.database != [] || a.path.Some?)
    && !(a.database != [] && a.path.Some?)
    && |a.config| <= CONFIG_MEMBER_MAX
    && (a.database != [] || a.path.Some? ==> stageDir)
    && (a.path.Some? ==> a.path.value.precheck.File? && a.path.value.precheck.statSize > 0)
    && AnnouncedLength(a, PrecheckView(a)) <= payloadMax
  }

  lemma {:induction false} AnnouncedIsFramed(a: Source, view: FileView)
    requires Walk(a, view).Some?
    ensures FramedLength(Walk(a, view).value) == AnnouncedLength(a, view)
  {
    var sources := Walk(a, view).value;
    if |sources| == 2 {
      assert sources[1..][0] == sources[1] && sources[1..][1..] == [];
      assert FramedLength(sources[1..]) == sources[1].size + 9 + FramedLength(sources[1..][1..]);
    } else if |sources| == 1 {
      assert sources[1..] == [];
    }
  }

  /** The archive that EncodeFile assembles: the header over whatever the compressor left in the staging file. */
  ghost function Assembled(codec: Codec, a: Source, created: int, staged: seq<byte>): seq<byte>
    requires forall s :: |codec.sha(s)| == 32
    requires |staged| >= HEADER_SIZE && -TWO_63 <= created < TWO_63
  {
    BuildHeader(Flags(a), created, codec.sha(FrameAll(SourceMembers(a, EncodeView(a))))) + staged[HEADER_SIZE..]
  }

  /**
   EncodeFile. Whatever the compressor did and whenever the database file
   changed: a returned archive decodes to exactly the source as the self-check read
   it, and fits the ceiling. And it fails only for a reason: a source that cannot be
   encoded, a fault on the way to the file, the ceiling or the payload limit, a
   database file that changed, or a file that does not decode to the source.
   */
  method EncodeFile(codec: Codec, a: Source, now: int, stageDir: bool, maxArchiveBytes: int, payloadMax: int,
                    validates: bool)
    returns (r: Encoded, staged: StageFile)
    requires forall s :: |codec.sha(s)| == 32
    requires 0 < payloadMax < TWO_63 - 1
    requires |a.config| < TWO_63 && |a.database| < TWO_63 && (a.path.Some? ==> ViewsInInt64(a.path.value))
    requires var created := Created(a, now); -TWO_63 <= created < TWO_63
    ensures fresh(staged) && staged.Valid()
    ensures r.Returned? ==>
              && |r.file| <= maxArchiveBytes
              && |staged.content| >= HEADER_SIZE && r.file == Assembled(codec, a, Created(a, now), staged.content)
              && Checks(codec, r.file, a, Created(a, now), CheckView(a), payloadMax, validates)
    ensures r == Error(Failed) ==>
              || !Encodable(a, stageDir, maxArchiveBytes, payloadMax)
              || staged.faulty
              || !Intact(a, EncodeView(a))
              || (|staged.content| >= HEADER_SIZE
                  && !Checks(codec, Assembled(codec, a, Created(a, now), staged.content), a, Created(a, now),
                             CheckView(a), payloadMax, validates))
    ensures r == Error(TooLarge) ==> maxArchiveBytes < HEADER_SIZE || staged.crossed
    ensures r == Error(PayloadLimit) ==> AnnouncedLength(a, EncodeView(a)) > payloadMax
    ensures r != Error(Good)
    ensures HEADER_SIZE <= maxArchiveBytes ==> staged.peak <= maxArchiveBytes
    ensures staged.peak > maxArchiveBytes && maxArchiveBytes >= 0 ==> r.Error? && staged.peak <= HEADER_SIZE
    ensures r == Error(TooLarge) && maxArchiveBytes < HEADER_SIZE ==> staged.peak == HEADER_SIZE
    ensures (a.path.Some? ==> a.path.value.precheck == a.path.value.encode) ==> r != Error(PayloadLimit)
  {
    staged := new StageFile();
    var created := Created(a, now);
    if maxArchiveBytes <= 0 || (a.database != [] && a.path.Some?) || |a.config| > CONFIG_MEMBER_MAX || Flags(a) == 0
       || (HasDatabaseSource(a) && !stageDir) {
      return Error(Failed), staged;
    }
    var announced := Walk(a, PrecheckView(a));
    if announced.None? {
      return Error(Failed), staged;
    }
    AnnouncedIsFramed(a, PrecheckView(a));
    var fits := PayloadFits(announced.value, payloadMax);
    if !fits {
      return Error(Failed), staged;
    }
    var n, ok := staged.Append(seq(HEADER_SIZE, _ => 0));
    if !ok || n < HEADER_SIZE {
      return Error(Failed), staged;
    }
    if maxArchiveBytes < HEADER_SIZE {
      return Error(TooLarge), staged;
    }
    var status, fed := WriteStaged(a, staged, maxArchiveBytes, payloadMax);
    if status != Good {
      return Error(status), staged;
    }
    ok := staged.Finish();
    if !ok {
      return Error(Failed), staged;
    }
    var file := BuildHeader(Flags(a), created, codec.sha(fed)) + staged.content[HEADER_SIZE..];
    ok := SelfCheck(codec, file, a, created, CheckView(a), payloadMax, validates);
    if !ok {
      return Error(Failed), staged;
    }
    return Returned(file), staged;
  }

  predicate ViewsInInt64(views: Views) {
    && (views.precheck.File? ==> views.precheck.statSize < TWO_63)
    && (views.encode.File? ==> views.encode.statSize < TWO_63)
    && (views.check.File? ==> views.check.statSize < TWO_63)
  }

  function Created(a: Source, now: int): int {
    if a.created.Some? then a.created.value else now
  }

  function PrecheckView(a: Source): FileView {
    if a.path.Some? then a.path.value.precheck else Missing
  }

  function EncodeView(a: Source): FileView {
    if a.path.Some? then a.path.value.encode else Missing
  }

  function CheckView(a: Source): FileView {
    if a.path.Some? then a.path.value.check else Missing
  }

  /** The compressed body: through the payload writer, the compressor and the capped writer into the file. */
  method WriteStaged(a: Source, staged: StageFile, maxArchiveBytes: int, payloadMax: int)
    returns (status: Status, fed: seq<byte>)
    requires staged.Valid() && |staged.content| == staged.peak == HEADER_SIZE <= maxArchiveBytes && !staged.crossed
    requires 0 < payloadMax < TWO_63 - 1 && |a.config| < TWO_63 && |a.database| < TWO_63
    requires EncodeView(a).File? ==> EncodeView(a).statSize < TWO_63
    modifies staged
    ensures staged.Valid() && HEADER_SIZE <= |staged.content| && staged.peak <= maxArchiveBytes
    ensures status == Good ==> fed == FrameAll(SourceMembers(a, EncodeView(a)))
    ensures status == Failed ==> staged.faulty || !Intact(a, EncodeView(a))
    ensures status == TooLarge ==> staged.crossed
    ensures status == PayloadLimit ==> AnnouncedLength(a, EncodeView(a)) > payloadMax
  {
    var capped := new CapWriter(staged, maxArchiveBytes - HEADER_SIZE);
    var compressor := new Compressor(capped);
    var payload := new PayloadWriter(compressor, payloadMax);
    fed := [];
    var sources := Walk(a, EncodeView(a));
    WalkIsSource(a, EncodeView(a));
    if sources.None? {
      return Failed, fed;
    }
    AnnouncedIsFramed(a, EncodeView(a));
    status := WriteMembers(payload, sources.value);
    fed := payload.fed;
    var closed := compressor.Close();
    if status != Good || !closed || capped.hit {
      return if capped.hit then TooLarge else if status != Good then status else Failed, fed;
    }
  }
}
