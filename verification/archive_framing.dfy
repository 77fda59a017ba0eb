/**
 The member framing of the backup archive (internal/backup/archive.go): a payload
 is a concatenation of members, each a kind, a 64-bit length and a body.
 */
module ArchiveFraming {
  import opened Wrappers
  import opened Bytes

  const CONFIG: byte := 1
  const DATABASE: byte := 2

  /** The bound of a configuration document, 16 MiB. */
  const CONFIG_MEMBER_MAX: nat := 0x100_0000

  datatype Member = Member(kind: byte, body: seq<byte>)

  predicate HasConfig(flags: byte) {
    flags % 2 == 1
  }

  predicate HasDatabase(flags: byte) {
    flags / 2 % 2 == 1
  }

  /** A member of this kind and size may appear under these flags. */
  predicate Allowed(kind: byte, size: nat, flags: byte) {
    || (kind == CONFIG && HasConfig(flags) && size <= CONFIG_MEMBER_MAX)
    || (kind == DATABASE && HasDatabase(flags))
  }

  function Frame(m: Member): (s: seq<byte>)
    ensures |s| == 9 + |m.body|
  {
    [m.kind] + BigEndian(|m.body|, 8) + m.body
  }

  function FrameAll(members: seq<Member>): seq<byte> {
    if members == [] then [] else Frame(members[0]) + FrameAll(members[1..])
  }

  /** The loop of decodeMembers over the payload from one member on. */
  function Parse(s: seq<byte>, flags: byte, limit: nat, seen: set<byte>): Option<seq<Member>>
    decreases |s|
  {
    if s == [] then Some([])
    else if |s| < 9 then None
    else
      var kind, size := s[0], Number(s[1..9]);
      if size > limit || kind in seen || !Allowed(kind, size, flags) || |s| < 9 + size then None
      else
        var rest := Parse(s[9 + size..], flags, limit, seen + {kind});
        if rest.None? then None else Some([Member(kind, s[9..9 + size])] + rest.value)
  }

  /** The body of the member of a kind; empty when there is none. */
  function BodyOf(members: seq<Member>, kind: byte): seq<byte> {
    if members == [] then [] else if members[0].kind == kind then members[0].body else BodyOf(members[1..], kind)
  }

  /** Every flagged member is there and is not empty. */
  predicate Complete(members: seq<Member>, flags: byte) {
    && (HasConfig(flags) ==> BodyOf(members, CONFIG) != [])
    && (HasDatabase(flags) ==> BodyOf(members, DATABASE) != [])
  }

  /** decodeMembers */
  function DecodeMembers(payload: seq<byte>, flags: byte, limit: nat): Option<seq<Member>> {
    var members := Parse(payload, flags, limit, {});
    if members.None? || !Complete(members.value, flags) then None else members
  }

  // ---- exactly the well-framed payloads ----

  ghost predicate Listed(members: seq<Member>, flags: byte, limit: nat, seen: set<byte>) {
    && (forall m :: m in members ==> m.kind !in seen && Allowed(m.kind, |m.body|, flags) && |m.body| <= limit)
    && forall i, j :: 0 <= i < j < |members| ==> members[i].kind != members[j].kind
  }

  /** Distinct, known, flagged members within their bounds, with every flagged one non-empty. */
  ghost predicate Admissible(members: seq<Member>, flags: byte, limit: nat) {
    Listed(members, flags, limit, {}) && Complete(members, flags)
  }

  /** One non-empty member of this kind within the limit; a configuration (kind 1) within 16 MiB. */
  predicate Fits(m: Member, kind: int, limit: nat) {
    m.kind == kind && 0 < |m.body| <= limit && (kind == 1 ==> |m.body| <= 16 * 1024 * 1024)
  }

  /** The lists of members that the flags of a header admit: bit 0 asks for a configuration, bit 1 for a database. */
  lemma {:induction false} AdmissibleIff(members: seq<Member>, flags: byte, limit: nat)
    requires flags <= 3
    ensures Admissible(members, flags, limit) <==>
              || (flags == 0 && members == [])
              || (flags == 1 && |members| == 1 && Fits(members[0], 1, limit))
              || (flags == 2 && |members| == 1 && Fits(members[0], 2, limit))
              || (flags == 3 && |members| == 2 && Fits(members[0], 1, limit) && Fits(members[1], 2, limit))
              || (flags == 3 && |members| == 2 && Fits(members[0], 2, limit) && Fits(members[1], 1, limit))
  {
    if |members| > 2 {
      assert members[0] in members && members[1] in members && members[2] in members;
    } else if |members| == 2 {
      assert members == [members[0], members[1]];
      PairIsAdmissible(members[0], members[1], flags, limit);
    } else if |members| == 1 {
      assert members == [members[0]];
      SingleIsAdmissible(members[0], flags, limit);
    }
  }

  lemma {:induction false} SingleIsAdmissible(m: Member, flags: byte, limit: nat)
    requires flags <= 3
    ensures Admissible([m], flags, limit) <==> (flags == 1 && Fits(m, 1, limit)) || (flags == 2 && Fits(m, 2, limit))
  {
    assert m in [m] && [m][1..] == [];
    assert BodyOf([m], CONFIG) == if m.kind == CONFIG then m.body else [];
    assert BodyOf([m], DATABASE) == if m.kind == DATABASE then m.body else [];
  }

  lemma {:induction false} PairIsAdmissible(m: Member, n: Member, flags: byte, limit: nat)
    requires flags <= 3
    ensures Admissible([m, n], flags, limit) <==>
              && flags == 3
              && ((Fits(m, 1, limit) && Fits(n, 2, limit)) || (Fits(m, 2, limit) && Fits(n, 1, limit)))
  {
    var members := [m, n];
    assert members[0] == m && members[1] == n && members[1..] == [n];
    assert m in members && n in members && forall x :: x in members ==> x == m || x == n;
    forall kind: byte
      ensures BodyOf(members, kind) == if m.kind == kind then m.body else if n.kind == kind then n.body else []
    {
      assert BodyOf([n], kind) == if n.kind == kind then n.body else BodyOf([n][1..], kind);
    }
  }

  lemma {:induction false} FrameReads(m: Member, rest: seq<byte>)
    requires |m.body| < TWO_64
    ensures var s := Frame(m) + rest;
            && s[0] == m.kind && Number(s[1..9]) == |m.body|
            && s[9..9 + |m.body|] == m.body && s[9 + |m.body|..] == rest
  {
    var s := Frame(m) + rest;
    assert s[1..9] == BigEndian(|m.body|, 8);
    EightBytes();
    NumberOfBigEndian(|m.body|, 8);
  }

  lemma {:induction false} ReadsFrame(s: seq<byte>, size: nat)
    requires |s| >= 9 + size && Number(s[1..9]) == size
    ensures Frame(Member(s[0], s[9..9 + size])) + s[9 + size..] == s
  {
    BigEndianOfNumber(s[1..9]);
    assert BigEndian(size, 8) == s[1..9];
  }

  lemma {:induction false} ListedCons(m: Member, rest: seq<Member>, flags: byte, limit: nat, seen: set<byte>)
    ensures Listed([m] + rest, flags, limit, seen) <==>
              && m.kind !in seen && Allowed(m.kind, |m.body|, flags) && |m.body| <= limit
              && Listed(rest, flags, limit, seen + {m.kind})
  {
    var all := [m] + rest;
    assert forall x :: x in all <==> x == m || x in rest;
    if Listed(all, flags, limit, seen) {
      forall x | x in rest
        ensures x.kind != m.kind
      {
        var i :| 0 <= i < |rest| && rest[i] == x;
        assert all[i + 1] == x && all[0] == m;
      }
      assert forall i :: 0 <= i < |rest| ==> all[i + 1] == rest[i];
    }
    if Listed(rest, flags, limit, seen + {m.kind}) {
      forall i, j | 0 <= i < j < |all|
        ensures all[i].kind != all[j].kind
      {
        assert all[j] == rest[j - 1] && rest[j - 1] in rest;
      }
    }
  }

  /** Parsing accepts a payload as these members exactly when it is their framing and they may be listed. */
  lemma {:induction false} ParseIff(s: seq<byte>, flags: byte, limit: nat, seen: set<byte>, members: seq<Member>)
    requires limit < TWO_63
    ensures Parse(s, flags, limit, seen) == Some(members) <==>
              s == FrameAll(members) && Listed(members, flags, limit, seen)
    decreases |s|, |members|
  {
    if Parse(s, flags, limit, seen) == Some(members) {
      ParsedIsFramed(s, flags, limit, seen);
    }
    if s == FrameAll(members) && Listed(members, flags, limit, seen) {
      FramedParses(members, flags, limit, seen);
    }
  }

  lemma {:induction false} ParsedIsFramed(s: seq<byte>, flags: byte, limit: nat, seen: set<byte>)
    requires Parse(s, flags, limit, seen).Some?
    ensures var members := Parse(s, flags, limit, seen).value;
            s == FrameAll(members) && Listed(members, flags, limit, seen)
    decreases |s|
  {
    if s != [] {
      var kind, size := s[0], Number(s[1..9]);
      var rest := Parse(s[9 + size..], flags, limit, seen + {kind}).value;
      ParsedIsFramed(s[9 + size..], flags, limit, seen + {kind});
      ReadsFrame(s, size);
      ListedCons(Member(kind, s[9..9 + size]), rest, flags, limit, seen);
      assert ([Member(kind, s[9..9 + size])] + rest)[1..] == rest;
    }
  }

  lemma {:induction false} FramedParses(members: seq<Member>, flags: byte, limit: nat, seen: set<byte>)
    requires limit < TWO_63 && Listed(members, flags, limit, seen)
    ensures Parse(FrameAll(members), flags, limit, seen) == Some(members)
    decreases members
  {
    if members != [] {
      var m, rest := members[0], members[1..];
      assert members == [m] + rest;
      ListedCons(m, rest, flags, limit, seen);
      FramedParses(rest, flags, limit, seen + {m.kind});
      FrameReads(m, FrameAll(rest));
    }
  }

  /** decodeMembers accepts exactly the framings of admissible members, and gives those members back. */
  lemma {:induction false} DecodeMembersIff(payload: seq<byte>, flags: byte, limit: nat, members: seq<Member>)
    requires limit < TWO_63
    ensures DecodeMembers(payload, flags, limit) == Some(members) <==>
              payload == FrameAll(members) && Admissible(members, flags, limit)
  {
    ParseIff(payload, flags, limit, {}, members);
  }
}
