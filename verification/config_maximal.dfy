/**
 Which skipped keys are skipped for good, under the rules of Validate
 (internal/config/config_validate.go). Its rules across keys are nine ordered
 pairs, three lists that may not share a spelling, and the length of the whole
 rendered document. The first two never drop a key that the result would take;
 the third can, and only it.
 */
module ConfigMaximal {
  import opened Wrappers
  import opened ConfigSalvage
  import Decimal

  /** A value as the cross-key rules see it: numbers, durations and sizes are numbers. */
  datatype Value = Number(n: int) | Spellings(list: seq<string>) | Text(text: string)

  /** The first key's value may not exceed the second's. */
  const ORDERED := {
    ("translated_response_max_bytes", "max_inflight_response_bytes"),
    ("max_idle_conns_per_host", "max_conns_per_host"),
    ("storage_batch_cap", "storage_write_chan_cap"),
    ("storm_initial_backoff", "storm_max_backoff"),
    ("request_body_idle_timeout", "request_body_read_timeout"),
    ("sse_write_progress_timeout", "response_write_timeout"),
    ("whole_document_read_timeout", "whole_document_read_max"),
    ("models_discovery_timeout", "whole_document_read_max"),
    ("base_backoff", "max_backoff")
  }

  /** Upper keys whose zero means no limit. */
  const UNLIMITED := {"max_inflight_response_bytes", "max_conns_per_host"}

  const CLASS_LISTS := {"retryable_error_classes", "rate_limit_error_classes", "quota_error_classes"}

  const CONFIG_DOCUMENT_MAX_BYTES: nat := 16 * 1024 * 1024

  predicate Below(low: string, a: Value, high: string, b: Value) {
    (low, high) in ORDERED && a.Number? && b.Number? ==> (high in UNLIMITED && b.n == 0) || a.n <= b.n
  }

  /**
   What the loader starts from and is given. The checks of one key alone, case
   folding, and the length of the lines a key is rendered to are functions; frame
   is the length of the rest of the rendered document, order its keys.
   */
  datatype Settings = Settings(base: map<string, Value>, document: map<string, Value>, alone: (string, Value) -> bool,
                               fold: string -> string, width: (string, Value) -> nat, frame: nat, order: seq<string>)
  {
    predicate Apart(x: string, a: Value, y: string, b: Value) {
      x in CLASS_LISTS && y in CLASS_LISTS && x != y && a.Spellings? && b.Spellings? ==>
        forall i, j :: 0 <= i < |a.list| && 0 <= j < |b.list| ==> fold(a.list[i]) != fold(b.list[j])
    }

    predicate Agree(x: string, a: Value, y: string, b: Value) {
      Below(x, a, y, b) && Below(y, b, x, a) && Apart(x, a, y, b)
    }

    /** Validate, but for the length. */
    predicate Rules(cfg: map<string, Value>) {
      && (forall x :: x in cfg ==> alone(x, cfg[x]))
      && (forall x, y :: x in cfg && y in cfg ==> Agree(x, cfg[x], y, cfg[y]))
    }

    function Lines(cfg: map<string, Value>, keys: seq<string>): nat {
      if keys == [] then 0
      else (if keys[0] in cfg then width(keys[0], cfg[keys[0]]) else 0) + Lines(cfg, keys[1..])
    }

    function Length(cfg: map<string, Value>): nat {
      frame + Lines(cfg, order)
    }

    predicate Valid(cfg: map<string, Value>) {
      Rules(cfg) && Length(cfg) <= CONFIG_DOCUMENT_MAX_BYTES
    }

    function Rulebook(): Schema<map<string, Value>> {
      Schema(base, key => key in base, (cfg, key) => Overlay(cfg, key), cfg => Valid(cfg), key => false)
    }

    function Overlay(cfg: map<string, Value>, key: string): Option<map<string, Value>> {
      if key in base && key in document then Some(cfg[key := document[key]]) else None
    }

    predicate Known(keys: seq<string>) {
      forall key :: key in keys ==> key in base && key in document
    }

    /** The defaults with the document's values for these keys. */
    function With(keys: seq<string>): map<string, Value>
      requires Known(keys)
    {
      map x | x in base :: if x in keys then document[x] else base[x]
    }

    /** The defaults validate, and no error class is extended. */
    ghost predicate Defaults() {
      && Valid(base)
      && forall x :: x in base && x in CLASS_LISTS ==> base[x] == Spellings([])
    }
  }

  // ---- merging under these rules ----

  lemma {:induction false} OverlaidIs(s: Settings, keys: seq<string>)
    requires s.Known(keys)
    ensures Overlaid(s.Rulebook(), keys) == Some(s.With(keys))
  {
    if keys == [] {
      assert s.With(keys) == s.base;
    } else {
      var shorter, last := keys[..|keys| - 1], keys[|keys| - 1];
      assert keys == shorter + [last];
      OverlaidIs(s, shorter);
      assert s.With(shorter)[last := s.document[last]] == s.With(keys);
      assert s.Rulebook().overlay(s.With(shorter), last) == s.Overlay(s.With(shorter), last);
    }
  }

  lemma {:induction false} MergedIff(s: Settings, keys: seq<string>)
    requires s.Known(keys)
    ensures Merged(s.Rulebook(), keys).Some? <==> s.Valid(s.With(keys))
  {
    OverlaidIs(s, keys);
    assert s.Rulebook().valid(s.With(keys)) == s.Valid(s.With(keys));
  }

  // ---- the rules but for the length ----

  /** No key is the lower one of one pair and the upper one of another. */
  lemma {:induction false} LowersAreNotUppers(x: string, low: string, high: string)
    requires (low, x) in ORDERED
    ensures (x, high) !in ORDERED
  {
    assert "storage_batch_cap"[4] != "storm_max_backoff"[4];
    assert "request_body_idle_timeout"[13] != "request_body_read_timeout"[13];
    assert "whole_document_read_timeout"[0] != "max_inflight_response_bytes"[0];
    assert "max_idle_conns_per_host"[0] != "whole_document_read_max"[0];
  }

  /**
   If x's value clashes with the default of y, and y's value with the default of
   some z, then the values of x and y clash: both wanted y to move, but in
   opposite directions.
   */
  lemma {:induction false} ClashesMeet(s: Settings, x: string, a: Value, y: string, b: Value, z: string)
    requires s.Defaults() && y in s.base && z in s.base
    requires !s.Agree(x, a, y, s.base[y]) && !s.Agree(y, b, z, s.base[z])
    ensures !s.Agree(x, a, y, b)
  {
    assert s.Agree(y, s.base[y], z, s.base[z]);
    if !Below(x, a, y, s.base[y]) {
      LowersAreNotUppers(y, x, z);
    } else {
      if (z, y) in ORDERED {
        LowersAreNotUppers(y, z, x);
      }
    }
  }

  lemma {:induction false} AgreeBothWays(s: Settings, x: string, a: Value, y: string, b: Value)
    ensures s.Agree(x, a, y, b) == s.Agree(y, b, x, a)
  {
    if s.Apart(x, a, y, b) {
      assert s.Apart(y, b, x, a);
    }
    if s.Apart(y, b, x, a) {
      assert s.Apart(x, a, y, b);
    }
  }

  /** The values of a configuration, with and without a further key. */
  lemma {:induction false} WithOneMore(s: Settings, keys: seq<string>, key: string, x: string)
    requires s.Known(keys) && s.Known(keys + [key]) && x in s.base
    ensures x in s.With(keys) && x in s.With(keys + [key])
    ensures s.With(keys)[x] == if x in keys then s.document[x] else s.base[x]
    ensures s.With(keys + [key])[x] == if x == key then s.document[x] else s.With(keys)[x]
  {
    assert x in keys + [key] <==> x in keys || x == key;
  }

  /** A clash of a trial that is gone when more keys are in force is one of the new key with a default. */
  lemma {:induction false} ClashedPair(s: Settings, early: seq<string>, late: seq<string>, key: string, x: string,
                                       y: string)
    requires s.Defaults() && s.Known(late) && s.Known(late + [key]) && s.Known(early) && s.Known(early + [key])
    requires forall x :: x in early ==> x in late
    requires s.Rules(s.With(early)) && s.Rules(s.With(late + [key]))
    requires x in s.base && y in s.base && !s.Agree(x, s.With(early + [key])[x], y, s.With(early + [key])[y])
    requires x == key || y != key
    ensures x == key && y != key && y in late && y !in early
    ensures !s.Agree(key, s.document[key], y, s.base[y]) && s.Agree(key, s.document[key], y, s.document[y])
  {
    WithOneMore(s, early, key, x);
    WithOneMore(s, early, key, y);
    WithOneMore(s, late, key, x);
    WithOneMore(s, late, key, y);
    assert s.Agree(x, s.With(early)[x], y, s.With(early)[y]);
    assert s.Agree(x, s.With(late + [key])[x], y, s.With(late + [key])[y]);
    assert s.Agree(x, s.base[x], y, s.base[y]);
  }

  lemma {:induction false} TrialsAreSound(s: Settings, early: seq<string>, late: seq<string>, key: string)
    requires s.Known(late) && s.Known(late + [key]) && s.Known(early) && s.Known(early + [key])
    requires s.Rules(s.With(early)) && s.Rules(s.With(late + [key]))
    ensures var trial := s.With(early + [key]); forall x :: x in trial ==> s.alone(x, trial[x])
  {
    var trial := s.With(early + [key]);
    forall x | x in trial
      ensures s.alone(x, trial[x])
    {
      WithOneMore(s, early, key, x);
      WithOneMore(s, late, key, x);
      assert s.alone(x, s.With(early)[x]) && s.alone(x, s.With(late + [key])[x]);
    }
  }

  lemma {:induction false} BrokenPair(s: Settings, cfg: map<string, Value>, key: string) returns (x: string, y: string)
    requires !s.Rules(cfg) && forall x :: x in cfg ==> s.alone(x, cfg[x])
    ensures x in cfg && y in cfg && !s.Agree(x, cfg[x], y, cfg[y]) && (x == key || y != key)
  {
    x, y :| x in cfg && y in cfg && !s.Agree(x, cfg[x], y, cfg[y]);
    if x != key && y == key {
      AgreeBothWays(s, x, cfg[x], y, cfg[y]);
      x, y := y, x;
    }
  }

  /** A key whose trial broke a rule that it keeps later clashed with the default of a key kept in between. */
  lemma {:induction false} ClashedWithDefault(s: Settings, early: seq<string>, late: seq<string>, key: string)
    returns (other: string)
    requires s.Defaults() && s.Known(late) && s.Known(late + [key]) && s.Known(early) && s.Known(early + [key])
    requires forall x :: x in early ==> x in late
    requires s.Rules(s.With(early)) && s.Rules(s.With(late + [key])) && !s.Rules(s.With(early + [key]))
    ensures other in late && other !in early && other != key && other in s.base
    ensures !s.Agree(key, s.document[key], other, s.base[other])
    ensures s.Agree(key, s.document[key], other, s.document[other])
  {
    var trial := s.With(early + [key]);
    TrialsAreSound(s, early, late, key);
    var x, y := BrokenPair(s, trial, key);
    ClashedPair(s, early, late, key, x, y);
    other := y;
  }

  // ---- which keys come back ----

  /** Putting more keys in force brings a configuration that broke no other rule back under the length limit. */
  ghost predicate Shortens(s: Settings, few: seq<string>, more: seq<string>) {
    && s.Known(few) && s.Known(more)
    && (forall key :: key in few ==> key in more)
    && s.Rules(s.With(few))
    && s.Length(s.With(few)) > CONFIG_DOCUMENT_MAX_BYTES >= s.Length(s.With(more))
  }

  /** A refused trial whose key fits later: for its length, or for a key that was kept in between. */
  lemma {:induction false} RefusedThenFits(s: Settings, early: seq<string>, late: seq<string>, key: string)
    returns (other: string)
    requires s.Defaults() && s.Known(late) && s.Known(late + [key]) && s.Known(early) && s.Known(early + [key])
    requires forall x :: x in early ==> x in late
    requires s.Valid(s.With(early)) && s.Valid(s.With(late + [key])) && !s.Valid(s.With(early + [key]))
    ensures Shortens(s, early + [key], late + [key]) ||
            (other in late && other !in early && other != key && other in s.base
             && !s.Agree(key, s.document[key], other, s.base[other])
             && s.Agree(key, s.document[key], other, s.document[other]))
  {
    if s.Rules(s.With(early + [key])) {
      other := key;
      assert Shortens(s, early + [key], late + [key]);
    } else {
      other := ClashedWithDefault(s, early, late, key);
    }
  }

  /** The trial of a key beside the first n kept ones. */
  ghost predicate Refused(s: Settings, kept: seq<string>, n: nat, key: string)
    requires s.Known(kept) && s.Known([key]) && n <= |kept|
  {
    !s.Valid(s.With(kept[..n] + [key]))
  }

  ghost predicate Standing(s: Settings, kept: seq<string>, n: nat)
    requires s.Known(kept) && n <= |kept|
  {
    s.Valid(s.With(kept[..n]))
  }

  ghost predicate RefusedBefore(s: Settings, kept: seq<string>, n: nat, key: string)
    requires s.Known(kept) && s.Known([key]) && n <= |kept|
  {
    exists n0 :: 0 <= n0 <= n && Refused(s, kept, n0, key)
  }

  /** A kept key that made room for another one had been refused for the length alone. */
  lemma {:induction false} OtherWasTooLong(s: Settings, first: seq<string>, late: seq<string>, other: string,
                                           key: string)
    requires s.Defaults() && s.Known(first) && s.Known(late) && s.Known([key]) && s.Known([other])
    requires forall x :: x in first ==> x in late
    requires s.Known(first + [other]) && !s.Valid(s.With(first + [other])) && s.Valid(s.With(first))
    requires s.Known(late + [other]) && s.Valid(s.With(late + [other]))
    requires !s.Agree(key, s.document[key], other, s.base[other])
      && s.Agree(key, s.document[key], other, s.document[other])
    ensures Shortens(s, first + [other], late + [other])
  {
    var third := RefusedThenFits(s, first, late, other);
    if !Shortens(s, first + [other], late + [other]) {
      ClashesMeet(s, key, s.document[key], other, s.document[other], third);
      assert false;
    }
  }

  lemma {:induction false} PrefixIn<T>(list: seq<T>, i: nat, j: nat)
    requires i <= j <= |list|
    ensures forall x :: x in list[..i] ==> x in list[..j]
  {
    assert list[..j][..i] == list[..i];
  }

  lemma {:induction false} OneLonger<T>(list: seq<T>, i: nat)
    requires i < |list|
    ensures list[..i + 1] == list[..i] + [list[i]]
  {
  }

  lemma {:induction false} PrefixOfLonger<T>(list: seq<T>, i: nat, x: T)
    requires i <= |list|
    ensures list[..i] <= list + [x]
  {
    assert (list + [x])[..i] == list[..i];
  }

  lemma {:induction false} KnownParts(s: Settings, kept: seq<string>, n: nat, key: string)
    requires s.Known(kept) && s.Known([key]) && n <= |kept|
    ensures s.Known(kept[..n]) && s.Known(kept[..n] + [key])
  {
    assert key in [key];
  }

  lemma {:induction false} IndexFrom<T>(list: seq<T>, n: nat, x: T) returns (m: nat)
    requires n <= |list| && x in list && x !in list[..n]
    ensures n <= m < |list| && list[m] == x
  {
    assert list == list[..n] + list[n..];
    var i :| 0 <= i < |list[n..]| && list[n..][i] == x;
    m := n + i;
  }

  lemma {:induction false} LengthMadeRoom(s: Settings, kept: seq<string>, n: nat, m: nat, key: string)
    returns (few: seq<string>, more: seq<string>)
    requires s.Defaults() && s.Known(kept) && s.Known([key]) && n <= m < |kept| && s.Known([kept[m]])
    requires forall i :: 0 <= i <= |kept| ==> Standing(s, kept, i)
    requires RefusedBefore(s, kept, n, kept[m])
    requires !s.Agree(key, s.document[key], kept[m], s.base[kept[m]])
    requires s.Agree(key, s.document[key], kept[m], s.document[kept[m]])
    ensures Shortens(s, few, more) && more == kept[..m + 1]
  {
    var n0 :| 0 <= n0 <= n && Refused(s, kept, n0, kept[m]);
    few, more := kept[..n0] + [kept[m]], kept[..m] + [kept[m]];
    assert Standing(s, kept, n0) && Standing(s, kept, m + 1);
    OneLonger(kept, m);
    PrefixIn(kept, n0, m);
    KnownParts(s, kept, n0, kept[m]);
    KnownParts(s, kept, m, kept[m]);
    OtherWasTooLong(s, kept[..n0], kept[..m], kept[m], key);
  }

  lemma {:induction false} RefusedAt(s: Settings, kept: seq<string>, n: nat, key: string) returns (other: string)
    requires s.Defaults() && s.Known(kept) && s.Known([key]) && n <= |kept|
    requires Standing(s, kept, n) && Refused(s, kept, n, key) && s.Known(kept + [key]) && s.Valid(s.With(kept + [key]))
    ensures Shortens(s, kept[..n] + [key], kept + [key]) ||
            (other in kept && other !in kept[..n] && other in s.base
             && !s.Agree(key, s.document[key], other, s.base[other])
             && s.Agree(key, s.document[key], other, s.document[other]))
  {
    KnownParts(s, kept, n, key);
    PrefixIn(kept, n, |kept|);
    assert kept[..|kept|] == kept;
    other := RefusedThenFits(s, kept[..n], kept, key);
  }

  /**
   The argument on the list of kept keys: key was refused at n, and each key kept
   from there on at some point before.
   */
  lemma {:induction false} LengthBroughtBack(s: Settings, kept: seq<string>, n: nat, key: string)
    returns (few: seq<string>, more: seq<string>)
    requires s.Defaults() && s.Known(kept) && s.Known([key]) && n <= |kept|
    requires forall i :: 0 <= i <= |kept| ==> Standing(s, kept, i)
    requires forall m :: n <= m < |kept| ==> s.Known([kept[m]]) && RefusedBefore(s, kept, n, kept[m])
    requires Refused(s, kept, n, key) && s.Known(kept + [key]) && s.Valid(s.With(kept + [key]))
    ensures Shortens(s, few, more) && more <= kept + [key]
  {
    assert Standing(s, kept, n);
    var other := RefusedAt(s, kept, n, key);
    if Shortens(s, kept[..n] + [key], kept + [key]) {
      return kept[..n] + [key], kept + [key];
    }
    var m := IndexFrom(kept, n, other);
    few, more := LengthMadeRoom(s, kept, n, m, key);
    PrefixOfLonger(kept, m + 1, key);
  }

  /** A key that a pass kept beside those it started with is one of its own. */
  lemma {:induction false} KeptAreOffered<C>(schema: Schema<C>, kept: seq<string>, keys: seq<string>, m: nat)
    requires |kept| <= m < |Kept(schema, kept, keys)|
    ensures Kept(schema, kept, keys)[m] in keys
    decreases keys
  {
    if keys != [] {
      var kept' := if Merged(schema, kept + [keys[0]]).Some? then kept + [keys[0]] else kept;
      if m < |kept'| {
        PassGrows(schema, kept', keys[1..]);
        assert Kept(schema, kept, keys)[m] == kept'[m];
      } else {
        KeptAreOffered(schema, kept', keys[1..], m);
      }
    }
  }

  /** A key the second pass kept was refused by the first. */
  lemma {:induction false} KeptLateWasRefused<C>(schema: Schema<C>, accepted: seq<string>, m: nat) returns (n: nat)
    requires Merged(schema, accepted).None?
    requires |Kept(schema, [], accepted)| <= m < |SalvageKept(schema, accepted)|
    ensures n <= |Kept(schema, [], accepted)| <= m
    ensures Merged(schema, SalvageKept(schema, accepted)[..n] + [SalvageKept(schema, accepted)[m]]).None?
  {
    var once, deferred := Kept(schema, [], accepted), Deferred(schema, [], accepted);
    KeptAreOffered(schema, once, deferred, m);
    var key := SalvageKept(schema, accepted)[m];
    DeferredFailed(schema, [], accepted, key);
    n :| 0 <= n <= |once| && Merged(schema, once[..n] + [key]).None?;
    PassGrows(schema, once, deferred);
    assert SalvageKept(schema, accepted)[..n] == once[..n];
  }

  lemma {:induction false} KeptAreKnown(s: Settings, accepted: seq<string>)
    requires s.Known(accepted)
    ensures s.Known(SalvageKept(s.Rulebook(), accepted))
  {
    var kept := SalvageKept(s.Rulebook(), accepted);
    SalvagePartitions(s.Rulebook(), accepted);
    forall key | key in kept
      ensures key in s.base && key in s.document
    {
      assert key in multiset(kept);
      assert key in multiset(accepted);
    }
  }

  /** What was kept up to some key validates. */
  lemma {:induction false} PrefixesAreValid(s: Settings, accepted: seq<string>)
    requires s.Defaults() && s.Known(accepted) && Merged(s.Rulebook(), accepted).None?
    ensures var kept := SalvageKept(s.Rulebook(), accepted);
            s.Known(kept) && forall n :: 0 <= n <= |kept| ==> Standing(s, kept, n)
  {
    var schema := s.Rulebook();
    var kept := SalvageKept(schema, accepted);
    assert schema.valid(schema.base) == s.Valid(s.base);
    SalvageIsValid(schema, accepted);
    KeptAreKnown(s, accepted);
    forall n | 0 <= n <= |kept|
      ensures Standing(s, kept, n)
    {
      if n == 0 {
        assert s.With(kept[..0]) == s.base;
      } else {
        MergedIff(s, kept[..n]);
      }
    }
  }

  /**
   A key that was skipped would fit what was finally kept only where keys kept
   later shortened the document back under its limit: every other rule that once
   refused a key in the second pass still does.
   */
  lemma {:induction false} OnlyLengthBringsBack(s: Settings, accepted: seq<string>, key: string)
    returns (few: seq<string>, more: seq<string>)
    requires s.Defaults() && s.Known(accepted)
    requires key in SalvageSkipped(s.Rulebook(), accepted)
    requires Merged(s.Rulebook(), SalvageKept(s.Rulebook(), accepted) + [key]).Some?
    ensures Shortens(s, few, more) && more <= SalvageKept(s.Rulebook(), accepted) + [key]
  {
    var schema := s.Rulebook();
    var kept := SalvageKept(schema, accepted);
    PrefixesAreValid(s, accepted);
    SkippedWasAccepted(schema, accepted, key);
    MergedIff(s, kept + [key]);
    var n := SkippedAt(s, accepted, key);
    forall m | n <= m < |kept|
      ensures s.Known([kept[m]]) && RefusedBefore(s, kept, n, kept[m])
    {
      var n0 := KeptLateWasRefused(schema, accepted, m);
      MergedIff(s, kept[..n0] + [kept[m]]);
      assert Refused(s, kept, n0, kept[m]);
    }
    few, more := LengthBroughtBack(s, kept, n, key);
  }

  lemma {:induction false} SkippedWasAccepted<C>(schema: Schema<C>, accepted: seq<string>, key: string)
    requires key in SalvageSkipped(schema, accepted)
    ensures key in accepted && Merged(schema, accepted).None?
  {
    SalvagePartitions(schema, accepted);
    assert key in multiset(SalvageSkipped(schema, accepted));
    assert key in multiset(accepted);
  }

  /** The turn of a skipped key in the second pass. */
  lemma {:induction false} SkippedAt(s: Settings, accepted: seq<string>, key: string) returns (n: nat)
    requires s.Known(accepted) && s.Known(SalvageKept(s.Rulebook(), accepted)) && s.Known([key])
    requires key in SalvageSkipped(s.Rulebook(), accepted)
    ensures |Kept(s.Rulebook(), [], accepted)| <= n <= |SalvageKept(s.Rulebook(), accepted)|
    ensures Refused(s, SalvageKept(s.Rulebook(), accepted), n, key)
  {
    var schema := s.Rulebook();
    SkippedWasAccepted(schema, accepted, key);
    var once, deferred := Kept(schema, [], accepted), Deferred(schema, [], accepted);
    DeferredFailed(schema, once, deferred, key);
    var kept := SalvageKept(schema, accepted);
    n :| |once| <= n <= |kept| && Merged(schema, kept[..n] + [key]).None?;
    MergedIff(s, kept[..n] + [key]);
  }

  // ---- when nothing shortens the document ----

  function Wider(a: nat, b: nat): nat {
    if a < b then b else a
  }

  /** The lines of the document were every key rendered to the longer of its two values. */
  function Widest(s: Settings, keys: seq<string>): nat {
    if keys == [] then 0
    else (if keys[0] !in s.base then 0
          else if keys[0] !in s.document then s.width(keys[0], s.base[keys[0]])
          else Wider(s.width(keys[0], s.base[keys[0]]), s.width(keys[0], s.document[keys[0]]))) + Widest(s, keys[1..])
  }

  lemma {:induction false} LinesAtMostWidest(s: Settings, keys: seq<string>, order: seq<string>)
    requires s.Known(keys)
    ensures s.Lines(s.With(keys), order) <= Widest(s, order)
  {
    if order != [] {
      LinesAtMostWidest(s, keys, order[1..]);
    }
  }

  /** No value of the document is rendered shorter than the default it replaces. */
  ghost predicate NothingShrinks(s: Settings) {
    forall x :: x in s.base && x in s.document ==> s.width(x, s.base[x]) <= s.width(x, s.document[x])
  }

  lemma {:induction false} MoreKeysAreLonger(s: Settings, few: seq<string>, more: seq<string>, order: seq<string>)
    requires NothingShrinks(s) && s.Known(few) && s.Known(more) && forall x :: x in few ==> x in more
    ensures s.Lines(s.With(few), order) <= s.Lines(s.With(more), order)
  {
    if order != [] {
      MoreKeysAreLonger(s, few, more, order[1..]);
    }
  }

  /** No skipped key would merge with what was kept. */
  ghost predicate Maximal<C>(schema: Schema<C>, accepted: seq<string>) {
    forall key :: key in SalvageSkipped(schema, accepted) ==>
      Merged(schema, SalvageKept(schema, accepted) + [key]).None?
  }

  /**
   The salvage is maximal when the document fits even at its widest, or when none
   of its values is shorter than the default.
   */
  lemma {:induction false} SalvageIsMaximal(s: Settings, accepted: seq<string>)
    requires s.Defaults() && s.Known(accepted)
    requires s.frame + Widest(s, s.order) <= CONFIG_DOCUMENT_MAX_BYTES || NothingShrinks(s)
    ensures Maximal(s.Rulebook(), accepted)
  {
    forall key | key in SalvageSkipped(s.Rulebook(), accepted)
      ensures Merged(s.Rulebook(), SalvageKept(s.Rulebook(), accepted) + [key]).None?
    {
      SkippedForGood(s, accepted, key);
    }
  }

  lemma {:induction false} SkippedForGood(s: Settings, accepted: seq<string>, key: string)
    requires s.Defaults() && s.Known(accepted) && key in SalvageSkipped(s.Rulebook(), accepted)
    requires s.frame + Widest(s, s.order) <= CONFIG_DOCUMENT_MAX_BYTES || NothingShrinks(s)
    ensures Merged(s.Rulebook(), SalvageKept(s.Rulebook(), accepted) + [key]).None?
  {
    if Merged(s.Rulebook(), SalvageKept(s.Rulebook(), accepted) + [key]).Some? {
      var few, more := OnlyLengthBringsBack(s, accepted, key);
      LinesAtMostWidest(s, few, s.order);
      if NothingShrinks(s) {
        MoreKeysAreLonger(s, few, more, s.order);
      }
      assert false;
    }
  }

  // ---- and when something does ----

  /** As many characters, for a path. */
  function Path(n: nat): string {
    seq(n, i => 'a')
  }

  predicate InRange(key: string, v: Value) {
    v.Number? ==> v.n >= if key == "max_idle_conns_per_host" then 1 else 0
  }

  function Numeral(n: int): string {
    if n < 0 then "-" + Decimal.Print(-n) else Decimal.Print(n)
  }

  /**
   The line of a number or of a text without characters to escape, with the colon,
   the blank, the end and the quotes.
   */
  function LineWidth(key: string, v: Value): nat {
    match v
    case Number(n) => |key| + 3 + |Numeral(n)|
    case Text(text) => |key| + 5 + |text|
    case Spellings(list) => |key| + 6
  }

  const FOUR := ["db_path", "max_conns_per_host", "max_idle_conns_per_host", "max_retries"]

  /**
   A document of four keys: a long path, two connection limits that have to change
   together and are shorter than their defaults, and a number out of range. The
   other keys are as by default and part of the frame.
   */
  function FourKeys(frame: nat, n: nat): Settings {
    Settings(map["db_path" := Text("proxy.db"), "max_conns_per_host" := Number(512),
                 "max_idle_conns_per_host" := Number(512), "max_retries" := Number(5)],
             map["db_path" := Text(Path(n)), "max_conns_per_host" := Number(9),
                 "max_idle_conns_per_host" := Number(8), "max_retries" := Number(-1)],
             (key, v) => InRange(key, v), text => text, (key, v) => LineWidth(key, v), frame,
             FOUR)
  }

  lemma {:induction false} FourLengths(frame: nat, n: nat, keys: seq<string>)
    requires FourKeys(frame, n).Known(keys)
    ensures FourKeys(frame, n).Length(FourKeys(frame, n).With(keys))
            == frame + 73 + (if "db_path" in keys then n else 8)
               + (if "max_conns_per_host" in keys then 1 else 3) + (if "max_idle_conns_per_host" in keys then 1 else 3)
               + (if "max_retries" in keys then 2 else 1)
  {
    var s := FourKeys(frame, n);
    var cfg := s.With(keys);
    NumeralLengths();
    var order := FOUR;
    assert order[1..] == ["max_conns_per_host", "max_idle_conns_per_host", "max_retries"];
    assert order[1..][1..] == ["max_idle_conns_per_host", "max_retries"];
    assert order[1..][1..][1..] == ["max_retries"];
    assert order[1..][1..][1..][1..] == [];
    assert s.Lines(cfg, order[1..][1..][1..]) == LineWidth("max_retries", cfg["max_retries"]);
    assert s.Lines(cfg, order[1..][1..])
        == LineWidth("max_idle_conns_per_host", cfg["max_idle_conns_per_host"]) + s.Lines(cfg, order[1..][1..][1..]);
    assert s.Lines(cfg, order[1..])
        == LineWidth("max_conns_per_host", cfg["max_conns_per_host"]) + s.Lines(cfg, order[1..][1..]);
    assert s.Lines(cfg, order) == LineWidth("db_path", cfg["db_path"]) + s.Lines(cfg, order[1..]);
  }

  lemma {:induction false} NumeralLengths()
    ensures |Numeral(512)| == 3 && |Numeral(9)| == |Numeral(8)| == |Numeral(5)| == 1 && |Numeral(-1)| == 2
  {
    assert |Decimal.Print(5)| == 1;
    assert |Decimal.Print(51)| == 2;
    assert |Decimal.Print(512)| == 3;
  }

  predicate IsOfFour(key: string) {
    key in FOUR
  }

  lemma {:induction false} OnePairOfFour(x: string, y: string)
    requires IsOfFour(x) && IsOfFour(y)
    ensures (x, y) in ORDERED <==> x == "max_idle_conns_per_host" && y == "max_conns_per_host"
  {
    assert |x| == 7 || |x| == 18 || |x| == 23 || |x| == 11;
  }

  lemma {:induction false} FourRules(frame: nat, n: nat, keys: seq<string>)
    requires FourKeys(frame, n).Known(keys)
    ensures FourKeys(frame, n).Rules(FourKeys(frame, n).With(keys))
            <==> "max_retries" !in keys && ("max_conns_per_host" in keys ==> "max_idle_conns_per_host" in keys)
  {
    var s := FourKeys(frame, n);
    var cfg := s.With(keys);
    assert "max_retries" in cfg && "max_conns_per_host" in cfg && "max_idle_conns_per_host" in cfg;
    assert s.alone("max_retries", cfg["max_retries"]) == InRange("max_retries", cfg["max_retries"]);
    OnePairOfFour("max_idle_conns_per_host", "max_conns_per_host");
    if "max_retries" !in keys && ("max_conns_per_host" in keys ==> "max_idle_conns_per_host" in keys) {
      forall x | x in cfg
        ensures s.alone(x, cfg[x])
      {
        assert s.alone(x, cfg[x]) == InRange(x, cfg[x]);
      }
      forall x, y | x in cfg && y in cfg
        ensures s.Agree(x, cfg[x], y, cfg[y])
      {
        OnePairOfFour(x, y);
        OnePairOfFour(y, x);
      }
    } else if "max_retries" !in keys {
      assert !s.Agree("max_idle_conns_per_host", cfg["max_idle_conns_per_host"],
                      "max_conns_per_host", cfg["max_conns_per_host"]);
    }
  }

  /** When some of the four keys merge, by which of them are there. */
  predicate Fits(frame: nat, n: nat, path: bool, conns: bool, idle: bool, retries: bool) {
    && !retries
    && (conns ==> idle)
    && frame + 74 + (if path then n else 8) + (if conns then 1 else 3) + (if idle then 1 else 3)
       <= CONFIG_DOCUMENT_MAX_BYTES
  }

  lemma {:induction false} Trial(frame: nat, n: nat, keys: seq<string>)
    requires forall x :: x in keys ==> IsOfFour(x)
    ensures Merged(FourKeys(frame, n).Rulebook(), keys).Some?
            <==> Fits(frame, n, "db_path" in keys, "max_conns_per_host" in keys, "max_idle_conns_per_host" in keys,
                      "max_retries" in keys)
  {
    var s := FourKeys(frame, n);
    assert s.Known(keys);
    MergedIff(s, keys);
    FourRules(frame, n, keys);
    FourLengths(frame, n, keys);
  }

  /** The first pass over four keys of which only the third is kept. */
  lemma {:induction false} FirstPassOverFour<C>(b: Schema<C>, p: string, c: string, i: string, r: string)
    requires Merged(b, [p]).None? && Merged(b, [c]).None? && Merged(b, [i]).Some? && Merged(b, [i, r]).None?
    ensures Kept(b, [], [p, c, i, r]) == [i] && Deferred(b, [], [p, c, i, r]) == [p, c, r]
  {
    var none: seq<string> := [];
    assert none + [p] == [p] && none + [c] == [c] && none + [i] == [i] && [r] + none == [r] && [i] + [r] == [i, r];
    assert [p, c, i, r][1..] == [c, i, r] && [c, i, r][1..] == [i, r] && [i, r][1..] == [r] && [r][1..] == none;
    assert Kept(b, [], [p, c, i, r]) == Kept(b, [], [c, i, r]) == Kept(b, [], [i, r]) == Kept(b, [i], [r]) == [i];
    assert Deferred(b, [], [i, r]) == Deferred(b, [i], [r]) == [r];
    assert Deferred(b, [], [c, i, r]) == [c] + [r] == [c, r];
    assert Deferred(b, [], [p, c, i, r]) == [p] + [c, r] == [p, c, r];
  }

  /** Both passes, when the second can keep only the second key. */
  lemma {:induction false} PassesOverFour<C>(b: Schema<C>, p: string, c: string, i: string, r: string)
    requires Merged(b, [p, c, i, r]).None?
    requires Merged(b, [p]).None? && Merged(b, [c]).None? && Merged(b, [i]).Some? && Merged(b, [i, r]).None?
    requires Merged(b, [i, p]).None? && Merged(b, [i, c]).Some? && Merged(b, [i, c, r]).None?
    ensures SalvageKept(b, [p, c, i, r]) == [i, c] && SalvageSkipped(b, [p, c, i, r]) == [p, r]
  {
    FirstPassOverFour(b, p, c, i, r);
    var none: seq<string> := [];
    assert [i] + [p] == [i, p] && [i] + [c] == [i, c] && [i, c] + [r] == [i, c, r] && [r] + none == [r];
    assert [p, c, r][1..] == [c, r] && [c, r][1..] == [r] && [r][1..] == none;
    assert Kept(b, [i], [p, c, r]) == Kept(b, [i], [c, r]) == Kept(b, [i, c], [r]) == [i, c];
    assert Deferred(b, [i], [c, r]) == Deferred(b, [i, c], [r]) == [r];
    assert Deferred(b, [i], [p, c, r]) == [p] + [r] == [p, r];
  }

  /** What the defaults with the long path alone are over the limit by. */
  function Excess(frame: nat, n: nat): int {
    frame + 80 + n - CONFIG_DOCUMENT_MAX_BYTES
  }

  /** The trials of the two passes. */
  lemma {:induction false} TrialsOfFour(frame: nat, n: nat)
    requires frame + 88 <= CONFIG_DOCUMENT_MAX_BYTES && Excess(frame, n) > 2
    ensures var b := FourKeys(frame, n).Rulebook();
            && Merged(b, ["db_path"]).None? && Merged(b, ["max_conns_per_host"]).None?
            && Merged(b, ["max_idle_conns_per_host"]).Some?
            && Merged(b, ["max_idle_conns_per_host", "max_retries"]).None?
            && Merged(b, ["max_idle_conns_per_host", "db_path"]).None?
            && Merged(b, ["max_idle_conns_per_host", "max_conns_per_host"]).Some?
  {
    Trial(frame, n, ["db_path"]);
    Trial(frame, n, ["max_conns_per_host"]);
    Trial(frame, n, ["max_idle_conns_per_host"]);
    Trial(frame, n, ["max_idle_conns_per_host", "max_retries"]);
    Trial(frame, n, ["max_idle_conns_per_host", "db_path"]);
    Trial(frame, n, ["max_idle_conns_per_host", "max_conns_per_host"]);
  }

  lemma {:induction false} PassesOfExample(frame: nat, n: nat)
    requires frame + 88 <= CONFIG_DOCUMENT_MAX_BYTES && Excess(frame, n) > 2
    ensures var b := FourKeys(frame, n).Rulebook();
            && SalvageKept(b, FOUR) == ["max_idle_conns_per_host", "max_conns_per_host"]
            && SalvageSkipped(b, FOUR) == ["db_path", "max_retries"]
  {
    TrialsOfFour(frame, n);
    Trial(frame, n, FOUR);
    Trial(frame, n, ["max_idle_conns_per_host", "max_conns_per_host", "max_retries"]);
    PassesOverFour(FourKeys(frame, n).Rulebook(), "db_path", "max_conns_per_host", "max_idle_conns_per_host",
                   "max_retries");
  }

  /** The first pass when the path fits at once. */
  lemma {:induction false} FirstPassKeepsPath<C>(b: Schema<C>, p: string, c: string, i: string, r: string)
    requires Merged(b, [p]).Some? && Merged(b, [p, c]).None? && Merged(b, [p, i]).Some? && Merged(b, [p, i, r]).None?
    ensures Kept(b, [], [p, c, i, r]) == [p, i] && Deferred(b, [], [p, c, i, r]) == [c, r]
  {
    var none: seq<string> := [];
    assert none + [p] == [p] && [p] + [c] == [p, c] && [p] + [i] == [p, i] && [p, i] + [r] == [p, i, r];
    assert [p, c, i, r][1..] == [c, i, r] && [c, i, r][1..] == [i, r] && [i, r][1..] == [r] && [r][1..] == none;
    assert Kept(b, [], [p, c, i, r]) == Kept(b, [p], [c, i, r]) == Kept(b, [p], [i, r]);
    assert Kept(b, [p], [i, r]) == Kept(b, [p, i], [r]) == [p, i];
    assert Deferred(b, [p], [i, r]) == Deferred(b, [p, i], [r]) == [r] + none == [r];
    assert Deferred(b, [], [p, c, i, r]) == Deferred(b, [p], [c, i, r]) == [c] + [r] == [c, r];
  }

  /** Keeping one key and then refusing the last. */
  lemma {:induction false} KeepsThenRefuses<C>(b: Schema<C>, kept: seq<string>, x: string, r: string)
    requires Merged(b, kept + [x]).Some? && Merged(b, kept + [x] + [r]).None?
    ensures Kept(b, kept, [x, r]) == kept + [x] && Deferred(b, kept, [x, r]) == [r]
  {
    var none: seq<string> := [];
    assert [x, r][1..] == [r] && [r][1..] == none && [r] + none == [r];
    assert Kept(b, kept, [x, r]) == Kept(b, kept + [x], [r]) == kept + [x];
    assert Deferred(b, kept, [x, r]) == Deferred(b, kept + [x], [r]) == [r];
  }

  lemma {:induction false} PassesAre<C>(b: Schema<C>, accepted: seq<string>, once: seq<string>, deferred: seq<string>)
    requires Merged(b, accepted).None?
    requires Kept(b, [], accepted) == once && Deferred(b, [], accepted) == deferred
    ensures SalvageSkipped(b, accepted) == Deferred(b, once, deferred)
  {
  }

  lemma {:induction false} PathFitsAtOnce<C>(b: Schema<C>, p: string, c: string, i: string, r: string)
    requires Merged(b, [p, c, i, r]).None?
    requires Merged(b, [p]).Some? && Merged(b, [p, c]).None? && Merged(b, [p, i]).Some? && Merged(b, [p, i, r]).None?
    requires Merged(b, [p, i, c]).Some? && Merged(b, [p, i, c, r]).None?
    ensures SalvageSkipped(b, [p, c, i, r]) == [r]
  {
    FirstPassKeepsPath(b, p, c, i, r);
    PassesAre(b, [p, c, i, r], [p, i], [c, r]);
    assert [p, i] + [c] == [p, i, c] && [p, i] + [c] + [r] == [p, i, c, r];
    KeepsThenRefuses(b, [p, i], c, r);
  }

  lemma {:induction false} PathFitsLater<C>(b: Schema<C>, p: string, c: string, i: string, r: string)
    requires Merged(b, [p, c, i, r]).None?
    requires Merged(b, [p]).None? && Merged(b, [c]).None? && Merged(b, [i]).Some? && Merged(b, [i, r]).None?
    requires Merged(b, [i, p]).Some? && Merged(b, [i, p, c]).Some? && Merged(b, [i, p, c, r]).None?
    ensures SalvageSkipped(b, [p, c, i, r]) == [r]
  {
    FirstPassOverFour(b, p, c, i, r);
    PassesAre(b, [p, c, i, r], [i], [p, c, r]);
    assert [i] + [p] == [i, p] && [i, p] + [c] == [i, p, c] && [i, p, c] + [r] == [i, p, c, r];
    assert [p, c, r][1..] == [c, r];
    assert Deferred(b, [i], [p, c, r]) == Deferred(b, [i, p], [c, r]);
    KeepsThenRefuses(b, [i, p], c, r);
  }

  lemma {:induction false} ShortPathIsKept(frame: nat, n: nat)
    requires frame + 88 <= CONFIG_DOCUMENT_MAX_BYTES && Excess(frame, n) <= 0
    ensures SalvageSkipped(FourKeys(frame, n).Rulebook(), FOUR) == ["max_retries"]
  {
    Trial(frame, n, FOUR);
    Trial(frame, n, ["db_path"]);
    Trial(frame, n, ["db_path", "max_conns_per_host"]);
    Trial(frame, n, ["db_path", "max_idle_conns_per_host"]);
    Trial(frame, n, ["db_path", "max_idle_conns_per_host", "max_retries"]);
    Trial(frame, n, ["db_path", "max_idle_conns_per_host", "max_conns_per_host"]);
    Trial(frame, n, ["db_path", "max_idle_conns_per_host", "max_conns_per_host", "max_retries"]);
    PathFitsAtOnce(FourKeys(frame, n).Rulebook(), "db_path", "max_conns_per_host", "max_idle_conns_per_host",
                   "max_retries");
  }

  lemma {:induction false} LongerPathIsKept(frame: nat, n: nat)
    requires frame + 88 <= CONFIG_DOCUMENT_MAX_BYTES && 0 < Excess(frame, n) <= 2
    ensures SalvageSkipped(FourKeys(frame, n).Rulebook(), FOUR) == ["max_retries"]
  {
    Trial(frame, n, FOUR);
    Trial(frame, n, ["db_path"]);
    Trial(frame, n, ["max_conns_per_host"]);
    Trial(frame, n, ["max_idle_conns_per_host"]);
    Trial(frame, n, ["max_idle_conns_per_host", "max_retries"]);
    Trial(frame, n, ["max_idle_conns_per_host", "db_path"]);
    Trial(frame, n, ["max_idle_conns_per_host", "db_path", "max_conns_per_host"]);
    Trial(frame, n, ["max_idle_conns_per_host", "db_path", "max_conns_per_host", "max_retries"]);
    PathFitsLater(FourKeys(frame, n).Rulebook(), "db_path", "max_conns_per_host", "max_idle_conns_per_host",
                  "max_retries");
  }

  lemma {:induction false} PathIsSkipped(frame: nat, n: nat)
    requires frame + 88 <= CONFIG_DOCUMENT_MAX_BYTES && Excess(frame, n) > 2
    ensures var b := FourKeys(frame, n).Rulebook();
            && SalvageKept(b, FOUR) == ["max_idle_conns_per_host", "max_conns_per_host"]
            && SalvageSkipped(b, FOUR) == ["db_path", "max_retries"]
            && (Merged(b, SalvageKept(b, FOUR) + ["db_path"]).Some? <==> Excess(frame, n) <= 4)
  {
    PassesOfExample(frame, n);
    Trial(frame, n, ["max_idle_conns_per_host", "max_conns_per_host", "db_path"]);
    assert ["max_idle_conns_per_host", "max_conns_per_host"] + ["db_path"]
        == ["max_idle_conns_per_host", "max_conns_per_host", "db_path"];
  }

  /** A number out of range stays out. */
  lemma {:induction false} RetriesNeverMerge(frame: nat, n: nat, kept: seq<string>)
    requires forall x :: x in kept ==> IsOfFour(x)
    ensures Merged(FourKeys(frame, n).Rulebook(), kept + ["max_retries"]).None?
  {
    Trial(frame, n, kept + ["max_retries"]);
  }

  lemma {:induction false} KeptOfFour(frame: nat, n: nat)
    ensures forall x :: x in SalvageKept(FourKeys(frame, n).Rulebook(), FOUR) ==> IsOfFour(x)
  {
    KeptAreKnown(FourKeys(frame, n), FOUR);
  }

  /**
   The length can drop a key that the result would take. The long path is tried
   before both connection limits have changed. Whatever its length, the salvage is
   maximal except where the path is over the limit by more than the first change
   saves, and by no more than both do.
   */
  lemma {:induction false} LengthDropsAKeyThatFits(frame: nat, n: nat)
    requires frame + 88 <= CONFIG_DOCUMENT_MAX_BYTES
    ensures Maximal(FourKeys(frame, n).Rulebook(), FOUR) <==> !(2 < Excess(frame, n) <= 4)
  {
    var b := FourKeys(frame, n).Rulebook();
    KeptOfFour(frame, n);
    RetriesNeverMerge(frame, n, SalvageKept(b, FOUR));
    if Excess(frame, n) <= 0 {
      ShortPathIsKept(frame, n);
    } else if Excess(frame, n) <= 2 {
      LongerPathIsKept(frame, n);
    } else {
      PathIsSkipped(frame, n);
      assert "db_path" in SalvageSkipped(b, FOUR);
    }
  }
}
