/**
 Loading a configuration document key by key (internal/config/config_load.go):
 the merge of the accepted keys, the greedy salvage when they do not validate
 together, and the fail-closed loader. Overlaying one key and validating a whole
 configuration are given as functions.
 */
module ConfigSalvage {
  import opened Wrappers

  /** What the loader asks of the schema. Overlaying fails on a value of the wrong type. */
  datatype Schema<!C> = Schema(base: C, known: string -> bool, overlay: (C, string) -> Option<C>, valid: C -> bool,
                               loose: string -> bool)

  const FAIL_CLOSED := {"allowed_base_urls", "listen"}

  // ---- merging ----

  function Overlaid<C>(schema: Schema<C>, keys: seq<string>): Option<C> {
    if keys == [] then Some(schema.base)
    else
      var before := Overlaid(schema, keys[..|keys| - 1]);
      if before.None? then None else schema.overlay(before.value, keys[|keys| - 1])
  }

  function Merged<C>(schema: Schema<C>, keys: seq<string>): Option<C> {
    var cfg := Overlaid(schema, keys);
    if cfg.Some? && schema.valid(cfg.value) then cfg else None
  }

  /** mergeYAMLKeys */
  method MergeKeys<C>(schema: Schema<C>, keys: seq<string>) returns (merged: Option<C>)
    ensures merged == Merged(schema, keys)
  {
    var cfg := schema.base;
    for i := 0 to |keys|
      invariant Overlaid(schema, keys[..i]) == Some(cfg)
    {
      var next := schema.overlay(cfg, keys[i]);
      assert keys[..i + 1][..i] == keys[..i];
      if next.None? {
        OverlayStops(schema, keys, i + 1);
        return None;
      }
      cfg := next.value;
    }
    assert keys[..|keys|] == keys;
    return if schema.valid(cfg) then Some(cfg) else None;
  }

  lemma {:induction false} OverlayStops<C>(schema: Schema<C>, keys: seq<string>, i: nat)
    requires i <= |keys| && Overlaid(schema, keys[..i]).None?
    ensures Overlaid(schema, keys).None?
    decreases |keys|
  {
    if i < |keys| {
      var shorter := keys[..|keys| - 1];
      assert shorter[..i] == keys[..i];
      OverlayStops(schema, shorter, i);
    } else {
      assert keys[..i] == keys;
    }
  }

  /** The configurations that overlaying the keys goes through, from the defaults on. */
  ghost predicate Stages<C>(schema: Schema<C>, keys: seq<string>, stages: seq<C>) {
    && |stages| == |keys| + 1 && stages[0] == schema.base
    && forall i :: 0 <= i < |keys| ==> schema.overlay(stages[i], keys[i]) == Some(stages[i + 1])
  }

  lemma {:induction false} OverlaidStages<C>(schema: Schema<C>, keys: seq<string>) returns (stages: seq<C>)
    requires Overlaid(schema, keys).Some?
    ensures Stages(schema, keys, stages) && stages[|keys|] == Overlaid(schema, keys).value
  {
    if keys == [] {
      stages := [schema.base];
    } else {
      var front := OverlaidStages(schema, keys[..|keys| - 1]);
      stages := front + [Overlaid(schema, keys).value];
    }
  }

  lemma {:induction false} StagesOverlay<C>(schema: Schema<C>, keys: seq<string>, stages: seq<C>)
    requires Stages(schema, keys, stages)
    ensures Overlaid(schema, keys) == Some(stages[|keys|])
  {
    if keys != [] {
      StagesOverlay(schema, keys[..|keys| - 1], stages[..|keys|]);
    }
  }

  /** Merging overlays every key on the defaults, in order, and validates what comes of it. */
  lemma {:induction false} MergedIff<C>(schema: Schema<C>, keys: seq<string>, cfg: C)
    ensures Merged(schema, keys) == Some(cfg) <==>
            schema.valid(cfg) && exists stages :: Stages(schema, keys, stages) && stages[|keys|] == cfg
  {
    if Merged(schema, keys) == Some(cfg) {
      var stages := OverlaidStages(schema, keys);
    }
    if schema.valid(cfg) && exists stages :: Stages(schema, keys, stages) && stages[|keys|] == cfg {
      var stages :| Stages(schema, keys, stages) && stages[|keys|] == cfg;
      StagesOverlay(schema, keys, stages);
    }
  }

  // ---- one greedy pass ----

  function Kept<C>(schema: Schema<C>, kept: seq<string>, keys: seq<string>): seq<string>
    decreases keys
  {
    if keys == [] then kept
    else Kept(schema, if Merged(schema, kept + [keys[0]]).Some? then kept + [keys[0]] else kept, keys[1..])
  }

  function Deferred<C>(schema: Schema<C>, kept: seq<string>, keys: seq<string>): seq<string>
    decreases keys
  {
    if keys == [] then []
    else if Merged(schema, kept + [keys[0]]).Some? then Deferred(schema, kept + [keys[0]], keys[1..])
    else [keys[0]] + Deferred(schema, kept, keys[1..])
  }

  datatype Loaded<C> = Loaded(config: C, skipped: seq<string>) | FailedClosed(key: string)

  function FirstFailClosed(skipped: seq<string>): Option<string> {
    if skipped == [] then None
    else if skipped[0] in FAIL_CLOSED then Some(skipped[0])
    else FirstFailClosed(skipped[1..])
  }

  lemma {:induction false} FirstFailClosedFinds(skipped: seq<string>)
    ensures FirstFailClosed(skipped).None? <==> forall k :: k in skipped ==> k !in FAIL_CLOSED
    ensures var first := FirstFailClosed(skipped); first.Some? ==> first.value in skipped && first.value in FAIL_CLOSED
  {
    if skipped != [] {
      FirstFailClosedFinds(skipped[1..]);
    }
  }

  /** The closure of the salvage: keep the key if the kept ones still merge with it. */
  method TryKey<C>(schema: Schema<C>, kept: seq<string>, cfg: C, key: string)
    returns (ok: bool, kept': seq<string>, cfg': C)
    ensures ok <==> Merged(schema, kept + [key]).Some?
    ensures kept' == if ok then kept + [key] else kept
    ensures if ok then Merged(schema, kept') == Some(cfg') else cfg' == cfg
  {
    var merged := MergeKeys(schema, kept + [key]);
    if merged.None? {
      return false, kept, cfg;
    }
    return true, kept + [key], merged.value;
  }

  ghost predicate ConfigOf<C>(schema: Schema<C>, kept: seq<string>, cfg: C) {
    if kept == [] then cfg == schema.base else Merged(schema, kept) == Some(cfg)
  }

  /** One key of a pass. */
  lemma {:induction false} PassStep<C>(schema: Schema<C>, kept: seq<string>, keys: seq<string>, i: nat,
                                       failed: seq<string>)
    requires i < |keys|
    ensures var ok := Merged(schema, kept + [keys[i]]).Some?;
            var kept' := if ok then kept + [keys[i]] else kept;
            && Kept(schema, kept, keys[i..]) == Kept(schema, kept', keys[i + 1..])
            && failed + Deferred(schema, kept, keys[i..])
               == (if ok then failed else failed + [keys[i]]) + Deferred(schema, kept', keys[i + 1..])
  {
    assert keys[i..][0] == keys[i] && keys[i..][1..] == keys[i + 1..];
  }

  /** One of the two retry loops. */
  method GreedyPass<C>(schema: Schema<C>, start: seq<string>, cfg0: C, keys: seq<string>)
    returns (kept: seq<string>, cfg: C, failed: seq<string>)
    requires ConfigOf(schema, start, cfg0)
    ensures kept == Kept(schema, start, keys) && failed == Deferred(schema, start, keys)
    ensures ConfigOf(schema, kept, cfg)
  {
    kept, cfg, failed := start, cfg0, [];
    for i := 0 to |keys|
      invariant ConfigOf(schema, kept, cfg)
      invariant Kept(schema, start, keys) == Kept(schema, kept, keys[i..])
      invariant Deferred(schema, start, keys) == failed + Deferred(schema, kept, keys[i..])
    {
      PassStep(schema, kept, keys, i, failed);
      var ok;
      ok, kept, cfg := TryKey(schema, kept, cfg, keys[i]);
      if !ok {
        failed := failed + [keys[i]];
      }
    }
    assert keys[|keys|..] == [];
  }

  /** The keys the salvage keeps, in the order it kept them, and those it drops. */
  function SalvageKept<C>(schema: Schema<C>, accepted: seq<string>): seq<string> {
    if Merged(schema, accepted).Some? then accepted
    else Kept(schema, Kept(schema, [], accepted), Deferred(schema, [], accepted))
  }

  function SalvageSkipped<C>(schema: Schema<C>, accepted: seq<string>): seq<string> {
    if Merged(schema, accepted).Some? then []
    else Deferred(schema, Kept(schema, [], accepted), Deferred(schema, [], accepted))
  }

  /** keepYAMLKeys */
  method KeepKeys<C>(schema: Schema<C>, accepted: seq<string>) returns (r: Loaded<C>, ghost kept: seq<string>)
    ensures kept == SalvageKept(schema, accepted)
    ensures match FirstFailClosed(SalvageSkipped(schema, accepted))
            case Some(key) => r == FailedClosed(key)
            case None => r.Loaded? && r.skipped == SalvageSkipped(schema, accepted) && ConfigOf(schema, kept, r.config)
    ensures r.FailedClosed? ==> r.key in FAIL_CLOSED && r.key in SalvageSkipped(schema, accepted)
    ensures r.Loaded? ==> forall k :: k in r.skipped ==> k !in FAIL_CLOSED
  {
    var merged := MergeKeys(schema, accepted);
    if merged.Some? {
      return Loaded(merged.value, []), accepted;
    }
    var keys, cfg, deferred := GreedyPass(schema, [], schema.base, accepted);
    var skipped;
    keys, cfg, skipped := GreedyPass(schema, keys, cfg, deferred);
    FirstFailClosedFinds(skipped);
    assert skipped[0..] == skipped;
    for i := 0 to |skipped|
      invariant FirstFailClosed(skipped) == FirstFailClosed(skipped[i..])
    {
      assert skipped[i..][0] == skipped[i] && skipped[i..][1..] == skipped[i + 1..];
      if skipped[i] in FAIL_CLOSED {
        return FailedClosed(skipped[i]), keys;
      }
    }
    return Loaded(cfg, skipped), keys;
  }

  // ---- what the salvage guarantees ----

  lemma {:induction false} PassPartitions<C>(schema: Schema<C>, kept: seq<string>, keys: seq<string>)
    ensures multiset(Kept(schema, kept, keys)) + multiset(Deferred(schema, kept, keys))
      == multiset(kept) + multiset(keys)
    decreases keys
  {
    if keys != [] {
      var key, rest := keys[0], keys[1..];
      assert keys == [key] + rest;
      MultisetCons(key, rest);
      if Merged(schema, kept + [key]).Some? {
        PassPartitions(schema, kept + [key], rest);
        assert multiset(kept + [key]) == multiset(kept) + multiset{key};
      } else {
        PassPartitions(schema, kept, rest);
        MultisetCons(key, Deferred(schema, kept, rest));
        assert Kept(schema, kept, keys) == Kept(schema, kept, rest);
        assert Deferred(schema, kept, keys) == [key] + Deferred(schema, kept, rest);
        MultisetMove(multiset{key}, multiset(Kept(schema, kept, rest)), multiset(Deferred(schema, kept, rest)),
                     multiset(kept), multiset(rest));
      }
    }
  }

  lemma {:induction false} MultisetMove<T>(x: multiset<T>, a: multiset<T>, b: multiset<T>, c: multiset<T>,
                                           d: multiset<T>)
    requires a + b == c + d
    ensures a + (x + b) == c + (x + d)
  {
    assert a + (x + b) == x + (a + b);
    assert c + (x + d) == x + (c + d);
  }

  lemma {:induction false} MultisetCons<T>(x: T, s: seq<T>)
    ensures multiset([x] + s) == multiset{x} + multiset(s)
  {
  }

  /** Every key is kept or skipped, exactly as often as it was accepted. */
  lemma {:induction false} SalvagePartitions<C>(schema: Schema<C>, accepted: seq<string>)
    ensures multiset(SalvageKept(schema, accepted)) + multiset(SalvageSkipped(schema, accepted)) == multiset(accepted)
  {
    PassPartitions(schema, [], accepted);
    PassPartitions(schema, Kept(schema, [], accepted), Deferred(schema, [], accepted));
  }

  /** What a pass keeps extends what it started with, and every extension merged when it was made. */
  ghost predicate Grew<C>(schema: Schema<C>, from: seq<string>, to: seq<string>) {
    && from <= to
    && forall n :: |from| < n <= |to| ==> Merged(schema, to[..n]).Some?
  }

  lemma {:induction false} PassGrows<C>(schema: Schema<C>, kept: seq<string>, keys: seq<string>)
    ensures Grew(schema, kept, Kept(schema, kept, keys))
    decreases keys
  {
    if keys != [] {
      var kept' := if Merged(schema, kept + [keys[0]]).Some? then kept + [keys[0]] else kept;
      PassGrows(schema, kept', keys[1..]);
      var to := Kept(schema, kept', keys[1..]);
      assert |kept'| > |kept| ==> to[..|kept'|] == kept';
    }
  }

  /** A deferred key did not merge with what the pass had kept when its turn came. */
  ghost predicate FailedIn<C>(schema: Schema<C>, from: seq<string>, to: seq<string>, key: string) {
    exists n :: |from| <= n <= |to| && Merged(schema, to[..n] + [key]).None?
  }

  lemma {:induction false} DeferredFailed<C>(schema: Schema<C>, kept: seq<string>, keys: seq<string>, key: string)
    requires key in Deferred(schema, kept, keys)
    ensures FailedIn(schema, kept, Kept(schema, kept, keys), key)
    decreases keys
  {
    PassGrows(schema, kept, keys);
    var to := Kept(schema, kept, keys);
    var kept' := if Merged(schema, kept + [keys[0]]).Some? then kept + [keys[0]] else kept;
    if key == keys[0] && kept' == kept {
      assert to[..|kept|] == kept;
    } else {
      DeferredFailed(schema, kept', keys[1..], key);
    }
  }

  /**
   The salvaged configuration: whatever was kept merges and validates, as did
   every stage on the way; nothing is skipped when all keys validate together;
   and a skipped key failed twice, the second time beside everything that the
   first pass had kept.
   */
  lemma {:induction false} SalvageIsValid<C>(schema: Schema<C>, accepted: seq<string>)
    requires schema.valid(schema.base)
    ensures Merged(schema, SalvageKept(schema, accepted)).Some?
    ensures Merged(schema, accepted).Some? ==>
      SalvageKept(schema, accepted) == accepted && SalvageSkipped(schema, accepted) == []
    ensures Merged(schema, accepted).None? ==> Grew(schema, [], SalvageKept(schema, accepted))
    ensures forall key :: key in SalvageSkipped(schema, accepted) ==>
              && FailedIn(schema, [], Kept(schema, [], accepted), key)
              && FailedIn(schema, Kept(schema, [], accepted), SalvageKept(schema, accepted), key)
  {
    if Merged(schema, accepted).None? {
      var once, deferred := Kept(schema, [], accepted), Deferred(schema, [], accepted);
      var kept := Kept(schema, once, deferred);
      PassGrows(schema, [], accepted);
      PassGrows(schema, once, deferred);
      forall n | 0 < n <= |kept|
        ensures Merged(schema, kept[..n]).Some?
      {
        assert n <= |once| ==> kept[..n] == once[..n];
      }
      assert kept[..|kept|] == kept;
      forall key | key in Deferred(schema, once, deferred)
        ensures FailedIn(schema, [], once, key) && FailedIn(schema, once, kept, key)
      {
        DeferredFailed(schema, once, deferred, key);
        PassPartitions(schema, once, deferred);
        DeferredAreKeys(schema, once, deferred);
        DeferredFailed(schema, [], accepted, key);
      }
    }
  }

  lemma {:induction false} DeferredAreKeys<C>(schema: Schema<C>, kept: seq<string>, keys: seq<string>)
    ensures forall k :: k in Deferred(schema, kept, keys) ==> k in keys
    decreases keys
  {
    if keys != [] {
      var kept' := if Merged(schema, kept + [keys[0]]).Some? then kept + [keys[0]] else kept;
      DeferredAreKeys(schema, kept', keys[1..]);
    }
  }

  /** When the second pass keeps nothing more, the salvage is maximal, whatever the rules. */
  lemma {:induction false} IdleSecondPass<C>(schema: Schema<C>, accepted: seq<string>, key: string)
    requires schema.valid(schema.base) && SalvageKept(schema, accepted) == Kept(schema, [], accepted)
    requires key in SalvageSkipped(schema, accepted)
    ensures Merged(schema, SalvageKept(schema, accepted) + [key]).None?
  {
    SalvageIsValid(schema, accepted);
    var kept := SalvageKept(schema, accepted);
    var n :| |kept| <= n <= |kept| && Merged(schema, kept[..n] + [key]).None?;
    assert kept[..n] == kept;
  }

  /** On success no fail-closed key was skipped: each one in the document is in force. */
  lemma {:induction false} FailClosedKeysAreKept<C>(schema: Schema<C>, accepted: seq<string>, key: string)
    requires FirstFailClosed(SalvageSkipped(schema, accepted)).None?
    requires key in accepted && key in FAIL_CLOSED
    ensures key in SalvageKept(schema, accepted)
  {
    FirstFailClosedFinds(SalvageSkipped(schema, accepted));
    SalvagePartitions(schema, accepted);
    assert key in multiset(accepted);
  }

  // ---- the two loaders ----

  datatype Note = Dropped(key: string) | UnknownFields(key: string)

  datatype Document<C> = Document(config: C, notes: seq<Note>) | Refused(key: string)

  /** The keys that overlay on their own, and what is reported of the others and of loose ones. */
  function Accepted<C>(schema: Schema<C>, keys: seq<string>): seq<string> {
    if keys == [] then []
    else (if Overlays(schema, keys[0]) then [keys[0]] else []) + Accepted(schema, keys[1..])
  }

  predicate Overlays<C>(schema: Schema<C>, key: string) {
    schema.known(key) && schema.overlay(schema.base, key).Some?
  }

  function Notes<C>(schema: Schema<C>, keys: seq<string>): seq<Note> {
    if keys == [] then []
    else
      NotesOf(schema, keys[0]) + Notes(schema, keys[1..])
  }

  function NotesOf<C>(schema: Schema<C>, key: string): seq<Note> {
    if !Overlays(schema, key) then [Dropped(key)] else if schema.loose(key) then [UnknownFields(key)] else []
  }

  /**
   What the scan of a document accepts and reports. It accepts the keys that
   fit, in order; it reports as dropped exactly the keys that do not, and as
   partly unknown exactly the loose ones among those that do.
   */
  lemma {:induction false} ScanAccounts<C>(schema: Schema<C>, keys: seq<string>, key: string)
    ensures var fits := schema.known(key) && schema.overlay(schema.base, key).Some?;
            && multiset(Accepted(schema, keys))[key] == (if fits then multiset(keys)[key] else 0)
            && (Dropped(key) in Notes(schema, keys) <==> key in keys && !fits)
            && (UnknownFields(key) in Notes(schema, keys) <==> key in keys && fits && schema.loose(key))
    ensures |Accepted(schema, keys)| <= |keys| && |Notes(schema, keys)| <= |keys|
  {
    if keys != [] {
      ScanAccounts(schema, keys[1..], key);
      assert keys == [keys[0]] + keys[1..];
      MultisetCons(keys[0], keys[1..]);
      MultisetCons(keys[0], Accepted(schema, keys[1..]));
    }
  }

  /** The accepted keys keep their order. */
  lemma {:induction false} AcceptedInOrder<C>(schema: Schema<C>, a: seq<string>, b: seq<string>)
    ensures Accepted(schema, a + b) == Accepted(schema, a) + Accepted(schema, b)
  {
    if a == [] {
      assert a + b == b;
    } else {
      AcceptedInOrder(schema, a[1..], b);
      assert (a + b)[1..] == a[1..] + b;
    }
  }

  /** One step of a scan that has accepted and noted so far what its accumulators hold. */
  lemma {:induction false} ScanStep<C>(schema: Schema<C>, keys: seq<string>, i: nat, accepted: seq<string>,
                                       notes: seq<Note>)
    requires i < |keys|
    ensures accepted + Accepted(schema, keys[i..])
            == (if Overlays(schema, keys[i]) then accepted + [keys[i]] else accepted) + Accepted(schema, keys[i + 1..])
    ensures notes + Notes(schema, keys[i..]) == notes + NotesOf(schema, keys[i]) + Notes(schema, keys[i + 1..])
  {
    assert keys[i..][0] == keys[i] && keys[i..][1..] == keys[i + 1..];
  }

  predicate Misfit<C>(schema: Schema<C>, key: string) {
    schema.known(key) && schema.overlay(schema.base, key).None?
  }

  predicate Refuses<C>(schema: Schema<C>, key: string) {
    key in FAIL_CLOSED && Misfit(schema, key)
  }

  /** Only the policy on base URLs and the listen address refuse a document for a value of the wrong type. */
  lemma {:induction false} RefusesIff<C>(schema: Schema<C>, key: string)
    ensures Refuses(schema, key) <==>
            && (key == "allowed_base_urls" || key == "listen")
            && schema.known(key) && schema.overlay(schema.base, key).None?
  {
  }

  /** A loaded document has both policies of the file in force, whatever else it lost. */
  lemma {:induction false} PoliciesAreKept<C>(schema: Schema<C>, keys: seq<string>, key: string)
    requires key == "allowed_base_urls" || key == "listen"
    requires key in keys && schema.known(key)
    requires !exists k :: k in keys && Refuses(schema, k)
    requires FirstFailClosed(SalvageSkipped(schema, Accepted(schema, keys))).None?
    ensures key in SalvageKept(schema, Accepted(schema, keys))
  {
    RefusesIff(schema, key);
    ScanAccounts(schema, keys, key);
    assert key in multiset(keys);
    assert key in multiset(Accepted(schema, keys));
    FailClosedKeysAreKept(schema, Accepted(schema, keys), key);
  }

  function AllDropped(keys: seq<string>): seq<Note> {
    seq(|keys|, i requires 0 <= i < |keys| => Dropped(keys[i]))
  }

  /** The lenient loader's look at each key on its own. */
  method ScanLenient<C>(schema: Schema<C>, keys: seq<string>)
    returns (accepted: seq<string>, notes: seq<Note>, refused: Option<string>)
    ensures refused.None? <==> forall k :: k in keys ==> !Refuses(schema, k)
    ensures refused.None? ==> accepted == Accepted(schema, keys) && notes == Notes(schema, keys)
    ensures refused.Some? ==> refused.value in keys && Refuses(schema, refused.value)
  {
    accepted, notes := [], [];
    assert keys[0..] == keys;
    for i := 0 to |keys|
      invariant Accepted(schema, keys) == accepted + Accepted(schema, keys[i..])
      invariant Notes(schema, keys) == notes + Notes(schema, keys[i..])
      invariant forall j :: 0 <= j < i ==> !Refuses(schema, keys[j])
    {
      ScanStep(schema, keys, i, accepted, notes);
      var key := keys[i];
      if schema.known(key) && schema.overlay(schema.base, key).None? && key in FAIL_CLOSED {
        assert Refuses(schema, key);
        return accepted, notes, Some(key);
      }
      notes := notes + NotesOf(schema, key);
      if Overlays(schema, key) {
        accepted := accepted + [key];
      }
    }
    assert keys[|keys|..] == [];
    refused := None;
  }

  /** loadYAMLBytes, from the sorted keys of the document on. */
  method LoadLenient<C>(schema: Schema<C>, keys: seq<string>) returns (r: Document<C>)
    ensures (exists k :: k in keys && Refuses(schema, k)) ==> r.Refused?
    ensures r.Refused? ==>
              || Refuses(schema, r.key)
              || (r.key in FAIL_CLOSED && r.key in SalvageSkipped(schema, Accepted(schema, keys)))
    ensures r.Document? ==>
              && r.notes == Notes(schema, keys) + AllDropped(SalvageSkipped(schema, Accepted(schema, keys)))
              && (keys == [] || ConfigOf(schema, SalvageKept(schema, Accepted(schema, keys)), r.config))
              && (keys == [] ==> r.config == schema.base)
              && forall k :: k in SalvageSkipped(schema, Accepted(schema, keys)) ==> k !in FAIL_CLOSED
  {
    var accepted, notes, refused := ScanLenient(schema, keys);
    if keys == [] {
      SalvageOfNothing(schema);
      return Document(schema.base, []);
    }
    if refused.Some? {
      return Refused(refused.value);
    }
    var salvaged, kept := KeepKeys(schema, accepted);
    if salvaged.FailedClosed? {
      return Refused(salvaged.key);
    }
    return Document(salvaged.config, notes + AllDropped(salvaged.skipped));
  }

  lemma {:induction false} SalvageOfNothing<C>(schema: Schema<C>)
    ensures SalvageSkipped(schema, []) == [] && AllDropped([]) == []
  {
  }

  /** The fail-closed loader's look at each key: any misfit refuses, and so does a loose one unless it repairs. */
  method ScanFailClosed<C>(schema: Schema<C>, keys: seq<string>, repairDebris: bool)
    returns (ok: bool, accepted: seq<string>, notes: seq<Note>)
    ensures ok <==> forall k :: k in keys ==> Clean(schema, k, repairDebris)
    ensures ok ==> accepted == Accepted(schema, keys) && notes == Notes(schema, keys)
  {
    accepted, notes := [], [];
    assert keys[0..] == keys;
    for i := 0 to |keys|
      invariant Accepted(schema, keys) == accepted + Accepted(schema, keys[i..])
      invariant Notes(schema, keys) == notes + Notes(schema, keys[i..])
      invariant forall j :: 0 <= j < i ==> Clean(schema, keys[j], repairDebris)
    {
      ScanStep(schema, keys, i, accepted, notes);
      var key := keys[i];
      if schema.known(key) && schema.overlay(schema.base, key).None? {
        assert !Clean(schema, key, repairDebris);
        return false, accepted, notes;
      }
      if schema.known(key) && schema.loose(key) && !repairDebris {
        assert !Clean(schema, key, repairDebris);
        return false, accepted, notes;
      }
      notes := notes + NotesOf(schema, key);
      if schema.known(key) {
        accepted := accepted + [key];
      }
    }
    assert keys[|keys|..] == [];
    ok := true;
  }

  predicate Clean<C>(schema: Schema<C>, key: string, repairDebris: bool) {
    schema.known(key) ==> Overlays(schema, key) && (repairDebris || !schema.loose(key))
  }

  /**
   loadYAMLBytesFailClosed: boot (repairDebris) and reload. It accepts exactly
   the documents whose known keys all overlay and validate together, without
   unknown nested fields unless it repairs; what it loads and reports is then
   what the salvage makes of the document.
   */
  method LoadFailClosed<C>(schema: Schema<C>, keys: seq<string>, repairDebris: bool) returns (r: Option<(C, seq<Note>)>)
    ensures r.Some? <==>
              keys == []
              || ((forall k :: k in keys ==> Clean(schema, k, repairDebris))
                  && Merged(schema, Accepted(schema, keys)).Some?)
    ensures r.Some? && keys != [] ==>
              && Merged(schema, SalvageKept(schema, Accepted(schema, keys))) == Some(r.value.0)
              && r.value.1 == Notes(schema, keys) + AllDropped(SalvageSkipped(schema, Accepted(schema, keys)))
    ensures r.Some? && keys == [] ==> r.value == (schema.base, [])
  {
    if keys == [] {
      return Some((schema.base, []));
    }
    var ok, accepted, notes := ScanFailClosed(schema, keys, repairDebris);
    if !ok {
      return None;
    }
    var merged := MergeKeys(schema, accepted);
    if merged.None? {
      return None;
    }
    assert notes + AllDropped([]) == notes;
    return Some((merged.value, notes));
  }
}
