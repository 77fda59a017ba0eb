/**
 The documentation copy of a request database (scripts/backup_db.py): every row
 is rewritten with aliases for its identifiers, and the copy is verified by the
 same row code without aliases. JSON fields are taken as parsed, the keyed hash
 and the time-stamp grammar as functions.
 */
module Redaction {
  import opened Wrappers
  import opened Sequences
  import Decimal

  const ERROR_CLASSES := {"transport", "rate_limit"}

  // ---- aliases ----

  /** The aliases given so far, by kind and source label. */
  type Names = map<string, map<string, string>>

  function NamesOf(names: Names, kind: string): map<string, string> {
    if kind in names then names[kind] else map[]
  }

  /** Labels that are published as they are. */
  predicate Passes(kind: string, value: string) {
    value == "" || (kind == "error type" && value in ERROR_CLASSES)
  }

  function Numbered(kind: string, n: nat): string {
    kind + " " + Decimal.Print(n)
  }

  /** _Aliases.__call__, except for the kind "key" */
  function Alias(names: Names, kind: string, value: string): (string, Names) {
    if Passes(kind, value) then (value, names)
    else
      var known := NamesOf(names, kind);
      if value in known then (known[value], names[kind := known])
      else
        var alias := Numbered(kind, |known| + 1);
        (alias, names[kind := known[value := alias]])
  }

  predicate IsAliasNumber(s: string) {
    s != "" && s[0] != '0' && Decimal.AllDigits(s)
  }

  /** _alias_valid */
  predicate AliasValid(kind: string, value: string) {
    || Passes(kind, value)
    || (&& |value| > |kind| + 1
        && value[..|kind| + 1] == kind + " "
        && IsAliasNumber(value[|kind| + 1..]))
  }

  ghost predicate HasNumber(kind: string, alias: string, max: nat) {
    exists n :: 1 <= n <= max && alias == Numbered(kind, n)
  }

  ghost predicate Injective(known: map<string, string>) {
    forall u, v :: u in known && v in known && known[u] == known[v] ==> u == v
  }

  ghost predicate Inv(names: Names) {
    forall kind :: kind in names ==>
                     && Injective(names[kind])
                     && forall v :: v in names[kind] ==> HasNumber(kind, names[kind][v], |names[kind]|)
  }

  ghost predicate Extends(names: Names, names': Names) {
    forall kind, v :: v in NamesOf(names, kind) ==>
                        v in NamesOf(names', kind) && NamesOf(names', kind)[v] == NamesOf(names, kind)[v]
  }

  predicate Known(names: Names, kind: string, value: string) {
    Passes(kind, value) || value in NamesOf(names, kind)
  }

  /** The one alias of a label under the aliases given so far. */
  function Final(names: Names, kind: string, value: string): string
    requires Known(names, kind, value)
  {
    if Passes(kind, value) then value else NamesOf(names, kind)[value]
  }

  lemma {:induction false} NumberedDiffer(kind: string, m: nat, n: nat)
    requires Numbered(kind, m) == Numbered(kind, n)
    ensures m == n
  {
    assert Numbered(kind, m)[|kind| + 1..] == Decimal.Print(m);
    assert Numbered(kind, n)[|kind| + 1..] == Decimal.Print(n);
    Decimal.PrintIsCanonical(m);
    Decimal.PrintIsCanonical(n);
  }

  lemma {:induction false} NumberedIsValid(kind: string, n: nat)
    requires n >= 1
    ensures AliasValid(kind, Numbered(kind, n))
    ensures !Passes(kind, Numbered(kind, n))
  {
    var alias := Numbered(kind, n);
    Decimal.PrintIsCanonical(n);
    assert alias[..|kind| + 1] == kind + " ";
    assert alias[|kind| + 1..] == Decimal.Print(n);
    if kind == "error type" {
      assert alias[0] == 'e';
    }
  }

  lemma {:induction false} KindUpdated(names: Names, kind: string, known: map<string, string>)
    requires Inv(names) && Injective(known)
    requires forall v :: v in known ==> HasNumber(kind, known[v], |known|)
    requires forall v :: v in NamesOf(names, kind) ==> v in known && known[v] == NamesOf(names, kind)[v]
    ensures Inv(names[kind := known]) && Extends(names, names[kind := known])
  {
  }

  /** One label: it gets its one alias, which is valid, and no earlier alias changes. */
  lemma {:induction false} AliasStep(names: Names, kind: string, value: string)
    requires Inv(names)
    ensures var (alias, names') := Alias(names, kind, value);
            && Inv(names') && Extends(names, names')
            && Known(names', kind, value) && alias == Final(names', kind, value)
            && AliasValid(kind, alias)
  {
    var (alias, names') := Alias(names, kind, value);
    var known := NamesOf(names, kind);
    if !Passes(kind, value) {
      if value in known {
        KindUpdated(names, kind, known);
        var n :| 1 <= n <= |known| && alias == Numbered(kind, n);
        NumberedIsValid(kind, n);
      } else {
        NewAliasKeepsInv(kind, known, value);
        KindUpdated(names, kind, known[value := alias]);
        NumberedIsValid(kind, |known| + 1);
      }
    }
  }

  lemma {:induction false} NewAliasKeepsInv(kind: string, known: map<string, string>, value: string)
    requires Injective(known) && value !in known
    requires forall v :: v in known ==> HasNumber(kind, known[v], |known|)
    ensures var known' := known[value := Numbered(kind, |known| + 1)];
            && |known'| == |known| + 1
            && Injective(known')
            && forall v :: v in known' ==> HasNumber(kind, known'[v], |known'|)
  {
    var alias := Numbered(kind, |known| + 1);
    var known' := known[value := alias];
    assert known'.Keys == known.Keys + {value};
    assert |known'| == |known'.Keys| && |known| == |known.Keys|;
    forall v | v in known
      ensures known[v] != alias && HasNumber(kind, known[v], |known'|)
    {
      var n :| 1 <= n <= |known| && known[v] == Numbered(kind, n);
      if known[v] == alias {
        NumberedDiffer(kind, n, |known| + 1);
      }
    }
    assert HasNumber(kind, alias, |known'|);
  }

  lemma {:induction false} FinalIsStable(names: Names, names': Names, kind: string, value: string)
    requires Extends(names, names') && Known(names, kind, value)
    ensures Known(names', kind, value) && Final(names', kind, value) == Final(names, kind, value)
  {
  }

  /** Within a kind, equal aliases come from equal labels. */
  lemma {:induction false} FinalIsInjective(names: Names, kind: string, a: string, b: string)
    requires Inv(names) && Known(names, kind, a) && Known(names, kind, b)
    requires Final(names, kind, a) == Final(names, kind, b)
    ensures a == b
  {
    var known := NamesOf(names, kind);
    if !Passes(kind, a) {
      var n :| 1 <= n <= |known| && known[a] == Numbered(kind, n);
      NumberedIsValid(kind, n);
    }
    if !Passes(kind, b) {
      var n :| 1 <= n <= |known| && known[b] == Numbered(kind, n);
      NumberedIsValid(kind, n);
    }
  }

  // ---- JSON fields ----

  datatype Json =
    | JNull
    | JBool(b: bool)
    | JInt(n: int)
    | JFloat(x: real)
    | JString(s: string)
    | JArray(items: seq<Json>)
    | JObject(fields: seq<(string, Json)>)

  /** A text column that holds JSON: empty, not JSON (or with a duplicate field), or a value. */
  datatype JsonText = Blank | Malformed | Encoded(value: Json)

  const DROPPED_FIELDS := {"provider_request_id", "provider_server", "response_headers"}

  const METRIC_FIELDS := {"status_code", "retry_after_ms", "processing_ms", "rate_limit_remaining", "rate_limit_limit"}

  /** The aliased fields of an attempt and their kinds. */
  function DetailKind(key: string): Option<string> {
    if key == "error_type" then Some("error type")
    else if key == "error_code" then Some("error code")
    else if key == "error_msg" then Some("error detail")
    else if key == "provider_model" then Some("model")
    else None
  }

  predicate InInt64(n: int) {
    -0x8000_0000_0000_0000 <= n < 0x8000_0000_0000_0000
  }

  function Get(fields: seq<(string, Json)>, key: string): Option<Json> {
    if fields == [] then None
    else if fields[0].0 == key then Some(fields[0].1)
    else Get(fields[1..], key)
  }

  predicate IsText(j: Json) {
    j.JString?
  }

  predicate IsTextList(j: Json) {
    j.JArray? && forall item :: item in j.items ==> IsText(item)
  }

  /** The shape that a field which is not served must have in the source. */
  predicate DroppedShape(key: string, value: Json) {
    if key == "response_headers" then value.JObject? && forall f :: f in value.fields ==> IsTextList(f.1)
    else IsText(value)
  }

  datatype Field = FieldDropped | FieldKept(value: Json, names: Names)

  /** One field of an attempt on its way to the copy; a failed check is None. */
  function RedactField(names: Names, key: string, value: Json): Option<Field> {
    if key in DROPPED_FIELDS then if DroppedShape(key, value) then Some(FieldDropped) else None
    else if key in METRIC_FIELDS then
      if value.JInt? && InInt64(value.n) then Some(FieldKept(value, names)) else None
    else if key == "at" then Some(FieldKept(value, names))
    else if DetailKind(key).None? || !value.JString? then None
    else
      var (alias, names') := Alias(names, DetailKind(key).value, value.s);
      Some(FieldKept(JString(alias), names'))
  }

  /** The same field when the copy is verified. */
  predicate VerifyField(key: string, value: Json) {
    && key !in DROPPED_FIELDS
    && if key in METRIC_FIELDS then value.JInt? && InInt64(value.n)
       else key == "at" || (DetailKind(key).Some? && value.JString? && AliasValid(DetailKind(key).value, value.s))
  }

  function RedactFields(names: Names, fields: seq<(string, Json)>): Option<(seq<(string, Json)>, Names)>
    decreases fields
  {
    if fields == [] then Some(([], names))
    else
      var f := RedactField(names, fields[0].0, fields[0].1);
      if f.None? then None
      else if f.value.FieldDropped? then RedactFields(names, fields[1..])
      else
        var rest := RedactFields(f.value.names, fields[1..]);
        if rest.None? then None else Some(([(fields[0].0, f.value.value)] + rest.value.0, rest.value.1))
  }

  predicate VerifyFields(fields: seq<(string, Json)>) {
    forall f :: f in fields ==> VerifyField(f.0, f.1)
  }

  /** What every attempt must have, in the source and in the copy. */
  predicate AttemptStamped(stamp: string -> bool, fields: seq<(string, Json)>) {
    && Get(fields, "status_code").Some? && Get(fields, "status_code").value.JInt?
    && Get(fields, "at").Some? && Get(fields, "at").value.JString? && stamp(Get(fields, "at").value.s)
  }

  function RedactAttempts(stamp: string -> bool, names: Names, items: seq<Json>): Option<(seq<Json>, Names)>
    decreases items
  {
    if items == [] then Some(([], names))
    else if !items[0].JObject? || !AttemptStamped(stamp, items[0].fields) then None
    else
      var fields := RedactFields(names, items[0].fields);
      if fields.None? then None
      else
        var rest := RedactAttempts(stamp, fields.value.1, items[1..]);
        if rest.None? then None else Some(([JObject(fields.value.0)] + rest.value.0, rest.value.1))
  }

  predicate VerifyAttempts(stamp: string -> bool, items: seq<Json>) {
    forall item :: item in items ==> item.JObject? && AttemptStamped(stamp, item.fields) && VerifyFields(item.fields)
  }

  /** The empty text of old rows, or null. */
  predicate NoValue(t: JsonText) {
    t.Blank? || (t.Encoded? && t.value.JNull?)
  }

  /** The attempts column on its way to the copy. */
  function RedactAttemptsText(stamp: string -> bool, names: Names, t: JsonText): Option<(JsonText, Names)> {
    if t.Malformed? then None
    else if NoValue(t) then Some((Encoded(JNull), names))
    else if !t.value.JArray? then None
    else
      var r := RedactAttempts(stamp, names, t.value.items);
      if r.None? then None else Some((Encoded(JArray(r.value.0)), r.value.1))
  }

  /** The attempts column when the copy is verified: its re-encoding. */
  function VerifyAttemptsText(stamp: string -> bool, t: JsonText): Option<JsonText> {
    if t.Malformed? then None
    else if NoValue(t) then Some(Encoded(JNull))
    else if t.value.JArray? && VerifyAttempts(stamp, t.value.items) then Some(t)
    else None
  }

  function RedactTools(names: Names, items: seq<Json>): (seq<Json>, Names)
    requires forall item :: item in items ==> IsText(item)
    decreases items
  {
    if items == [] then ([], names)
    else
      assert IsText(items[0]);
      var (alias, names') := Alias(names, "tool", items[0].s);
      var (rest, names'') := RedactTools(names', items[1..]);
      ([JString(alias)] + rest, names'')
  }

  function RedactToolsText(names: Names, t: JsonText): Option<(JsonText, Names)> {
    if t.Malformed? then None
    else if NoValue(t) then Some((Encoded(JNull), names))
    else if !IsTextList(t.value) then None
    else
      var (out, names') := RedactTools(names, t.value.items);
      Some((Encoded(JArray(out)), names'))
  }

  predicate IsToolAlias(j: Json) {
    j.JString? && AliasValid("tool", j.s)
  }

  function VerifyToolsText(t: JsonText): Option<JsonText> {
    if t.Malformed? then None
    else if NoValue(t) then Some(Encoded(JNull))
    else if t.value.JArray? && (forall j :: j in t.value.items ==> IsToolAlias(j)) then Some(t)
    else None
  }

  // ---- what derive leaves in a JSON field passes ----

  ghost predicate NamesGrow(names: Names, names': Names) {
    Inv(names') && Extends(names, names')
  }

  lemma {:induction false} RedactedFieldPasses(names: Names, key: string, value: Json)
    requires Inv(names) && RedactField(names, key, value).Some?
    ensures var f := RedactField(names, key, value).value;
            f.FieldKept? ==>
              && NamesGrow(names, f.names) && VerifyField(key, f.value)
              && (key == "at" || key in METRIC_FIELDS ==> f.value == value)
  {
    if value.JString? && DetailKind(key).Some? {
      AliasStep(names, DetailKind(key).value, value.s);
    }
  }

  lemma {:induction false} RedactedFieldsPass(names: Names, fields: seq<(string, Json)>)
    requires Inv(names) && RedactFields(names, fields).Some?
    ensures var (out, names') := RedactFields(names, fields).value;
            && NamesGrow(names, names') && VerifyFields(out)
            && Get(out, "status_code") == Get(fields, "status_code") && Get(out, "at") == Get(fields, "at")
    decreases fields
  {
    if fields != [] {
      var key, value := fields[0].0, fields[0].1;
      RedactedFieldPasses(names, key, value);
      var f := RedactField(names, key, value).value;
      match f {
        case FieldDropped => RedactedFieldsPass(names, fields[1..]);
        case FieldKept(value', names') =>
          RedactedFieldsPass(names', fields[1..]);
          var (rest, names'') := RedactFields(names', fields[1..]).value;
          GetCons(key, value', rest);
      }
    }
  }

  lemma {:induction false} GetCons(key: string, value: Json, rest: seq<(string, Json)>)
    ensures forall k :: Get([(key, value)] + rest, k) == if k == key then Some(value) else Get(rest, k)
  {
    assert ([(key, value)] + rest)[1..] == rest;
  }

  /** Whether a field is served at all. */
  predicate IsServed(f: (string, Json)) {
    f.0 !in DROPPED_FIELDS
  }

  /** What became of a served field: its key and its numbers stayed, a label became its alias. */
  ghost predicate FieldServed(names: Names, f: (string, Json), g: (string, Json)) {
    && g.0 == f.0
    && if DetailKind(f.0).None? then g.1 == f.1
       else
         && f.1.JString? && Known(names, DetailKind(f.0).value, f.1.s)
         && g.1 == JString(Final(names, DetailKind(f.0).value, f.1.s))
  }

  lemma {:induction false} FieldServedStays(names: Names, names': Names, f: (string, Json), g: (string, Json))
    requires FieldServed(names, f, g) && Extends(names, names')
    ensures FieldServed(names', f, g)
  {
    if DetailKind(f.0).Some? {
      FinalIsStable(names, names', DetailKind(f.0).value, f.1.s);
    }
  }

  lemma {:induction false} OneFieldServed(names: Names, key: string, value: Json)
    requires Inv(names) && RedactField(names, key, value).Some?
    ensures var f := RedactField(names, key, value).value;
            && (f.FieldDropped? <==> !IsServed((key, value)))
            && (f.FieldKept? ==> NamesGrow(names, f.names) && FieldServed(f.names, (key, value), (key, f.value)))
  {
    if value.JString? && DetailKind(key).Some? {
      AliasStep(names, DetailKind(key).value, value.s);
    }
  }

  /** A redacted attempt has exactly the served fields, in order, each as FieldServed says. */
  lemma {:induction false} RedactedFieldsAreThose(names: Names, fields: seq<(string, Json)>)
    requires Inv(names) && RedactFields(names, fields).Some?
    ensures var (out, names') := RedactFields(names, fields).value;
            var served := Filter(IsServed, fields);
            && Extends(names, names')
            && |out| == |served|
            && forall i :: 0 <= i < |out| ==> FieldServed(names', served[i], out[i])
    decreases fields
  {
    if fields != [] {
      var key, value := fields[0].0, fields[0].1;
      OneFieldServed(names, key, value);
      var f := RedactField(names, key, value).value;
      if f.FieldDropped? {
        RedactedFieldsAreThose(names, fields[1..]);
      } else {
        RedactedFieldsAreThose(f.names, fields[1..]);
        var (rest, names') := RedactFields(f.names, fields[1..]).value;
        FieldServedStays(f.names, names', (key, value), (key, f.value));
        var out, served := [(key, f.value)] + rest, Filter(IsServed, fields);
        assert served == [fields[0]] + Filter(IsServed, fields[1..]);
        forall i | 0 <= i < |out|
          ensures FieldServed(names', served[i], out[i])
        {
          if i > 0 {
            assert out[i] == rest[i - 1] && served[i] == Filter(IsServed, fields[1..])[i - 1];
          }
        }
      }
    }
  }

  lemma {:induction false} RedactedAttemptsPass(stamp: string -> bool, names: Names, items: seq<Json>)
    requires Inv(names) && RedactAttempts(stamp, names, items).Some?
    ensures var (out, names') := RedactAttempts(stamp, names, items).value;
            NamesGrow(names, names') && VerifyAttempts(stamp, out)
    decreases items
  {
    if items != [] {
      RedactedFieldsPass(names, items[0].fields);
      var (_, names') := RedactFields(names, items[0].fields).value;
      RedactedAttemptsPass(stamp, names', items[1..]);
    }
  }

  lemma {:induction false} RedactedToolsPass(names: Names, items: seq<Json>)
    requires Inv(names) && forall item :: item in items ==> IsText(item)
    ensures var (out, names') := RedactTools(names, items);
            NamesGrow(names, names') && forall j :: j in out ==> IsToolAlias(j)
    decreases items
  {
    if items != [] {
      assert IsText(items[0]);
      AliasStep(names, "tool", items[0].s);
      RedactedToolsPass(Alias(names, "tool", items[0].s).1, items[1..]);
    }
  }

  // ---- and what it is, label by label ----

  ghost predicate AttemptServed(names: Names, item: Json, out: Json) {
    && item.JObject? && out.JObject?
    && var served := Filter(IsServed, item.fields);
    && |out.fields| == |served|
    && forall i :: 0 <= i < |served| ==> FieldServed(names, served[i], out.fields[i])
  }

  ghost predicate AttemptsServed(names: Names, items: seq<Json>, out: seq<Json>) {
    |out| == |items| && forall k :: 0 <= k < |items| ==> AttemptServed(names, items[k], out[k])
  }

  ghost predicate ToolServed(names: Names, item: Json, out: Json) {
    item.JString? && Known(names, "tool", item.s) && out == JString(Final(names, "tool", item.s))
  }

  ghost predicate ToolsServed(names: Names, items: seq<Json>, out: seq<Json>) {
    |out| == |items| && forall k :: 0 <= k < |items| ==> ToolServed(names, items[k], out[k])
  }

  lemma {:induction false} AttemptServedStays(names: Names, names': Names, item: Json, out: Json)
    requires AttemptServed(names, item, out) && Extends(names, names')
    ensures AttemptServed(names', item, out)
  {
    var served := Filter(IsServed, item.fields);
    forall i | 0 <= i < |served|
      ensures FieldServed(names', served[i], out.fields[i])
    {
      FieldServedStays(names, names', served[i], out.fields[i]);
    }
  }

  /** Every attempt, in order, has become what AttemptServed says. */
  lemma {:induction false} RedactedAttemptsAreThose(stamp: string -> bool, names: Names, items: seq<Json>)
    requires Inv(names) && RedactAttempts(stamp, names, items).Some?
    ensures var (out, names') := RedactAttempts(stamp, names, items).value;
            NamesGrow(names, names') && AttemptsServed(names', items, out)
    decreases items
  {
    if items != [] {
      RedactedFieldsPass(names, items[0].fields);
      RedactedFieldsAreThose(names, items[0].fields);
      var (fields, mid) := RedactFields(names, items[0].fields).value;
      assert AttemptServed(mid, items[0], JObject(fields));
      RedactedAttemptsAreThose(stamp, mid, items[1..]);
      var (rest, names') := RedactAttempts(stamp, mid, items[1..]).value;
      AttemptServedStays(mid, names', items[0], JObject(fields));
      AttemptsServedCons(names', items, JObject(fields), rest);
    }
  }

  lemma {:induction false} AttemptsServedCons(names: Names, items: seq<Json>, head: Json, rest: seq<Json>)
    requires items != [] && AttemptServed(names, items[0], head) && AttemptsServed(names, items[1..], rest)
    ensures AttemptsServed(names, items, [head] + rest)
  {
    forall k | 0 <= k < |items|
      ensures AttemptServed(names, items[k], ([head] + rest)[k])
    {
      if k > 0 {
        assert AttemptServed(names, items[1..][k - 1], rest[k - 1]);
      }
    }
  }

  /** Every tool name, in order, has become its alias. */
  lemma {:induction false} RedactedToolsAreThose(names: Names, items: seq<Json>)
    requires Inv(names) && forall item :: item in items ==> IsText(item)
    ensures var (out, names') := RedactTools(names, items);
            NamesGrow(names, names') && ToolsServed(names', items, out)
    decreases items
  {
    if items != [] {
      assert IsText(items[0]);
      AliasStep(names, "tool", items[0].s);
      var (alias, mid) := Alias(names, "tool", items[0].s);
      RedactedToolsAreThose(mid, items[1..]);
      var (rest, names') := RedactTools(mid, items[1..]);
      FinalIsStable(mid, names', "tool", items[0].s);
      assert ToolServed(names', items[0], JString(alias));
      ToolsServedCons(names', items, JString(alias), rest);
    }
  }

  lemma {:induction false} ToolsServedCons(names: Names, items: seq<Json>, head: Json, rest: seq<Json>)
    requires items != [] && ToolServed(names, items[0], head) && ToolsServed(names, items[1..], rest)
    ensures ToolsServed(names, items, [head] + rest)
  {
    forall k | 0 <= k < |items|
      ensures ToolServed(names, items[k], ([head] + rest)[k])
    {
      if k > 0 {
        assert ToolServed(names, items[1..][k - 1], rest[k - 1]);
      }
    }
  }

  /** The attempts of a source column and of its copy; both may be absent. */
  ghost predicate AttemptsTextServed(names: Names, t: JsonText, out: JsonText) {
    if NoValue(t) then out == Encoded(JNull)
    else
      && t.Encoded? && t.value.JArray? && out.Encoded? && out.value.JArray?
      && AttemptsServed(names, t.value.items, out.value.items)
  }

  ghost predicate ToolsTextServed(names: Names, t: JsonText, out: JsonText) {
    if NoValue(t) then out == Encoded(JNull)
    else
      && t.Encoded? && t.value.JArray? && out.Encoded? && out.value.JArray?
      && ToolsServed(names, t.value.items, out.value.items)
  }

  lemma {:induction false} TextsServedStay(names: Names, names': Names, t: JsonText, out: JsonText)
    requires Extends(names, names')
    ensures AttemptsTextServed(names, t, out) ==> AttemptsTextServed(names', t, out)
    ensures ToolsTextServed(names, t, out) ==> ToolsTextServed(names', t, out)
  {
    if !NoValue(t) && AttemptsTextServed(names, t, out) {
      forall k | 0 <= k < |t.value.items|
        ensures AttemptServed(names', t.value.items[k], out.value.items[k])
      {
        AttemptServedStays(names, names', t.value.items[k], out.value.items[k]);
      }
    }
    if !NoValue(t) && ToolsTextServed(names, t, out) {
      forall k | 0 <= k < |t.value.items|
        ensures ToolServed(names', t.value.items[k], out.value.items[k])
      {
        assert ToolServed(names, t.value.items[k], out.value.items[k]);
        FinalIsStable(names, names', "tool", t.value.items[k].s);
      }
    }
  }

  /** Both JSON columns, label by label. */
  lemma {:induction false} JsonColumnsAreThose(stamp: string -> bool, names: Names, attempts: JsonText, tools: JsonText)
    requires Inv(names)
    ensures var r := RedactAttemptsText(stamp, names, attempts);
            r.Some? ==> NamesGrow(names, r.value.1) && AttemptsTextServed(r.value.1, attempts, r.value.0)
    ensures var r := RedactToolsText(names, tools);
            r.Some? ==> NamesGrow(names, r.value.1) && ToolsTextServed(r.value.1, tools, r.value.0)
  {
    if attempts.Encoded? && attempts.value.JArray? && RedactAttempts(stamp, names, attempts.value.items).Some? {
      RedactedAttemptsAreThose(stamp, names, attempts.value.items);
    }
    if tools.Encoded? && IsTextList(tools.value) {
      RedactedToolsAreThose(names, tools.value.items);
    }
  }

  /** Both JSON columns of the copy are fixpoints of the verifier's re-encoding. */
  lemma {:induction false} JsonColumnsAreFixed(stamp: string -> bool, names: Names, attempts: JsonText, tools: JsonText)
    requires Inv(names)
    ensures var r := RedactAttemptsText(stamp, names, attempts);
            r.Some? ==> NamesGrow(names, r.value.1) && VerifyAttemptsText(stamp, r.value.0) == Some(r.value.0)
    ensures var r := RedactToolsText(names, tools);
            r.Some? ==> NamesGrow(names, r.value.1) && VerifyToolsText(r.value.0) == Some(r.value.0)
  {
    if attempts.Encoded? && attempts.value.JArray? && RedactAttempts(stamp, names, attempts.value.items).Some? {
      RedactedAttemptsPass(stamp, names, attempts.value.items);
    }
    if tools.Encoded? && IsTextList(tools.value) {
      RedactedToolsPass(names, tools.value.items);
    }
  }
}
