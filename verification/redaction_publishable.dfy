/**
 What may be published, told without the redaction and without the verifier:
 which labels, fields, attempts and rows a documentation copy may hold, and which
 source rows can be redacted. The verifier accepts exactly the publishable copies,
 and deriving succeeds on exactly the redactable sources.
 */
module RedactionPublishable {
  import opened Wrappers
  import opened Sequences
  import opened Redaction
  import opened RedactionCopy
  import Decimal

  // ---- what may be shown ----

  /** A label that may be shown: none, a class that the code owns, or the n-th alias of its kind. */
  ghost predicate Showable(kind: string, s: string) {
    || s == ""
    || (kind == "error type" && (s == "transport" || s == "rate_limit"))
    || exists n: nat :: n >= 1 && s == kind + " " + Decimal.Print(n)
  }

  predicate IsInt64(j: Json) {
    j.JInt? && -9223372036854775808 <= j.n <= 9223372036854775807
  }

  ghost predicate ShowableText(kind: string, j: Json) {
    j.JString? && Showable(kind, j.s)
  }

  ghost predicate PublishableField(key: string, value: Json) {
    match key
    case "at" => true
    case "status_code" => IsInt64(value)
    case "retry_after_ms" => IsInt64(value)
    case "processing_ms" => IsInt64(value)
    case "rate_limit_remaining" => IsInt64(value)
    case "rate_limit_limit" => IsInt64(value)
    case "error_type" => ShowableText("error type", value)
    case "error_code" => ShowableText("error code", value)
    case "error_msg" => ShowableText("error detail", value)
    case "provider_model" => ShowableText("model", value)
    case _ => false
  }

  /** The field at i is the one that a lookup of the key finds. */
  ghost predicate FoundAt(fields: seq<(string, Json)>, key: string, i: nat) {
    i < |fields| && fields[i].0 == key && forall j :: 0 <= j < i ==> fields[j].0 != key
  }

  /** An attempt has a status number and a time stamp. */
  ghost predicate Stamped(stamp: string -> bool, fields: seq<(string, Json)>) {
    && (exists i: nat :: FoundAt(fields, "status_code", i) && fields[i].1.JInt?)
    && exists i: nat :: FoundAt(fields, "at", i) && fields[i].1.JString? && stamp(fields[i].1.s)
  }

  ghost predicate PublishableAttempt(stamp: string -> bool, item: Json) {
    && item.JObject? && Stamped(stamp, item.fields)
    && forall f :: f in item.fields ==> PublishableField(f.0, f.1)
  }

  ghost predicate PublishableAttempts(stamp: string -> bool, t: JsonText) {
    match t
    case Blank => true
    case Malformed => false
    case Encoded(JNull) => true
    case Encoded(JArray(items)) => forall item :: item in items ==> PublishableAttempt(stamp, item)
    case _ => false
  }

  ghost predicate PublishableTools(t: JsonText) {
    match t
    case Blank => true
    case Malformed => false
    case Encoded(JNull) => true
    case Encoded(JArray(items)) => forall item :: item in items ==> ShowableText("tool", item)
    case _ => false
  }

  predicate IntegerCell(cell: Cell) {
    cell.IntCell? && -9223372036854775808 <= cell.n <= 9223372036854775807
  }

  ghost predicate PublishableColumn(shape: Shape, cell: Cell) {
    match shape
    case IntegerField => IntegerCell(cell)
    case RealField => cell.IntCell? || cell.RealCell?
    case EmptyField => cell == TextCell("")
    case DebugField => cell == IntCell(0)
    case AliasedField(kind) => cell.TextCell? && Showable(kind, cell.s)
  }

  ghost predicate PublishableColumns(policy: Policy, fields: map<string, Cell>) {
    && fields.Keys == policy.shape.Keys
    && forall name :: name in policy.shape ==> PublishableColumn(policy.shape[name], fields[name])
  }

  ghost predicate PublishableRow(policy: Policy, row: Record) {
    && row.id.TextCell? && (exists n: nat :: n >= 1 && row.id.s == "request " + Decimal.Print(n))
    && row.keyHash.TextCell? && (row.keyHash.s == "" || IsHash(row.keyHash.s))
    && row.attempts.JsonCell? && PublishableAttempts(policy.stamp, row.attempts.t)
    && row.toolNames.JsonCell? && PublishableTools(row.toolNames.t)
    && PublishableColumns(policy, row.fields)
  }

  function ReEncoded(t: JsonText): JsonText {
    if t.Blank? then Encoded(JNull) else t
  }

  /** The row as the verifier feeds it to the manifest: an empty JSON column counts as null. */
  function Fed(row: Record): Record {
    if row.attempts.JsonCell? && row.toolNames.JsonCell? then
      row.(attempts := JsonCell(ReEncoded(row.attempts.t)), toolNames := JsonCell(ReEncoded(row.toolNames.t)))
    else row
  }

  function FedRows(rows: seq<Record>): seq<Record> {
    if rows == [] then [] else [Fed(rows[0])] + FedRows(rows[1..])
  }

  // ---- the verifier accepts exactly the publishable copies ----

  lemma {:induction false} NumberedIs(kind: string, s: string)
    requires |s| > |kind| + 1 && s[..|kind| + 1] == kind + " " && IsAliasNumber(s[|kind| + 1..])
    ensures exists n: nat :: n >= 1 && s == kind + " " + Decimal.Print(n)
  {
    var digits := s[|kind| + 1..];
    Decimal.CanonicalIsPrint(digits);
    var n := Decimal.Value(digits);
    assert s == s[..|kind| + 1] + digits && Decimal.Print(0) == ['0'];
  }

  lemma {:induction false} AliasValidIff(kind: string, s: string)
    ensures AliasValid(kind, s) <==> Showable(kind, s)
  {
    if AliasValid(kind, s) && !Passes(kind, s) {
      NumberedIs(kind, s);
    }
    if exists n: nat :: n >= 1 && s == kind + " " + Decimal.Print(n) {
      var n: nat :| n >= 1 && s == kind + " " + Decimal.Print(n);
      NumberedIsValid(kind, n);
      assert s == Numbered(kind, n);
    }
  }

  lemma {:induction false} FieldVerifiesIff(key: string, value: Json)
    ensures VerifyField(key, value) <==> PublishableField(key, value)
  {
    if value.JString? && DetailKind(key).Some? {
      AliasValidIff(DetailKind(key).value, value.s);
    }
  }

  lemma {:induction false} GetIsFound(fields: seq<(string, Json)>, key: string)
    ensures Get(fields, key).Some? <==> exists i: nat :: FoundAt(fields, key, i)
    ensures forall i: nat :: FoundAt(fields, key, i) ==> Get(fields, key) == Some(fields[i].1)
  {
    if fields != [] {
      var rest := fields[1..];
      GetIsFound(rest, key);
      if fields[0].0 == key {
        assert FoundAt(fields, key, 0);
      } else {
        forall i: nat | FoundAt(fields, key, i)
          ensures i > 0 && FoundAt(rest, key, i - 1) && fields[i] == rest[i - 1]
        {
          assert forall j :: 0 <= j < i - 1 ==> rest[j] == fields[j + 1];
        }
        forall i: nat | FoundAt(rest, key, i)
          ensures FoundAt(fields, key, i + 1)
        {
          assert forall j :: 0 < j < i + 1 ==> fields[j] == rest[j - 1];
        }
      }
    }
  }

  lemma {:induction false} StampedIff(stamp: string -> bool, fields: seq<(string, Json)>)
    ensures AttemptStamped(stamp, fields) <==> Stamped(stamp, fields)
  {
    GetIsFound(fields, "status_code");
    GetIsFound(fields, "at");
  }

  lemma {:induction false} AttemptVerifiesIff(stamp: string -> bool, item: Json)
    ensures item.JObject? && AttemptStamped(stamp, item.fields) && VerifyFields(item.fields)
            <==> PublishableAttempt(stamp, item)
  {
    if item.JObject? {
      StampedIff(stamp, item.fields);
      forall f | f in item.fields
        ensures VerifyField(f.0, f.1) <==> PublishableField(f.0, f.1)
      {
        FieldVerifiesIff(f.0, f.1);
      }
    }
  }

  lemma {:induction false} AttemptsVerifyIff(stamp: string -> bool, t: JsonText)
    ensures VerifyAttemptsText(stamp, t)
            == if PublishableAttempts(stamp, t) then Some(ReEncoded(t)) else None
  {
    if t.Encoded? && t.value.JArray? {
      forall item | item in t.value.items
        ensures item.JObject? && AttemptStamped(stamp, item.fields) && VerifyFields(item.fields)
                <==> PublishableAttempt(stamp, item)
      {
        AttemptVerifiesIff(stamp, item);
      }
    }
  }

  lemma {:induction false} ToolsVerifyIff(t: JsonText)
    ensures VerifyToolsText(t) == if PublishableTools(t) then Some(ReEncoded(t)) else None
  {
    if t.Encoded? && t.value.JArray? {
      forall item | item in t.value.items
        ensures IsToolAlias(item) <==> ShowableText("tool", item)
      {
        if item.JString? {
          AliasValidIff("tool", item.s);
        }
      }
    }
  }

  lemma {:induction false} ColumnVerifiesIff(shape: Shape, cell: Cell)
    ensures PublishableColumn(shape, cell) <==>
              && CellTyped(shape, cell)
              && (shape.AliasedField? ==> AliasValid(shape.kind, cell.s))
              && (shape.EmptyField? ==> cell == TextCell(""))
              && (shape.DebugField? ==> cell == IntCell(0))
  {
    if shape.AliasedField? && cell.TextCell? {
      AliasValidIff(shape.kind, cell.s);
    }
  }

  lemma {:induction false} ColumnsVerifyIff(policy: Policy, fields: map<string, Cell>)
    ensures PublishableColumns(policy, fields) <==>
              FieldsTyped(policy, fields) && AliasesValid(policy, fields) && Emptied(policy, fields)
  {
    if fields.Keys == policy.shape.Keys {
      forall name | name in policy.shape
        ensures PublishableColumn(policy.shape[name], fields[name]) <==>
                  && CellTyped(policy.shape[name], fields[name])
                  && (HasAlias(policy, name) ==> AliasValid(policy.shape[name].kind, fields[name].s))
                  && (policy.shape[name].EmptyField? ==> fields[name] == TextCell(""))
                  && (policy.shape[name].DebugField? ==> fields[name] == IntCell(0))
      {
        ColumnVerifiesIff(policy.shape[name], fields[name]);
      }
    }
  }

  lemma {:induction false} RowVerifiesIff(policy: Policy, row: Record)
    ensures VerifyRecord(policy, row) == if PublishableRow(policy, row) then Some(Fed(row)) else None
  {
    ColumnsVerifyIff(policy, row.fields);
    if row.id.TextCell? {
      AliasValidIff("request", row.id.s);
    }
    if row.attempts.JsonCell? && row.toolNames.JsonCell? {
      AttemptsVerifyIff(policy.stamp, row.attempts.t);
      ToolsVerifyIff(row.toolNames.t);
    }
  }

  lemma {:induction false} RowsVerifyIff(policy: Policy, rows: seq<Record>)
    ensures VerifyRows(policy, rows)
            == if forall r :: r in rows ==> PublishableRow(policy, r) then Some(FedRows(rows)) else None
  {
    if rows != [] {
      RowVerifiesIff(policy, rows[0]);
      RowsVerifyIff(policy, rows[1..]);
      assert forall r :: r in rows <==> r == rows[0] || r in rows[1..];
    }
  }

  /**
   The verifier accepts exactly the copies whose rows are all publishable and
   whose marker is that of the rows, and it answers the marker's summary.
   */
  lemma {:induction false} VerifiesIff(policy: Policy, digest: seq<Record> -> string, copy: Copy)
    ensures VerifyCopy(policy, digest, copy)
            == if && (forall r :: r in copy.rows ==> PublishableRow(policy, r))
                  && copy.marker == Marker(digest(FedRows(copy.rows)), Summarize(FedRows(copy.rows)))
               then Some(copy.marker.summary) else None
  {
    RowsVerifyIff(policy, copy.rows);
  }

  /** No label of an accepted copy, wherever it stands, is anything but an alias of its kind or a showable class. */
  lemma {:induction false} AcceptedLabels(policy: Policy, digest: seq<Record> -> string, copy: Copy, i: nat,
                                          place: Place)
    requires VerifyCopy(policy, digest, copy).Some? && i < |copy.rows|
    ensures var shown := Label(policy, copy.rows[i], place);
            shown.Some? ==> Showable(shown.value.0, shown.value.1)
  {
    VerifiesIff(policy, digest, copy);
    assert copy.rows[i] in copy.rows;
    RowLabels(policy, copy.rows[i], place);
  }

  lemma {:induction false} RowLabels(policy: Policy, row: Record, place: Place)
    requires PublishableRow(policy, row)
    ensures var shown := Label(policy, row, place);
            shown.Some? ==> Showable(shown.value.0, shown.value.1)
  {
    match place {
      case Column(name) =>
        if Aliasable(policy, row.fields, name) {
          assert PublishableColumn(policy.shape[name], row.fields[name]);
        }
      case AttemptField(k, j) =>
        var items := ItemsOf(row.attempts);
        if k < |items| && items[k].JObject? {
          assert items[k] in items && PublishableAttempt(policy.stamp, items[k]);
          AttemptLabels(policy.stamp, items[k], j);
        }
      case Tool(k) =>
        var items := ItemsOf(row.toolNames);
        if k < |items| {
          assert items[k] in items && ShowableText("tool", items[k]);
        }
    }
  }

  lemma {:induction false} AttemptLabels(stamp: string -> bool, item: Json, j: nat)
    requires PublishableAttempt(stamp, item)
    ensures var shown := FieldLabel(Filter(IsServed, item.fields), j);
            shown.Some? ==> Showable(shown.value.0, shown.value.1)
  {
    var served := Filter(IsServed, item.fields);
    FilterMembers(IsServed, item.fields);
    if j < |served| {
      var f := served[j];
      assert f in Filter(IsServed, item.fields);
      assert PublishableField(f.0, f.1);
    }
  }

  // ---- deriving succeeds on exactly the redactable sources ----

  ghost predicate Headers(j: Json) {
    j.JObject? && forall f :: f in j.fields ==> IsTextList(f.1)
  }

  ghost predicate RedactableField(key: string, value: Json) {
    match key
    case "at" => true
    case "status_code" => IsInt64(value)
    case "retry_after_ms" => IsInt64(value)
    case "processing_ms" => IsInt64(value)
    case "rate_limit_remaining" => IsInt64(value)
    case "rate_limit_limit" => IsInt64(value)
    case "error_type" => value.JString?
    case "error_code" => value.JString?
    case "error_msg" => value.JString?
    case "provider_model" => value.JString?
    case "provider_request_id" => value.JString?
    case "provider_server" => value.JString?
    case "response_headers" => Headers(value)
    case _ => false
  }

  ghost predicate RedactableAttempt(stamp: string -> bool, item: Json) {
    && item.JObject? && Stamped(stamp, item.fields)
    && forall f :: f in item.fields ==> RedactableField(f.0, f.1)
  }

  ghost predicate RedactableAttempts(stamp: string -> bool, t: JsonText) {
    match t
    case Blank => true
    case Malformed => false
    case Encoded(JNull) => true
    case Encoded(JArray(items)) => forall item :: item in items ==> RedactableAttempt(stamp, item)
    case _ => false
  }

  ghost predicate RedactableTools(t: JsonText) {
    match t
    case Blank => true
    case Malformed => false
    case Encoded(JNull) => true
    case Encoded(JArray(items)) => forall item :: item in items ==> item.JString?
    case _ => false
  }

  /** A source column; what an emptied column and the debug state hold is not read. */
  ghost predicate RedactableColumn(shape: Shape, cell: Cell) {
    match shape
    case IntegerField => IntegerCell(cell)
    case RealField => cell.IntCell? || cell.RealCell?
    case EmptyField => true
    case DebugField => true
    case AliasedField(_) => cell.TextCell?
  }

  /** A source row; it may lack columns that a migration fills with zero. */
  ghost predicate RedactableRow(policy: Policy, source: Record) {
    && source.id.TextCell? && source.id.s != "" && source.keyHash.TextCell?
    && source.attempts.JsonCell? && RedactableAttempts(policy.stamp, source.attempts.t)
    && source.toolNames.JsonCell? && RedactableTools(source.toolNames.t)
    && forall name :: name in policy.shape ==>
         if name in source.fields then RedactableColumn(policy.shape[name], source.fields[name])
         else name in policy.zeros
  }

  lemma {:induction false} FieldRedactsIff(names: Names, key: string, value: Json)
    ensures RedactField(names, key, value).Some? <==> RedactableField(key, value)
  {
  }

  lemma {:induction false} FieldsRedactIff(names: Names, fields: seq<(string, Json)>)
    ensures RedactFields(names, fields).Some? <==> forall f :: f in fields ==> RedactableField(f.0, f.1)
    decreases fields
  {
    if fields != [] {
      FieldRedactsIff(names, fields[0].0, fields[0].1);
      assert forall f :: f in fields <==> f == fields[0] || f in fields[1..];
      var f := RedactField(names, fields[0].0, fields[0].1);
      if f.Some? {
        FieldsRedactIff(if f.value.FieldDropped? then names else f.value.names, fields[1..]);
      }
    }
  }

  lemma {:induction false} AttemptsRedactIff(stamp: string -> bool, names: Names, items: seq<Json>)
    ensures RedactAttempts(stamp, names, items).Some? <==>
            forall item :: item in items ==> RedactableAttempt(stamp, item)
    decreases items
  {
    if items != [] {
      assert items[0] in items && forall item :: item in items <==> item == items[0] || item in items[1..];
      if items[0].JObject? {
        StampedIff(stamp, items[0].fields);
        FieldsRedactIff(names, items[0].fields);
        var fields := RedactFields(names, items[0].fields);
        if fields.Some? {
          AttemptsRedactIff(stamp, fields.value.1, items[1..]);
        }
      }
    }
  }

  lemma {:induction false} AttemptsTextRedactsIff(stamp: string -> bool, names: Names, t: JsonText)
    ensures RedactAttemptsText(stamp, names, t).Some? <==> RedactableAttempts(stamp, t)
  {
    if t.Encoded? && t.value.JArray? {
      AttemptsRedactIff(stamp, names, t.value.items);
    }
  }

  lemma {:induction false} ToolsTextRedactsIff(names: Names, t: JsonText)
    ensures RedactToolsText(names, t).Some? <==> RedactableTools(t)
  {
  }

  lemma {:induction false} ColumnsRedactIff(policy: Policy, source: Record)
    requires PolicyOK(policy) && Derivable(policy, source)
    ensures FieldsTyped(policy, Projected(policy, source).fields) <==>
            forall name :: name in policy.shape && name in source.fields ==>
              RedactableColumn(policy.shape[name], source.fields[name])
    ensures Emptied(policy, Projected(policy, source).fields)
  {
    var fields := Projected(policy, source).fields;
    assert fields.Keys == policy.shape.Keys;
    forall name | name in policy.shape
      ensures CellTyped(policy.shape[name], fields[name]) <==>
                (name in source.fields ==> RedactableColumn(policy.shape[name], source.fields[name]))
    {
      if name !in source.fields {
        assert name in policy.shape.Keys - source.fields.Keys;
      }
    }
    forall name | name in policy.shape
      ensures policy.shape[name].EmptyField? ==> fields[name] == TextCell("")
    {
      if name !in source.fields {
        assert name in policy.shape.Keys - source.fields.Keys;
      }
    }
  }

  lemma {:induction false} RowRedactsIff(policy: Policy, source: Record, number: nat, names: Names)
    requires PolicyOK(policy)
    ensures Derivable(policy, source) && RedactRecord(policy, Projected(policy, source), number, names).Some?
            <==> RedactableRow(policy, source)
  {
    assert Derivable(policy, source) <==>
           forall name :: name in policy.shape && name !in source.fields ==> name in policy.zeros;
    if Derivable(policy, source) {
      ColumnsRedactIff(policy, source);
      var record := Projected(policy, source);
      if Typed(policy, record) {
        TypedIsAliasable(policy, record.fields);
        var (_, names') := RedactAliased(policy, record.fields, names, policy.aliased);
        AttemptsTextRedactsIff(policy.stamp, names', record.attempts.t);
        var attempts := RedactAttemptsText(policy.stamp, names', record.attempts.t);
        if attempts.Some? {
          ToolsTextRedactsIff(attempts.value.1, record.toolNames.t);
        }
      }
    }
  }

  lemma {:induction false} RowsRedactIff(policy: Policy, sources: seq<Record>, number: nat, names: Names)
    requires PolicyOK(policy)
    ensures DeriveRows(policy, sources, number, names).Some? <==>
            forall source :: source in sources ==> RedactableRow(policy, source)
    decreases sources
  {
    if sources != [] {
      RowRedactsIff(policy, sources[0], number, names);
      assert forall source :: source in sources <==> source == sources[0] || source in sources[1..];
      if Derivable(policy, sources[0]) {
        var row := RedactRecord(policy, Projected(policy, sources[0]), number, names);
        if row.Some? {
          RowsRedactIff(policy, sources[1..], number + 1, row.value.1);
        }
      }
    }
  }

  /** Deriving succeeds exactly when every source row is redactable, whatever aliases it comes to give. */
  lemma {:induction false} DerivesIff(policy: Policy, digest: seq<Record> -> string, sources: seq<Record>)
    requires PolicyOK(policy)
    ensures DeriveCopy(policy, digest, sources).Some? <==>
            forall source :: source in sources ==> RedactableRow(policy, source)
  {
    RowsRedactIff(policy, sources, 1, map[]);
  }

  // ---- what deriving makes of a row ----

  /** What a source column becomes; an aliased one is told by its label. */
  ghost predicate ColumnBecomes(policy: Policy, source: Record, name: string, shown: Cell)
    requires name in policy.shape
  {
    match policy.shape[name]
    case IntegerField => shown == if name in source.fields then source.fields[name] else IntCell(0)
    case RealField => name in source.fields && shown == source.fields[name]
    case EmptyField => shown == TextCell("")
    case DebugField => shown == IntCell(0)
    case AliasedField(_) => shown.TextCell?
  }

  /** What a label becomes: a showable class and no label stay, any other gets an alias of its kind. */
  ghost predicate LabelBecomes(kind: string, read: string, shown: string) {
    if read == "" || (kind == "error type" && (read == "transport" || read == "rate_limit")) then shown == read
    else exists n: nat :: n >= 1 && shown == kind + " " + Decimal.Print(n)
  }

  lemma {:induction false} FinalBecomes(names: Names, kind: string, value: string)
    requires Inv(names) && Known(names, kind, value)
    ensures LabelBecomes(kind, value, Final(names, kind, value))
  {
    if !Passes(kind, value) {
      var known := NamesOf(names, kind);
      var n :| 1 <= n <= |known| && known[value] == Numbered(kind, n);
    }
  }

  lemma {:induction false} ColumnIsDerived(policy: Policy, source: Record, number: nat, out: Record, names: Names,
                                           name: string)
    requires PolicyOK(policy) && RowDerived(policy, source, number, out, names) && name in policy.shape
    ensures ColumnBecomes(policy, source, name, out.fields[name])
  {
    var fields := Projected(policy, source).fields;
    if name !in source.fields {
      assert name in policy.shape.Keys - source.fields.Keys;
    }
    if HasAlias(policy, name) {
      assert GotAlias(policy, fields, out.fields, names, name);
    }
  }

  /** The row with this number: its identity, its key and its columns. */
  ghost predicate RowBecomes(policy: Policy, source: Record, number: nat, out: Record) {
    && out.id == TextCell("request " + Decimal.Print(number))
    && source.keyHash.TextCell?
    && out.keyHash == TextCell(if source.keyHash.s == "" then "" else policy.mac(source.keyHash.s))
    && out.fields.Keys == policy.shape.Keys
    && forall name :: name in policy.shape ==> ColumnBecomes(policy, source, name, out.fields[name])
  }

  lemma {:induction false} RowIsDerived(policy: Policy, source: Record, number: nat, out: Record, names: Names)
    requires PolicyOK(policy) && RowDerived(policy, source, number, out, names)
    ensures RowBecomes(policy, source, number, out)
  {
    forall name | name in policy.shape
      ensures ColumnBecomes(policy, source, name, out.fields[name])
    {
      ColumnIsDerived(policy, source, number, out, names, name);
    }
  }

  lemma {:induction false} DerivedRowIs(policy: Policy, digest: seq<Record> -> string, sources: seq<Record>, i: nat)
    requires PolicyOK(policy) && DeriveCopy(policy, digest, sources).Some? && i < |sources|
    ensures var rows := DeriveCopy(policy, digest, sources).value.rows;
            |rows| == |sources| && RowBecomes(policy, sources[i], 1 + i, rows[i])
  {
    DerivedRows(policy, sources, 1, map[]);
    var (rows, names) := DeriveRows(policy, sources, 1, map[]).value;
    assert RowDerived(policy, sources[i], 1 + i, rows[i], names);
    RowIsDerived(policy, sources[i], 1 + i, rows[i], names);
  }

  /** Every label of the i-th row, wherever it stands. */
  lemma {:induction false} DerivedLabelIs(policy: Policy, digest: seq<Record> -> string, sources: seq<Record>, i: nat,
                                          place: Place)
    requires PolicyOK(policy) && DeriveCopy(policy, digest, sources).Some? && i < |sources|
    ensures var rows := DeriveCopy(policy, digest, sources).value.rows;
            |rows| == |sources| && ShownAs(Label(policy, sources[i], place), Label(policy, rows[i], place))
  {
    DerivedRows(policy, sources, 1, map[]);
    var (rows, names) := DeriveRows(policy, sources, 1, map[]).value;
    RowPlaceIsAliased(policy, sources, rows, names, i, place);
    AliasedIsShown(names, Label(policy, sources[i], place), Label(policy, rows[i], place));
  }

  ghost predicate ShownAs(read: Option<(string, string)>, shown: Option<(string, string)>) {
    if read.None? then shown.None?
    else shown.Some? && shown.value.0 == read.value.0 && LabelBecomes(read.value.0, read.value.1, shown.value.1)
  }

  lemma {:induction false} AliasedIsShown(names: Names, read: Option<(string, string)>, shown: Option<(string, string)>)
    requires Inv(names) && Aliased(names, read, shown)
    ensures ShownAs(read, shown)
  {
    if read.Some? {
      FinalBecomes(names, read.value.0, read.value.1);
    }
  }

  // ---- what the marker's numbers are ----

  predicate NamesParent(row: Record) {
    "parent_conversation_id" in row.fields && row.fields["parent_conversation_id"] != TextCell("")
  }

  lemma {:induction false} ParentsAreCounted(rows: seq<Record>)
    ensures Summarize(rows).parents == |Filter(NamesParent, rows)|
  {
    if rows != [] {
      ParentsAreCounted(rows[..|rows| - 1]);
      FilterSnoc(NamesParent, rows, |rows| - 1);
      assert rows[..|rows| - 1 + 1] == rows;
    }
  }

  predicate HasNumber(row: Record, name: string) {
    name in row.fields && (row.fields[name].IntCell? || row.fields[name].RealCell?)
  }

  function ColumnTotal(rows: seq<Record>, name: string): real
    requires forall r :: r in rows ==> HasNumber(r, name)
  {
    if rows == [] then 0.0
    else
      assert HasNumber(rows[0], name);
      (match rows[0].fields[name] case IntCell(n) => n as real case RealCell(x) => x) + ColumnTotal(rows[1..], name)
  }

  lemma {:induction false} ColumnTotalSnoc(rows: seq<Record>, name: string)
    requires rows != [] && forall r :: r in rows ==> HasNumber(r, name)
    ensures ColumnTotal(rows, name)
            == ColumnTotal(rows[..|rows| - 1], name) + ColumnTotal(rows[|rows| - 1..], name)
  {
    var n := |rows| - 1;
    if n == 0 {
      assert rows[..0] == [] && rows[0..] == rows;
    } else {
      ColumnTotalSnoc(rows[1..], name);
      assert rows[1..][..n - 1] == rows[..n][1..] && rows[1..][n - 1..] == rows[n..];
    }
  }

  lemma {:induction false} TotalIsColumnTotal(rows: seq<Record>, name: string)
    requires forall r :: r in rows ==> HasNumber(r, name)
    ensures Total(rows, name) == ColumnTotal(rows, name)
  {
    if rows != [] {
      var n := |rows| - 1;
      TotalIsColumnTotal(rows[..n], name);
      ColumnTotalSnoc(rows, name);
      assert rows[n..] == [rows[n]] && HasNumber(rows[n], name);
      assert rows[n..][1..] == [];
    }
  }

  /** The totals of a marker are those of their columns, from the first row to the last. */
  lemma {:induction false} SumsAreTotals(rows: seq<Record>, name: string)
    requires name in {"input_tokens", "output_tokens", "total_tokens", "cache_read_tokens", "cache_write_tokens",
                      "reasoning_tokens", "tool_calls", "cost"}
    requires forall r :: r in rows ==> HasNumber(r, name)
    ensures name in Summarize(rows).sums && Summarize(rows).sums[name] == ColumnTotal(rows, name)
  {
    SummaryMeans(rows);
    TotalIsColumnTotal(rows, name);
  }

  predicate StartsAt(row: Record, n: int) {
    "started_at" in row.fields && row.fields["started_at"] == IntCell(n)
  }

  /** The bounds of a marker are the earliest and the latest start of its rows. */
  lemma {:induction false} BoundsAreStarts(rows: seq<Record>)
    requires rows != [] && forall r :: r in rows ==> exists n :: StartsAt(r, n)
    ensures Summarize(rows).minStarted.Some? && Summarize(rows).maxStarted.Some?
    ensures var min, max := Summarize(rows).minStarted.value, Summarize(rows).maxStarted.value;
            && (forall r, n :: r in rows && StartsAt(r, n) ==> min <= n <= max)
            && (exists r :: r in rows && StartsAt(r, min))
            && (exists r :: r in rows && StartsAt(r, max))
  {
    SummaryMeans(rows);
    forall r, n | StartsAt(r, n)
      ensures StartOf(r) == n
    {
    }
    var min, max := Summarize(rows).minStarted.value, Summarize(rows).maxStarted.value;
    var first :| first in rows && StartOf(first) == min;
    var last :| last in rows && StartOf(last) == max;
    assert StartsAt(first, min) && StartsAt(last, max);
  }
}
