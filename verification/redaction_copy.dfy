/**
 The rows of the documentation copy (scripts/backup_db.py): deriving a copy row
 by row, verifying one, and that whatever derive writes the verifier accepts
 unchanged, with the same manifest.
 */
module RedactionCopy {
  import opened Wrappers
  import opened Sequences
  import opened Redaction
  import Decimal

  datatype Cell = IntCell(n: int) | RealCell(x: real) | TextCell(s: string) | JsonCell(t: JsonText) | OtherCell

  /** The publication policy of an ordinary column. */
  datatype Shape = IntegerField | RealField | EmptyField | DebugField | AliasedField(kind: string)

  /** A row: its four special columns, and the ordinary ones by name. */
  datatype Record = Record(id: Cell, keyHash: Cell, attempts: Cell, toolNames: Cell, fields: map<string, Cell>)

  /**
   The ordinary columns with the aliased ones in order, the columns an older
   source may lack, the time-stamp grammar and the keyed hash.
   */
  datatype Policy = Policy(shape: map<string, Shape>, aliased: seq<string>, zeros: set<string>,
                           stamp: string -> bool, mac: string -> string)

  predicate IsHash(s: string) {
    |s| == 64 && forall c :: c in s ==> Decimal.IsDigit(c) || 'a' <= c <= 'f'
  }

  ghost predicate PolicyOK(policy: Policy) {
    && (forall name :: HasAlias(policy, name) <==> name in policy.aliased)
    && (forall i, j :: 0 <= i < j < |policy.aliased| ==> policy.aliased[i] != policy.aliased[j])
    && (forall name :: name in policy.zeros ==> name in policy.shape && policy.shape[name].IntegerField?)
    && forall key :: IsHash(policy.mac(key))
  }

  predicate HasAlias(policy: Policy, name: string) {
    name in policy.shape && policy.shape[name].AliasedField?
  }

  predicate CellTyped(shape: Shape, cell: Cell) {
    match shape
    case IntegerField => cell.IntCell? && InInt64(cell.n)
    case DebugField => cell.IntCell? && InInt64(cell.n)
    case RealField => cell.IntCell? || cell.RealCell?
    case _ => cell.TextCell?
  }

  predicate Typed(policy: Policy, record: Record) {
    && record.id.TextCell? && record.keyHash.TextCell? && record.attempts.JsonCell? && record.toolNames.JsonCell?
    && FieldsTyped(policy, record.fields)
  }

  predicate FieldsTyped(policy: Policy, fields: map<string, Cell>) {
    && fields.Keys == policy.shape.Keys
    && forall name :: name in policy.shape ==> CellTyped(policy.shape[name], fields[name])
  }

  /** Nothing is left of the columns that are not served. */
  predicate Emptied(policy: Policy, fields: map<string, Cell>)
    requires fields.Keys == policy.shape.Keys
  {
    forall name :: name in policy.shape ==>
                     && (policy.shape[name].EmptyField? ==> fields[name] == TextCell(""))
                     && (policy.shape[name].DebugField? ==> fields[name] == IntCell(0))
  }

  predicate Derivable(policy: Policy, source: Record) {
    policy.shape.Keys - source.fields.Keys <= policy.zeros
  }

  /** What the query of derive reads of a source row: content is discarded, missing columns are zero. */
  function Projected(policy: Policy, source: Record): Record
    requires Derivable(policy, source)
  {
    source.(fields := map name | name in policy.shape ::
      if name !in source.fields || policy.shape[name].DebugField? then IntCell(0)
      else if policy.shape[name].EmptyField? then TextCell("")
      else source.fields[name])
  }

  // ---- one row ----

  /** The aliased columns of a typed row, in the order of the policy. */
  function RedactAliased(policy: Policy, fields: map<string, Cell>, names: Names, todo: seq<string>)
    : (map<string, Cell>, Names)
    requires forall name :: name in todo ==> Aliasable(policy, fields, name)
    decreases todo
  {
    if todo == [] then (fields, names)
    else
      var name := todo[0];
      assert name in todo && Aliasable(policy, fields, name);
      var (alias, names') := Alias(names, policy.shape[name].kind, fields[name].s);
      RestIsAliasable(policy, fields, todo, alias);
      RedactAliased(policy, fields[name := TextCell(alias)], names', todo[1..])
  }

  lemma {:induction false} RestIsAliasable(policy: Policy, fields: map<string, Cell>, todo: seq<string>, alias: string)
    requires todo != [] && forall name :: name in todo ==> Aliasable(policy, fields, name)
    ensures forall name :: name in todo[1..] ==> Aliasable(policy, fields[todo[0] := TextCell(alias)], name)
  {
    forall name | name in todo[1..]
      ensures Aliasable(policy, fields[todo[0] := TextCell(alias)], name)
    {
      assert name in todo;
      assert Aliasable(policy, fields, name);
    }
  }

  predicate Aliasable(policy: Policy, fields: map<string, Cell>, name: string) {
    HasAlias(policy, name) && name in fields && fields[name].TextCell?
  }

  function KeyAlias(policy: Policy, key: string): string {
    if key == "" then "" else policy.mac(key)
  }

  lemma {:induction false} TypedIsAliasable(policy: Policy, fields: map<string, Cell>)
    requires PolicyOK(policy) && FieldsTyped(policy, fields)
    ensures forall name :: name in policy.aliased ==> Aliasable(policy, fields, name)
  {
    forall name | name in policy.aliased
      ensures Aliasable(policy, fields, name)
    {
      assert HasAlias(policy, name);
    }
  }

  /** _record with aliases */
  function RedactRecord(policy: Policy, record: Record, number: nat, names: Names): Option<(Record, Names)>
    requires PolicyOK(policy)
  {
    if !Typed(policy, record) || record.id.s == "" || !Emptied(policy, record.fields) then None
    else
      TypedIsAliasable(policy, record.fields);
      var (fields, names') := RedactAliased(policy, record.fields, names, policy.aliased);
      var attempts := RedactAttemptsText(policy.stamp, names', record.attempts.t);
      if attempts.None? then None
      else
        var tools := RedactToolsText(attempts.value.1, record.toolNames.t);
        if tools.None? then None
        else
          Some((Record(TextCell(Numbered("request", number)), TextCell(KeyAlias(policy, record.keyHash.s)),
                       JsonCell(attempts.value.0), JsonCell(tools.value.0), fields),
                tools.value.1))
  }

  predicate AliasesValid(policy: Policy, fields: map<string, Cell>)
    requires FieldsTyped(policy, fields)
  {
    forall name :: name in policy.shape && HasAlias(policy, name) ==>
      AliasValid(policy.shape[name].kind, fields[name].s)
  }

  /** _record without aliases: the row as its JSON columns re-encode, if every check passes. */
  function VerifyRecord(policy: Policy, record: Record): Option<Record> {
    if !Typed(policy, record) || !AliasesValid(policy, record.fields)
       || record.id.s == "" || !AliasValid("request", record.id.s)
       || !(record.keyHash.s == "" || IsHash(record.keyHash.s))
       || !Emptied(policy, record.fields) then None
    else
      var attempts := VerifyAttemptsText(policy.stamp, record.attempts.t);
      var tools := VerifyToolsText(record.toolNames.t);
      if attempts.None? || tools.None? then None
      else Some(record.(attempts := JsonCell(attempts.value), toolNames := JsonCell(tools.value)))
  }

  /** The alias that a column got: the final one of its label. */
  ghost predicate GotAlias(policy: Policy, fields: map<string, Cell>, out: map<string, Cell>, names: Names,
                           name: string)
  {
    && Aliasable(policy, fields, name) && name in out
    && IsFinal(names, policy.shape[name].kind, fields[name].s, out[name])
  }

  ghost predicate IsFinal(names: Names, kind: string, value: string, cell: Cell) {
    && Known(names, kind, value) && cell == TextCell(Final(names, kind, value))
    && AliasValid(kind, Final(names, kind, value))
  }

  lemma {:induction false} GotAliasStays(policy: Policy, fields: map<string, Cell>, out: map<string, Cell>,
                                         names: Names, names': Names, name: string)
    requires GotAlias(policy, fields, out, names, name) && Extends(names, names')
    ensures GotAlias(policy, fields, out, names', name)
  {
    FinalIsStable(names, names', policy.shape[name].kind, fields[name].s);
  }

  lemma {:induction false} AliasingTouchesOnly(policy: Policy, fields: map<string, Cell>, names: Names,
                                               todo: seq<string>)
    requires forall name :: name in todo ==> Aliasable(policy, fields, name)
    ensures var out := RedactAliased(policy, fields, names, todo).0;
            && out.Keys == fields.Keys
            && forall name :: name in fields && name !in todo ==> out[name] == fields[name]
    decreases todo
  {
    if todo != [] {
      var name, rest := todo[0], todo[1..];
      assert name in todo && Aliasable(policy, fields, name);
      var (alias, names') := Alias(names, policy.shape[name].kind, fields[name].s);
      RestIsAliasable(policy, fields, todo, alias);
      AliasingTouchesOnly(policy, fields[name := TextCell(alias)], names', rest);
      assert forall other :: other in rest ==> other in todo;
    }
  }

  /** One column of the pass. */
  lemma {:induction false} AliasOneColumn(policy: Policy, fields: map<string, Cell>, names: Names, name: string)
    requires Inv(names) && Aliasable(policy, fields, name)
    ensures var (alias, names') := Alias(names, policy.shape[name].kind, fields[name].s);
            NamesGrow(names, names') && GotAlias(policy, fields, fields[name := TextCell(alias)], names', name)
  {
    AliasStep(names, policy.shape[name].kind, fields[name].s);
  }

  lemma {:induction false} GrowthIsTransitive(a: Names, b: Names, c: Names)
    requires NamesGrow(a, b) && NamesGrow(b, c)
    ensures NamesGrow(a, c)
  {
  }

  /** The aliasing pass: its columns get their final aliases. */
  lemma {:induction false} AliasingPass(policy: Policy, fields: map<string, Cell>, names: Names, todo: seq<string>)
    requires Inv(names)
    requires forall name :: name in todo ==> Aliasable(policy, fields, name)
    requires forall i, j :: 0 <= i < j < |todo| ==> todo[i] != todo[j]
    ensures var (out, names') := RedactAliased(policy, fields, names, todo);
            NamesGrow(names, names') && forall name :: name in todo ==> GotAlias(policy, fields, out, names', name)
    decreases todo
  {
    if todo != [] {
      var name, rest := todo[0], todo[1..];
      assert name in todo;
      AliasOneColumn(policy, fields, names, name);
      var (alias, names') := Alias(names, policy.shape[name].kind, fields[name].s);
      var step := fields[name := TextCell(alias)];
      RestIsAliasable(policy, fields, todo, alias);
      AliasingPass(policy, step, names', rest);
      AliasingTouchesOnly(policy, step, names', rest);
      var (out, names'') := RedactAliased(policy, step, names', rest);
      assert name !in rest by {
        assert forall k :: 0 <= k < |rest| ==> rest[k] == todo[k + 1];
      }
      GrowthIsTransitive(names, names', names'');
      GotAliasStays(policy, fields, step, names', names'', name);
      AliasesAreThose(policy, fields, step, out, names'', todo);
    }
  }

  /** The rest of the pass aliased its columns as they were before the first one was. */
  lemma {:induction false} AliasesAreThose(policy: Policy, fields: map<string, Cell>, step: map<string, Cell>,
                                           out: map<string, Cell>, names: Names, todo: seq<string>)
    requires todo != [] && forall i, j :: 0 <= i < j < |todo| ==> todo[i] != todo[j]
    requires todo[0] in fields && step.Keys == fields.Keys && out.Keys == fields.Keys
    requires forall name :: name in fields && name != todo[0] ==> step[name] == fields[name]
    requires out[todo[0]] == step[todo[0]] && GotAlias(policy, fields, step, names, todo[0])
    requires forall name :: name in todo[1..] ==> GotAlias(policy, step, out, names, name)
    ensures forall name :: name in todo ==> GotAlias(policy, fields, out, names, name)
  {
    forall name | name in todo
      ensures GotAlias(policy, fields, out, names, name)
    {
      if name != todo[0] {
        assert name in todo[1..];
        assert GotAlias(policy, step, out, names, name);
      }
    }
  }

  // ---- a derived row passes the verifier unchanged ----

  /** The ordinary columns of a derived row. */
  ghost predicate FieldsDerived(policy: Policy, fields: map<string, Cell>, out: map<string, Cell>, names: Names) {
    && out.Keys == fields.Keys == policy.shape.Keys
    && (forall name :: HasAlias(policy, name) ==> GotAlias(policy, fields, out, names, name))
    && forall name :: name in policy.shape && !HasAlias(policy, name) ==> out[name] == fields[name]
  }

  lemma {:induction false} FieldsAreDerived(policy: Policy, fields: map<string, Cell>, names: Names)
    requires PolicyOK(policy) && Inv(names) && FieldsTyped(policy, fields)
    ensures forall name :: name in policy.aliased ==> Aliasable(policy, fields, name)
    ensures var (out, names') := RedactAliased(policy, fields, names, policy.aliased);
            NamesGrow(names, names') && FieldsDerived(policy, fields, out, names')
  {
    TypedIsAliasable(policy, fields);
    AliasingPass(policy, fields, names, policy.aliased);
    AliasingTouchesOnly(policy, fields, names, policy.aliased);
  }

  lemma {:induction false} DerivedFieldsPass(policy: Policy, fields: map<string, Cell>, out: map<string, Cell>,
                                             names: Names)
    requires FieldsTyped(policy, fields) && Emptied(policy, fields) && FieldsDerived(policy, fields, out, names)
    ensures FieldsTyped(policy, out) && Emptied(policy, out) && AliasesValid(policy, out)
  {
    forall name | name in policy.shape
      ensures CellTyped(policy.shape[name], out[name])
      ensures HasAlias(policy, name) ==> AliasValid(policy.shape[name].kind, out[name].s)
    {
      if HasAlias(policy, name) {
        assert GotAlias(policy, fields, out, names, name);
      }
    }
  }

  lemma {:induction false} DerivedFieldsStay(policy: Policy, fields: map<string, Cell>, out: map<string, Cell>,
                                             names: Names, names': Names)
    requires FieldsDerived(policy, fields, out, names) && Extends(names, names')
    ensures FieldsDerived(policy, fields, out, names')
  {
    forall name | HasAlias(policy, name)
      ensures GotAlias(policy, fields, out, names', name)
    {
      GotAliasStays(policy, fields, out, names, names', name);
    }
  }

  /** A key is shown by its keyed hash, and no key by nothing. */
  predicate HashedKey(policy: Policy, key: string, cell: Cell) {
    cell == TextCell(if key == "" then "" else policy.mac(key))
  }

  /** The JSON columns of a derived row. */
  ghost predicate JsonDerived(record: Record, out: Record, names: Names) {
    && record.attempts.JsonCell? && out.attempts.JsonCell? && record.toolNames.JsonCell? && out.toolNames.JsonCell?
    && AttemptsTextServed(names, record.attempts.t, out.attempts.t)
    && ToolsTextServed(names, record.toolNames.t, out.toolNames.t)
  }

  lemma {:induction false} DerivedRowPasses(policy: Policy, record: Record, number: nat, names: Names)
    requires PolicyOK(policy) && Inv(names) && number >= 1
    requires RedactRecord(policy, record, number, names).Some?
    ensures var (out, names') := RedactRecord(policy, record, number, names).value;
            && NamesGrow(names, names')
            && FieldsDerived(policy, record.fields, out.fields, names')
            && out.id == TextCell(Numbered("request", number))
            && record.keyHash.TextCell? && HashedKey(policy, record.keyHash.s, out.keyHash)
            && JsonDerived(record, out, names')
            && VerifyRecord(policy, out) == Some(out)
  {
    FieldsAreDerived(policy, record.fields, names);
    var (fields, names1) := RedactAliased(policy, record.fields, names, policy.aliased);
    DerivedFieldsPass(policy, record.fields, fields, names1);
    var attempts := RedactAttemptsText(policy.stamp, names1, record.attempts.t);
    JsonColumnsAreFixed(policy.stamp, names1, record.attempts.t, Blank);
    JsonColumnsAreFixed(policy.stamp, attempts.value.1, Blank, record.toolNames.t);
    JsonColumnsAreThose(policy.stamp, names1, record.attempts.t, Blank);
    JsonColumnsAreThose(policy.stamp, attempts.value.1, Blank, record.toolNames.t);
    var (out, names') := RedactRecord(policy, record, number, names).value;
    TextsServedStay(attempts.value.1, names', record.attempts.t, attempts.value.0);
    DerivedFieldsStay(policy, record.fields, fields, names1, names');
    NumberedIsValid("request", number);
    assert IsHash(policy.mac(record.keyHash.s));
  }

  // ---- the manifest ----

  datatype Summary = Summary(records: nat, minStarted: Option<int>, maxStarted: Option<int>,
                             parents: nat, sums: map<string, real>)

  const SUMMARY_SUMS := {"input_tokens", "output_tokens", "total_tokens", "cache_read_tokens",
                         "cache_write_tokens", "reasoning_tokens", "tool_calls", "cost"}

  function Amount(cell: Cell): real {
    match cell
    case IntCell(n) => n as real
    case RealCell(x) => x
    case _ => 0.0
  }

  function AmountOf(record: Record, name: string): real {
    if name in record.fields then Amount(record.fields[name]) else 0.0
  }

  function StartOf(record: Record): int {
    if "started_at" in record.fields && record.fields["started_at"].IntCell? then record.fields["started_at"].n else 0
  }

  predicate HasParent(record: Record) {
    "parent_conversation_id" in record.fields && record.fields["parent_conversation_id"] != TextCell("")
  }

  const EMPTY_SUMMARY := Summary(0, None, None, 0, map name | name in SUMMARY_SUMS :: 0.0)

  function AddRow(summary: Summary, record: Record): Summary
    requires summary.sums.Keys == SUMMARY_SUMS
  {
    var start := StartOf(record);
    Summary(summary.records + 1,
            if summary.minStarted.Some? && summary.minStarted.value < start then summary.minStarted else Some(start),
            if summary.maxStarted.Some? && summary.maxStarted.value > start then summary.maxStarted else Some(start),
            summary.parents + (if HasParent(record) then 1 else 0),
            map name | name in SUMMARY_SUMS :: summary.sums[name] + AmountOf(record, name))
  }

  function Summarize(rows: seq<Record>): (summary: Summary)
    ensures summary.sums.Keys == SUMMARY_SUMS
  {
    if rows == [] then EMPTY_SUMMARY else AddRow(Summarize(rows[..|rows| - 1]), rows[|rows| - 1])
  }

  function Total(rows: seq<Record>, name: string): real {
    if rows == [] then 0.0 else Total(rows[..|rows| - 1], name) + AmountOf(rows[|rows| - 1], name)
  }

  /** What the marker's numbers say about the rows. */
  lemma {:induction false} SummaryMeans(rows: seq<Record>)
    ensures var summary := Summarize(rows);
            && summary.records == |rows|
            && (rows == [] <==> summary.minStarted.None?) && (rows == [] <==> summary.maxStarted.None?)
            && (forall r :: r in rows ==> summary.minStarted.value <= StartOf(r) <= summary.maxStarted.value)
            && (rows != [] ==> exists r :: r in rows && StartOf(r) == summary.minStarted.value)
            && (rows != [] ==> exists r :: r in rows && StartOf(r) == summary.maxStarted.value)
            && forall name :: name in SUMMARY_SUMS ==> summary.sums[name] == Total(rows, name)
  {
    if rows != [] {
      var front, last := rows[..|rows| - 1], rows[|rows| - 1];
      SummaryMeans(front);
      assert rows == front + [last];
      assert last in rows;
    }
  }

  /** _Manifest: the digest is the hash of what was fed to it, so the fed rows stand for it. */
  class Manifest {
    var fed: seq<Record>
    var summary: Summary

    ghost predicate Valid()
      reads this
    {
      summary == Summarize(fed)
    }

    constructor ()
      ensures Valid() && fed == []
    {
      fed, summary := [], EMPTY_SUMMARY;
    }

    method Add(record: Record)
      requires Valid()
      modifies this
      ensures Valid() && fed == old(fed) + [record]
    {
      assert (fed + [record])[..|fed|] == fed;
      fed := fed + [record];
      summary := AddRow(summary, record);
    }
  }

  // ---- the whole copy ----

  datatype Marker = Marker(digest: string, summary: Summary)

  datatype Copy = Copy(rows: seq<Record>, marker: Marker)

  function DeriveRows(policy: Policy, sources: seq<Record>, number: nat, names: Names): Option<(seq<Record>, Names)>
    requires PolicyOK(policy)
    decreases sources
  {
    if sources == [] then Some(([], names))
    else if !Derivable(policy, sources[0]) then None
    else
      var row := RedactRecord(policy, Projected(policy, sources[0]), number, names);
      if row.None? then None
      else
        var rest := DeriveRows(policy, sources[1..], number + 1, row.value.1);
        if rest.None? then None else Some(([row.value.0] + rest.value.0, rest.value.1))
  }

  function VerifyRows(policy: Policy, rows: seq<Record>): Option<seq<Record>>
  {
    if rows == [] then Some([])
    else
      var row, rest := VerifyRecord(policy, rows[0]), VerifyRows(policy, rows[1..]);
      if row.None? || rest.None? then None else Some([row.value] + rest.value)
  }

  /** What derive promises of one row, under the aliases as they are at its end. */
  ghost predicate RowDerived(policy: Policy, source: Record, number: nat, out: Record, names: Names) {
    && Derivable(policy, source)
    && FieldsDerived(policy, Projected(policy, source).fields, out.fields, names)
    && JsonDerived(source, out, names)
    && out.id == TextCell(Numbered("request", number))
    && source.keyHash.TextCell? && HashedKey(policy, source.keyHash.s, out.keyHash)
  }

  lemma {:induction false} RowStaysDerived(policy: Policy, source: Record, number: nat, out: Record, names: Names,
                                           names': Names)
    requires RowDerived(policy, source, number, out, names) && Extends(names, names')
    ensures RowDerived(policy, source, number, out, names')
  {
    DerivedFieldsStay(policy, Projected(policy, source).fields, out.fields, names, names');
    TextsServedStay(names, names', source.attempts.t, out.attempts.t);
    TextsServedStay(names, names', source.toolNames.t, out.toolNames.t);
  }

  ghost predicate RowsDerived(policy: Policy, sources: seq<Record>, number: nat, rows: seq<Record>, names: Names) {
    && |rows| == |sources|
    && forall i :: 0 <= i < |rows| ==> RowDerived(policy, sources[i], number + i, rows[i], names)
  }

  lemma {:induction false} RowsDerivedCons(policy: Policy, sources: seq<Record>, number: nat, row: Record,
                                           rest: seq<Record>, names: Names)
    requires sources != [] && RowDerived(policy, sources[0], number, row, names)
    requires RowsDerived(policy, sources[1..], number + 1, rest, names)
    ensures RowsDerived(policy, sources, number, [row] + rest, names)
  {
    var rows := [row] + rest;
    forall i | 0 <= i < |rows|
      ensures RowDerived(policy, sources[i], number + i, rows[i], names)
    {
      if i > 0 {
        assert RowDerived(policy, sources[1..][i - 1], number + 1 + (i - 1), rest[i - 1], names);
      }
    }
  }

  /** Every row of a derivation. */
  lemma {:induction false} DerivedRows(policy: Policy, sources: seq<Record>, number: nat, names: Names)
    requires PolicyOK(policy) && Inv(names) && number >= 1
    requires DeriveRows(policy, sources, number, names).Some?
    ensures var (rows, names') := DeriveRows(policy, sources, number, names).value;
            && NamesGrow(names, names')
            && VerifyRows(policy, rows) == Some(rows)
            && RowsDerived(policy, sources, number, rows, names')
    decreases sources
  {
    if sources != [] {
      var source := Projected(policy, sources[0]);
      DerivedRowPasses(policy, source, number, names);
      var (row, mid) := RedactRecord(policy, source, number, names).value;
      DerivedRows(policy, sources[1..], number + 1, mid);
      var (rest, names') := DeriveRows(policy, sources[1..], number + 1, mid).value;
      RowStaysDerived(policy, sources[0], number, row, mid, names');
      RowsDerivedCons(policy, sources, number, row, rest, names');
      assert ([row] + rest)[1..] == rest;
    }
  }

  function DeriveCopy(policy: Policy, digest: seq<Record> -> string, sources: seq<Record>): Option<Copy>
    requires PolicyOK(policy)
  {
    var r := DeriveRows(policy, sources, 1, map[]);
    if r.None? then None else Some(Copy(r.value.0, Marker(digest(r.value.0), Summarize(r.value.0))))
  }

  /** verify_docs_copy: the numbers of the marker, if every row passes and the marker is rebuilt. */
  function VerifyCopy(policy: Policy, digest: seq<Record> -> string, copy: Copy): Option<Summary>
  {
    var r := VerifyRows(policy, copy.rows);
    if r.None? || copy.marker != Marker(digest(r.value), Summarize(r.value)) then None
    else Some(copy.marker.summary)
  }

  /** Whatever derive writes, the verifier accepts, and reports the summary that derive wrote. */
  lemma {:induction false} DeriveThenVerify(policy: Policy, digest: seq<Record> -> string, sources: seq<Record>)
    requires PolicyOK(policy)
    requires DeriveCopy(policy, digest, sources).Some?
    ensures var copy := DeriveCopy(policy, digest, sources).value;
            VerifyCopy(policy, digest, copy) == Some(Summarize(copy.rows))
  {
    DerivedRows(policy, sources, 1, map[]);
  }

  // ---- what the copy shows of its labels ----

  /** Where a label stands in a row: a column, a served field of an attempt, an entry of the tool names. */
  datatype Place = Column(name: string) | AttemptField(k: nat, i: nat) | Tool(k: nat)

  /** The label at a place of a source row or of a copied one, with its kind; None where there is none. */
  function Label(policy: Policy, record: Record, place: Place): Option<(string, string)> {
    match place
    case Column(name) =>
      if Aliasable(policy, record.fields, name) then Some((policy.shape[name].kind, record.fields[name].s)) else None
    case AttemptField(k, i) =>
      var items := ItemsOf(record.attempts);
      if k < |items| && items[k].JObject? then FieldLabel(Filter(IsServed, items[k].fields), i) else None
    case Tool(k) =>
      var items := ItemsOf(record.toolNames);
      if k < |items| && items[k].JString? then Some(("tool", items[k].s)) else None
  }

  function ItemsOf(cell: Cell): seq<Json> {
    if cell.JsonCell? && cell.t.Encoded? && cell.t.value.JArray? then cell.t.value.items else []
  }

  function FieldLabel(fields: seq<(string, Json)>, i: nat): Option<(string, string)> {
    if i < |fields| && DetailKind(fields[i].0).Some? && fields[i].1.JString?
    then Some((DetailKind(fields[i].0).value, fields[i].1.s)) else None
  }

  /** The alias of a label, or no label in either row. */
  ghost predicate Aliased(names: Names, read: Option<(string, string)>, shown: Option<(string, string)>) {
    if read.None? then shown.None?
    else
      && Known(names, read.value.0, read.value.1)
      && shown == Some((read.value.0, Final(names, read.value.0, read.value.1)))
  }

  lemma {:induction false} ColumnIsAliased(policy: Policy, source: Record, number: nat, out: Record, names: Names,
                                           name: string)
    requires PolicyOK(policy) && RowDerived(policy, source, number, out, names)
    ensures Aliased(names, Label(policy, source, Column(name)), Label(policy, out, Column(name)))
  {
    var fields := Projected(policy, source).fields;
    if HasAlias(policy, name) {
      assert GotAlias(policy, fields, out.fields, names, name);
      assert name !in policy.zeros;
      assert fields[name] == source.fields[name];
    }
  }

  lemma {:induction false} AttemptFieldIsAliased(names: Names, item: Json, out: Json, i: nat)
    requires AttemptServed(names, item, out)
    ensures Aliased(names, FieldLabel(Filter(IsServed, item.fields), i), FieldLabel(Filter(IsServed, out.fields), i))
  {
    var served := Filter(IsServed, item.fields);
    FilterMembers(IsServed, item.fields);
    forall f | f in out.fields
      ensures IsServed(f)
    {
      var n :| 0 <= n < |out.fields| && out.fields[n] == f;
      assert FieldServed(names, served[n], out.fields[n]) && served[n] in served;
    }
    FilterAll(IsServed, out.fields);
    if i < |served| {
      assert FieldServed(names, served[i], out.fields[i]);
    }
  }

  /** Every place of a derived row, whatever it holds. */
  lemma {:induction false} PlaceIsAliased(policy: Policy, source: Record, number: nat, out: Record, names: Names,
                                          place: Place)
    requires PolicyOK(policy) && RowDerived(policy, source, number, out, names)
    ensures Aliased(names, Label(policy, source, place), Label(policy, out, place))
  {
    match place {
      case Column(name) => ColumnIsAliased(policy, source, number, out, names, name);
      case AttemptField(k, i) =>
        var items, shown := ItemsOf(source.attempts), ItemsOf(out.attempts);
        if k < |items| {
          assert AttemptServed(names, items[k], shown[k]);
          AttemptFieldIsAliased(names, items[k], shown[k], i);
        }
      case Tool(k) =>
        var items, shown := ItemsOf(source.toolNames), ItemsOf(out.toolNames);
        if k < |items| {
          assert ToolServed(names, items[k], shown[k]);
        }
    }
  }

  /** x and y are labels where a and b are, of the same kinds; of one kind, they are equal exactly when a and b are. */
  predicate SameEquality(a: Option<(string, string)>, b: Option<(string, string)>,
                         x: Option<(string, string)>, y: Option<(string, string)>)
  {
    && (x.Some? <==> a.Some?) && (y.Some? <==> b.Some?)
    && (a.Some? ==> x.value.0 == a.value.0) && (b.Some? ==> y.value.0 == b.value.0)
    && (a.Some? && b.Some? && a.value.0 == b.value.0 ==> (x.value.1 == y.value.1 <==> a.value.1 == b.value.1))
  }

  /**
   What the copy shows of its labels. It has a label of the same kind at exactly
   the places where the source has one, and two labels of a kind, anywhere in the
   copy, are the same exactly when they were the same in the source.
   */
  lemma {:induction false} AliasesShowEqualityOnly(policy: Policy, digest: seq<Record> -> string, sources: seq<Record>,
                                                   i: nat, p: Place, j: nat, q: Place)
    requires PolicyOK(policy) && DeriveCopy(policy, digest, sources).Some?
    requires i < |sources| && j < |sources|
    ensures var rows := DeriveCopy(policy, digest, sources).value.rows;
            && |rows| == |sources|
            && SameEquality(Label(policy, sources[i], p), Label(policy, sources[j], q),
                            Label(policy, rows[i], p), Label(policy, rows[j], q))
  {
    DerivedRows(policy, sources, 1, map[]);
    var (rows, names) := DeriveRows(policy, sources, 1, map[]).value;
    PlacesCompare(policy, sources, rows, names, i, p, j, q);
  }

  lemma {:induction false} RowPlaceIsAliased(policy: Policy, sources: seq<Record>, rows: seq<Record>, names: Names,
                                             i: nat, place: Place)
    requires PolicyOK(policy) && RowsDerived(policy, sources, 1, rows, names) && i < |sources|
    ensures Aliased(names, Label(policy, sources[i], place), Label(policy, rows[i], place))
  {
    assert RowDerived(policy, sources[i], 1 + i, rows[i], names);
    PlaceIsAliased(policy, sources[i], 1 + i, rows[i], names, place);
  }

  lemma {:induction false} PlacesCompare(policy: Policy, sources: seq<Record>, rows: seq<Record>, names: Names,
                                         i: nat, p: Place, j: nat, q: Place)
    requires PolicyOK(policy) && Inv(names) && RowsDerived(policy, sources, 1, rows, names)
    requires i < |sources| && j < |sources|
    ensures SameEquality(Label(policy, sources[i], p), Label(policy, sources[j], q),
                         Label(policy, rows[i], p), Label(policy, rows[j], q))
  {
    RowPlaceIsAliased(policy, sources, rows, names, i, p);
    RowPlaceIsAliased(policy, sources, rows, names, j, q);
    AliasedCompare(names, Label(policy, sources[i], p), Label(policy, sources[j], q),
                   Label(policy, rows[i], p), Label(policy, rows[j], q));
  }

  lemma {:induction false} AliasedCompare(names: Names, a: Option<(string, string)>, b: Option<(string, string)>,
                                          x: Option<(string, string)>, y: Option<(string, string)>)
    requires Inv(names) && Aliased(names, a, x) && Aliased(names, b, y)
    ensures SameEquality(a, b, x, y)
  {
    if a.Some? && b.Some? && a.value.0 == b.value.0 && x.value.1 == y.value.1 {
      FinalIsInjective(names, a.value.0, a.value.1, b.value.1);
    }
  }

  /** The identities of the copy are distinct, as its primary key demands. */
  lemma {:induction false} IdentitiesAreDistinct(policy: Policy, digest: seq<Record> -> string, sources: seq<Record>,
                                                 i: nat, j: nat)
    requires PolicyOK(policy) && DeriveCopy(policy, digest, sources).Some?
    requires i < j < |sources|
    ensures var rows := DeriveCopy(policy, digest, sources).value.rows;
            |rows| == |sources| && rows[i].id != rows[j].id
  {
    DerivedRows(policy, sources, 1, map[]);
    var (rows, names) := DeriveRows(policy, sources, 1, map[]).value;
    NumbersDiffer(policy, sources, rows, names, i, j);
  }

  lemma {:induction false} NumbersDiffer(policy: Policy, sources: seq<Record>, rows: seq<Record>, names: Names,
                                         i: nat, j: nat)
    requires RowsDerived(policy, sources, 1, rows, names) && i < j < |sources|
    ensures rows[i].id != rows[j].id
  {
    assert RowDerived(policy, sources[i], 1 + i, rows[i], names);
    assert RowDerived(policy, sources[j], 1 + j, rows[j], names);
    if Numbered("request", 1 + i) == Numbered("request", 1 + j) {
      NumberedDiffer("request", 1 + i, 1 + j);
    }
  }
}
