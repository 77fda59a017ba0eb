/**
 The documentation copy as the program it is (scripts/backup_db.py): the alias
 table and the manifest are updated row by row, and the loops over aliased
 columns, attempts, tool names and rows are proved against the functions of
 Redaction and RedactionCopy.
 */
module RedactionLoops {
  import opened Wrappers
  import opened Redaction
  import opened RedactionCopy
  import Decimal

  /** _Aliases */
  class AliasTable {
    var names: Names

    constructor ()
      ensures names == map[]
    {
      names := map[];
    }

    method Give(kind: string, value: string) returns (alias: string)
      modifies this
      ensures (alias, names) == Alias(old(names), kind, value)
    {
      if Passes(kind, value) {
        return value;
      }
      var known := if kind in names then names[kind] else map[];
      if value !in known {
        known := known[value := kind + " " + Decimal.Print(|known| + 1)];
      }
      names := names[kind := known];
      return known[value];
    }

    /** The kept fields of one attempt, in order. */
    method RedactAttempt(fields: seq<(string, Json)>) returns (r: Option<seq<(string, Json)>>)
      modifies this
      ensures r.Some? <==> RedactFields(old(names), fields).Some?
      ensures r.Some? ==> RedactFields(old(names), fields) == Some((r.value, names))
    {
      var out: seq<(string, Json)> := [];
      assert fields[0..] == fields;
      NothingBefore(RedactFields(names, fields));
      for i := 0 to |fields|
        invariant RedactFields(old(names), fields) == After(out, RedactFields(names, fields[i..]))
      {
        var (key, value) := fields[i];
        assert fields[i..][0] == fields[i] && fields[i..][1..] == fields[i + 1..];
        if key in DROPPED_FIELDS {
          if !DroppedShape(key, value) {
            return None;
          }
        } else if key in METRIC_FIELDS {
          if !value.JInt? || !InInt64(value.n) {
            return None;
          }
          AfterAfter(out, [(key, value)], RedactFields(names, fields[i + 1..]));
          out := out + [(key, value)];
        } else if key == "at" {
          AfterAfter(out, [(key, value)], RedactFields(names, fields[i + 1..]));
          out := out + [(key, value)];
        } else {
          if DetailKind(key).None? || !value.JString? {
            return None;
          }
          var alias := Give(DetailKind(key).value, value.s);
          AfterAfter(out, [(key, JString(alias))], RedactFields(names, fields[i + 1..]));
          out := out + [(key, JString(alias))];
        }
      }
      assert fields[|fields|..] == [] && out + [] == out;
      return Some(out);
    }

    method RedactAttemptList(stamp: string -> bool, items: seq<Json>) returns (r: Option<seq<Json>>)
      modifies this
      ensures r.Some? <==> RedactAttempts(stamp, old(names), items).Some?
      ensures r.Some? ==> RedactAttempts(stamp, old(names), items) == Some((r.value, names))
    {
      var out: seq<Json> := [];
      assert items[0..] == items;
      NothingBefore(RedactAttempts(stamp, names, items));
      for i := 0 to |items|
        invariant RedactAttempts(stamp, old(names), items) == After(out, RedactAttempts(stamp, names, items[i..]))
      {
        assert items[i..][0] == items[i] && items[i..][1..] == items[i + 1..];
        if !items[i].JObject? || !AttemptStamped(stamp, items[i].fields) {
          return None;
        }
        var fields := RedactAttempt(items[i].fields);
        if fields.None? {
          return None;
        }
        AfterAfter(out, [JObject(fields.value)], RedactAttempts(stamp, names, items[i + 1..]));
        out := out + [JObject(fields.value)];
      }
      assert items[|items|..] == [] && out + [] == out;
      return Some(out);
    }

    method RedactToolList(items: seq<Json>) returns (out: seq<Json>)
      requires forall item :: item in items ==> IsText(item)
      modifies this
      ensures RedactTools(old(names), items) == (out, names)
    {
      out := [];
      assert items[0..] == items && out + RedactTools(names, items).0 == RedactTools(names, items).0;
      for i := 0 to |items|
        invariant RedactTools(old(names), items)
                  == (out + RedactTools(names, items[i..]).0, RedactTools(names, items[i..]).1)
      {
        assert items[i..][0] == items[i] && items[i..][1..] == items[i + 1..];
        assert IsText(items[i]);
        var alias := Give("tool", items[i].s);
        assert out + ([JString(alias)] + RedactTools(names, items[i + 1..]).0)
            == out + [JString(alias)] + RedactTools(names, items[i + 1..]).0;
        out := out + [JString(alias)];
      }
      assert items[|items|..] == [] && out + [] == out;
    }

    method RedactAttemptsColumn(stamp: string -> bool, t: JsonText) returns (r: Option<JsonText>)
      modifies this
      ensures r.Some? <==> RedactAttemptsText(stamp, old(names), t).Some?
      ensures r.Some? ==> RedactAttemptsText(stamp, old(names), t) == Some((r.value, names))
    {
      if t.Malformed? {
        return None;
      }
      if NoValue(t) {
        return Some(Encoded(JNull));
      }
      if !t.value.JArray? {
        return None;
      }
      var list := RedactAttemptList(stamp, t.value.items);
      return if list.None? then None else Some(Encoded(JArray(list.value)));
    }

    method RedactToolsColumn(t: JsonText) returns (r: Option<JsonText>)
      modifies this
      ensures r.Some? <==> RedactToolsText(old(names), t).Some?
      ensures r.Some? ==> RedactToolsText(old(names), t) == Some((r.value, names))
    {
      if t.Malformed? {
        return None;
      }
      if NoValue(t) {
        return Some(Encoded(JNull));
      }
      if !IsTextList(t.value) {
        return None;
      }
      var list := RedactToolList(t.value.items);
      return Some(Encoded(JArray(list)));
    }

    /** _record with aliases */
    method RedactRow(policy: Policy, record: Record, number: nat) returns (r: Option<Record>)
      requires PolicyOK(policy)
      modifies this
      ensures r.Some? <==> RedactRecord(policy, record, number, old(names)).Some?
      ensures r.Some? ==> RedactRecord(policy, record, number, old(names)) == Some((r.value, names))
    {
      if !Typed(policy, record) || record.id.s == "" || !Emptied(policy, record.fields) {
        return None;
      }
      TypedIsAliasable(policy, record.fields);
      var fields := RedactColumns(policy, record.fields);
      var attempts := RedactAttemptsColumn(policy.stamp, record.attempts.t);
      if attempts.None? {
        return None;
      }
      var tools := RedactToolsColumn(record.toolNames.t);
      if tools.None? {
        return None;
      }
      return Some(Record(TextCell(Numbered("request", number)), TextCell(KeyAlias(policy, record.keyHash.s)),
                         JsonCell(attempts.value), JsonCell(tools.value), fields));
    }

    method RedactColumns(policy: Policy, source: map<string, Cell>) returns (fields: map<string, Cell>)
      requires forall name :: name in policy.aliased ==> Aliasable(policy, source, name)
      modifies this
      ensures (fields, names) == RedactAliased(policy, source, old(names), policy.aliased)
    {
      fields := source;
      assert policy.aliased[0..] == policy.aliased;
      for i := 0 to |policy.aliased|
        invariant forall name :: name in policy.aliased[i..] ==> Aliasable(policy, fields, name)
        invariant RedactAliased(policy, source, old(names), policy.aliased)
                  == RedactAliased(policy, fields, names, policy.aliased[i..])
      {
        var name := policy.aliased[i];
        assert policy.aliased[i..][0] == name && policy.aliased[i..][1..] == policy.aliased[i + 1..];
        assert Aliasable(policy, fields, name);
        var alias := Give(policy.shape[name].kind, fields[name].s);
        RestIsAliasable(policy, fields, policy.aliased[i..], alias);
        fields := fields[name := TextCell(alias)];
      }
      assert policy.aliased[|policy.aliased|..] == [];
    }
  }

  ghost function After<T>(out: seq<T>, r: Option<(seq<T>, Names)>): Option<(seq<T>, Names)> {
    if r.None? then None else Some((out + r.value.0, r.value.1))
  }

  lemma {:induction false} AfterAfter<T>(out: seq<T>, more: seq<T>, r: Option<(seq<T>, Names)>)
    ensures After(out, After(more, r)) == After(out + more, r)
  {
    if r.Some? {
      assert out + (more + r.value.0) == out + more + r.value.0;
    }
  }

  lemma {:induction false} NothingBefore<T>(r: Option<(seq<T>, Names)>)
    ensures After([], r) == r
  {
    if r.Some? {
      assert [] + r.value.0 == r.value.0;
    }
  }

  /** _derive: one pass over the source rows, with the manifest alongside. */
  method Derive(policy: Policy, digest: seq<Record> -> string, sources: seq<Record>) returns (r: Option<Copy>)
    requires PolicyOK(policy)
    ensures r == DeriveCopy(policy, digest, sources)
  {
    var table := new AliasTable();
    var manifest := new Manifest();
    var rows: seq<Record> := [];
    assert sources[0..] == sources;
    NothingBefore(DeriveRows(policy, sources, 1, table.names));
    for i := 0 to |sources|
      invariant fresh(table) && fresh(manifest)
      invariant manifest.Valid() && manifest.fed == rows
      invariant DeriveRows(policy, sources, 1, map[])
        == After(rows, DeriveRows(policy, sources[i..], i + 1, table.names))
    {
      assert sources[i..][0] == sources[i] && sources[i..][1..] == sources[i + 1..];
      if !Derivable(policy, sources[i]) {
        return None;
      }
      var row := table.RedactRow(policy, Projected(policy, sources[i]), i + 1);
      if row.None? {
        return None;
      }
      manifest.Add(row.value);
      AfterAfter(rows, [row.value], DeriveRows(policy, sources[i + 1..], i + 2, table.names));
      rows := rows + [row.value];
    }
    assert sources[|sources|..] == [] && rows + [] == rows;
    return Some(Copy(rows, Marker(digest(manifest.fed), manifest.summary)));
  }

  /** verify_docs_copy, from the rows on. */
  method Verify(policy: Policy, digest: seq<Record> -> string, copy: Copy) returns (r: Option<Summary>)
    ensures r == VerifyCopy(policy, digest, copy)
  {
    var manifest := new Manifest();
    var rows := copy.rows;
    assert rows[0..] == rows;
    VerifiedNothing(VerifyRows(policy, rows));
    for i := 0 to |rows|
      invariant fresh(manifest) && manifest.Valid()
      invariant VerifyRows(policy, rows) == Verified(manifest.fed, VerifyRows(policy, rows[i..]))
    {
      assert rows[i..][0] == rows[i] && rows[i..][1..] == rows[i + 1..];
      var row := VerifyRecord(policy, rows[i]);
      if row.None? {
        return None;
      }
      VerifiedMore(manifest.fed, row.value, VerifyRows(policy, rows[i + 1..]));
      manifest.Add(row.value);
    }
    assert rows[|rows|..] == [] && manifest.fed + [] == manifest.fed;
    if copy.marker != Marker(digest(manifest.fed), manifest.summary) {
      return None;
    }
    return Some(manifest.summary);
  }

  ghost function Verified(done: seq<Record>, r: Option<seq<Record>>): Option<seq<Record>> {
    if r.None? then None else Some(done + r.value)
  }

  lemma {:induction false} VerifiedNothing(r: Option<seq<Record>>)
    ensures Verified([], r) == r
  {
    if r.Some? {
      assert [] + r.value == r.value;
    }
  }

  lemma {:induction false} VerifiedMore(done: seq<Record>, row: Record, r: Option<seq<Record>>)
    ensures Verified(done, if r.None? then None else Some([row] + r.value)) == Verified(done + [row], r)
  {
    if r.Some? {
      assert done + ([row] + r.value) == done + [row] + r.value;
    }
  }
}
