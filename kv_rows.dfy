/**
 * The key/value row editor of the request builder (headers and query
 * parameters): conversion between an ordered list of editable rows and the
 * string mapping sent over the wire, and the positional edits of the editor.
 */
module KvRows {
  import opened Wrappers
  import opened Text
  import opened Dict
  import opened Json

  /** One editor row. A row whose `enabled` flag is missing counts as enabled. */
  datatype Row = Row(key: string, value: string, enabled: bool)

  const BlankRow: Row := Row("", "", true)

  /** In JavaScript, `out["__proto__"] = v` with a string `v` sets no property. */
  const ProtoKey: string := "__proto__"

  /** The key under which `rowsToObject` files a row: none for a disabled row or a blank trimmed key. */
  function EffectiveKey(r: Row): Option<string> {
    if !r.enabled then None
    else
      var k := Trim(r.key);
      if k == "" then None else Some(k)
  }

  /** The row is the one that sets key `k` (the `__proto__` assignment sets nothing). */
  predicate FilesUnder(r: Row, k: string) {
    EffectiveKey(r) == Some(k) && k != ProtoKey
  }

  /** The keys `rowsToObject` can produce: unique, trimmed, non-empty, never `__proto__`. */
  predicate CleanMapping(d: Dict<string>) {
    && UniqueKeys(d)
    && forall i :: 0 <= i < |d| ==> d[i].0 != "" && IsTrimmed(d[i].0) && d[i].0 != ProtoKey
  }

  /** One iteration of the `rowsToObject` loop. */
  function FileRow(out: Dict<string>, r: Row): (d: Dict<string>)
    ensures |d| <= |out| + 1
  {
    match EffectiveKey(r)
    case None => out
    case Some(k) => if k == ProtoKey then out else Put(out, k, r.value)
  }

  /** Filing a row keeps the mapping clean. */
  lemma FileRowClean(out: Dict<string>, r: Row)
    requires CleanMapping(out)
    ensures CleanMapping(FileRow(out, r))
  {
    if EffectiveKey(r).Some? && EffectiveKey(r).value != ProtoKey {
      var k := EffectiveKey(r).value;
      assert k != "" && IsTrimmed(k) && k != ProtoKey;
      PutUnique(out, k, r.value);
      var d := Put(out, k, r.value);
      assert d == FileRow(out, r);
      if k in Keys(out) {
        assert Keys(d) == Keys(out);
        forall i | 0 <= i < |d| ensures d[i].0 != "" && IsTrimmed(d[i].0) && d[i].0 != ProtoKey {
          assert d[i].0 == Keys(d)[i] == Keys(out)[i] == out[i].0;
        }
      } else {
        assert d == out + [(k, r.value)];
        forall i | 0 <= i < |d| ensures d[i].0 != "" && IsTrimmed(d[i].0) && d[i].0 != ProtoKey {
          if i < |out| {
            assert d[i] == out[i];
          }
        }
      }
    }
  }

  /** The mapping `rowsToObject` builds from `rows`, as a fold from the first row to the last. */
  function RowsToDict(rows: seq<Row>): (d: Dict<string>)
    ensures CleanMapping(d)
    ensures |d| <= |rows|
  {
    if rows == [] then []
    else
      var out := RowsToDict(rows[..|rows| - 1]);
      FileRowClean(out, rows[|rows| - 1]);
      FileRow(out, rows[|rows| - 1])
  }

  lemma RowsToDictSnoc(rows: seq<Row>, r: Row)
    ensures RowsToDict(rows + [r]) == FileRow(RowsToDict(rows), r)
  {
    assert (rows + [r])[..|rows|] == rows;
  }

  /** One more iteration of the `rowsToObject` loop extends the fold by one row. */
  lemma RowsToDictStep(rows: seq<Row>, i: nat, prev: Dict<string>)
    requires i < |rows| && prev == RowsToDict(rows[..i])
    ensures FileRow(prev, rows[i]) == RowsToDict(rows[..i + 1])
  {
    assert rows[..i + 1] == rows[..i] + [rows[i]];
    RowsToDictSnoc(rows[..i], rows[i]);
  }

  /** An enabled row with a usable trimmed key assigns that key. */
  lemma FileRowSets(out: Dict<string>, r: Row, k: string)
    requires r.enabled && k == Trim(r.key) && k != "" && k != ProtoKey
    ensures FileRow(out, r) == Put(out, k, r.value)
  {
  }

  /** A disabled row, or one whose trimmed key is empty or `__proto__`, assigns nothing. */
  lemma FileRowSkips(out: Dict<string>, r: Row)
    requires !r.enabled || Trim(r.key) == "" || Trim(r.key) == ProtoKey
    ensures FileRow(out, r) == out
  {
  }

  /** `rowsToObject(rows)`: fills `out` row by row, skipping disabled and blank-keyed rows. */
  method RowsToObject(rows: seq<Row>) returns (out: Dict<string>)
    ensures out == RowsToDict(rows)
  {
    out := [];
    var i := 0;
    while i < |rows|
      invariant 0 <= i <= |rows|
      invariant out == RowsToDict(rows[..i])
    {
      var r := rows[i];
      RowsToDictStep(rows, i, out);
      if r.enabled {
        var k := Trim(r.key);
        if k != "" && k != ProtoKey {
          FileRowSets(out, r, k);
          out := Put(out, k, r.value);
        } else {
          FileRowSkips(out, r);
        }
      } else {
        FileRowSkips(out, r);
      }
      i := i + 1;
    }
    assert rows[..i] == rows;
  }

  /** Filing one row sets only the key it files under. */
  lemma FileRowLookup(out: Dict<string>, r: Row, k: string)
    ensures Lookup(FileRow(out, r), k) == if FilesUnder(r, k) then Some(r.value) else Lookup(out, k)
  {
    if EffectiveKey(r).Some? && EffectiveKey(r).value != ProtoKey {
      PutLookup(out, EffectiveKey(r).value, r.value, k);
    }
  }

  /** No row of `rows` files under `k`. */
  predicate NoRowFiles(rows: seq<Row>, k: string) {
    forall i :: 0 <= i < |rows| ==> !FilesUnder(rows[i], k)
  }

  lemma NoRowFilesSnoc(front: seq<Row>, r: Row, k: string)
    ensures NoRowFiles(front + [r], k) <==> NoRowFiles(front, k) && !FilesUnder(r, k)
  {
    var rows := front + [r];
    assert forall i :: 0 <= i < |front| ==> rows[i] == front[i];
    assert rows[|front|] == r;
  }

  /** A key is absent from the mapping exactly when no row files under it. */
  lemma {:induction false} RowsToDictAbsent(rows: seq<Row>, k: string)
    ensures Lookup(RowsToDict(rows), k).None? <==> NoRowFiles(rows, k)
  {
    if rows != [] {
      var front := rows[..|rows| - 1];
      var r := rows[|rows| - 1];
      assert rows == front + [r];
      RowsToDictAbsent(front, k);
      RowsToDictSnoc(front, r);
      FileRowLookup(RowsToDict(front), r, k);
      NoRowFilesSnoc(front, r, k);
    }
  }

  /** A present key holds the value of the LAST row filing under it: later rows win. */
  lemma {:induction false} RowsToDictLastWins(rows: seq<Row>, k: string, i: nat)
    requires i < |rows| && FilesUnder(rows[i], k)
    requires forall j :: i < j < |rows| ==> !FilesUnder(rows[j], k)
    ensures Lookup(RowsToDict(rows), k) == Some(rows[i].value)
  {
    var front := rows[..|rows| - 1];
    var r := rows[|rows| - 1];
    FileRowLookup(RowsToDict(front), r, k);
    if i < |rows| - 1 {
      assert forall j :: i < j < |front| ==> front[j] == rows[j];
      RowsToDictLastWins(front, k, i);
    }
  }

  /** A row that files under no key can be dropped without changing the mapping. */
  lemma {:induction false} SkippedRowIrrelevant(a: seq<Row>, x: Row, b: seq<Row>)
    requires EffectiveKey(x).None?
    ensures RowsToDict(a + [x] + b) == RowsToDict(a + b)
  {
    if b == [] {
      assert a + [x] + b == a + [x];
      assert a + b == a;
      RowsToDictSnoc(a, x);
    } else {
      var b' := b[..|b| - 1];
      var y := b[|b| - 1];
      SkippedRowIrrelevant(a, x, b');
      assert a + [x] + b == (a + [x] + b') + [y];
      assert a + b == (a + b') + [y];
      RowsToDictSnoc(a + [x] + b', y);
      RowsToDictSnoc(a + b', y);
    }
  }

  /** The rows `objectToRows` produces for a mapping: one enabled row per entry, in order. */
  function EntryRows(es: Dict<Json>): (rows: seq<Row>)
    ensures |rows| == |es|
    ensures forall i :: 0 <= i < |es| ==> rows[i] == Row(es[i].0, JsString(es[i].1), true)
  {
    seq(|es|, i requires 0 <= i < |es| => Row(es[i].0, JsString(es[i].1), true))
  }

  /**
   * `objectToRows(obj)`: one enabled row per entry of an object (or array), with
   * the value stringified; a single blank row when there are no entries or `obj`
   * is not an object.
   */
  function ObjectToRows(obj: Json): (rows: seq<Row>)
    ensures rows != []
    ensures !IsObject(obj) || Entries(obj) == [] ==> rows == [BlankRow]
    ensures IsObject(obj) && Entries(obj) != [] ==> rows == EntryRows(Entries(obj))
  {
    var o := if IsObject(obj) then obj else EmptyObject;
    var rows := EntryRows(Entries(o));
    if |rows| > 0 then rows else [BlankRow]
  }

  /** The JavaScript object `rowsToObject` returns, seen as a JSON value: every value is a string. */
  function MappingToJson(d: Dict<string>): (j: Json)
    ensures j.JObj? && Keys(j.fields) == Keys(d)
    ensures forall i :: 0 <= i < |d| ==> j.fields[i].1 == JStr(d[i].1)
  {
    JObj(MapValues(d, (s: string) => JStr(s)))
  }

  /** The enabled rows listing a string mapping's entries in order. */
  function MappingRows(d: Dict<string>): (rows: seq<Row>)
    ensures |rows| == |d|
  {
    seq(|d|, i requires 0 <= i < |d| => Row(d[i].0, d[i].1, true))
  }

  lemma MappingRowsSnoc(front: Dict<string>, last: (string, string))
    ensures MappingRows(front + [last]) == MappingRows(front) + [Row(last.0, last.1, true)]
  {
  }

  /** The last entry of a clean mapping is filed after the others as a new key. */
  lemma FileLastEntry(front: Dict<string>, last: (string, string))
    requires CleanMapping(front + [last])
    ensures CleanMapping(front)
    ensures FileRow(front, Row(last.0, last.1, true)) == front + [last]
  {
    var d := front + [last];
    assert CleanMapping(front) by {
      forall i, j | 0 <= i < j < |front| ensures front[i].0 != front[j].0 {
        assert front[i] == d[i] && front[j] == d[j];
      }
      forall i | 0 <= i < |front| ensures front[i].0 != "" && IsTrimmed(front[i].0) && front[i].0 != ProtoKey {
        assert front[i] == d[i];
      }
    }
    assert last.0 !in Keys(front) by {
      forall i | 0 <= i < |front| ensures Keys(front)[i] != last.0 {
        assert front[i] == d[i] && d[|front|] == last;
      }
    }
    assert last.0 != "" && IsTrimmed(last.0) && last.0 != ProtoKey by {
      assert d[|front|] == last;
    }
    assert EffectiveKey(Row(last.0, last.1, true)) == Some(last.0) by {
      TrimOfTrimmed(last.0);
    }
    assert Put(front, last.0, last.1) == front + [last];
  }

  /** Reading a clean mapping back through its rows gives the same mapping, in the same order. */
  lemma {:induction false} CleanMappingRows(d: Dict<string>)
    requires CleanMapping(d)
    ensures RowsToDict(MappingRows(d)) == d
  {
    if d != [] {
      var front := d[..|d| - 1];
      var last := d[|d| - 1];
      assert d == front + [last];
      FileLastEntry(front, last);
      CleanMappingRows(front);
      MappingRowsSnoc(front, last);
      RowsToDictSnoc(MappingRows(front), Row(last.0, last.1, true));
    }
  }

  /**
   * Turning the mapping into rows (as loading a saved request does) and back
   * gives the same mapping; so the row/mapping round trip is a fixed point after one pass.
   */
  lemma RoundTrip(rows: seq<Row>)
    ensures RowsToDict(ObjectToRows(MappingToJson(RowsToDict(rows)))) == RowsToDict(rows)
  {
    var d := RowsToDict(rows);
    assert EntryRows(MappingToJson(d).fields) == MappingRows(d);
    CleanMappingRows(d);
  }

  /** `normalizeRows(rows)`: an empty list becomes one blank row; anything else is returned as it is. */
  function NormalizeRows(rows: seq<Row>): (r: seq<Row>)
    ensures r != []
    ensures rows != [] ==> r == rows
    ensures rows == [] ==> r == [BlankRow]
  {
    if rows == [] then [BlankRow] else rows
  }

  /** Normalising is a display affordance only: the mapping is unchanged. */
  lemma NormalizeKeepsMapping(rows: seq<Row>)
    ensures RowsToDict(NormalizeRows(rows)) == RowsToDict(rows)
  {
    if rows == [] {
      RowsToDictSnoc([], BlankRow);
    }
  }

  /** `addRow`: one blank enabled row at the end. */
  function AddRow(rows: seq<Row>): (r: seq<Row>)
    ensures |r| == |rows| + 1 && r[..|rows|] == rows && r[|rows|] == BlankRow
  {
    NormalizeRows(rows + [BlankRow])
  }

  /** Adding a row never changes the mapping. */
  lemma AddRowKeepsMapping(rows: seq<Row>)
    ensures RowsToDict(AddRow(rows)) == RowsToDict(rows)
  {
    assert AddRow(rows) == rows + [BlankRow];
    RowsToDictSnoc(rows, BlankRow);
    assert EffectiveKey(BlankRow).None? by {
      assert Trim("") == "";
    }
  }

  /** `removeRow(idx)`: `rows.filter((_, i) => i !== idx)`, then normalised. */
  function RemoveRow(rows: seq<Row>, idx: int): (r: seq<Row>)
    ensures 0 <= idx < |rows| && |rows| > 1 ==> r == rows[..idx] + rows[idx + 1..]
    ensures 0 <= idx < |rows| && |rows| == 1 ==> r == [BlankRow]
    ensures !(0 <= idx < |rows|) ==> r == NormalizeRows(rows)
  {
    if 0 <= idx < |rows| then NormalizeRows(rows[..idx] + rows[idx + 1..]) else NormalizeRows(rows)
  }

  /** Removing the row just added gives back the (normalised) original list. */
  lemma RemoveAddedRow(rows: seq<Row>)
    ensures RemoveRow(AddRow(rows), |rows|) == NormalizeRows(rows)
  {
    assert AddRow(rows)[..|rows|] == rows;
  }

  /** `toggle(idx)`: flips the `enabled` flag of row `idx` only. */
  function Toggle(rows: seq<Row>, idx: int): (r: seq<Row>)
    ensures |r| == |rows|
    ensures forall i :: 0 <= i < |rows| && i != idx ==> r[i] == rows[i]
    ensures 0 <= idx < |rows| ==> r[idx] == rows[idx].(enabled := !rows[idx].enabled)
  {
    seq(|rows|, i requires 0 <= i < |rows| =>
      if i == idx then rows[i].(enabled := !rows[i].enabled) else rows[i])
  }

  lemma ToggleTwice(rows: seq<Row>, idx: int)
    ensures Toggle(Toggle(rows, idx), idx) == rows
  {
  }

  /** Switching a row off has the same effect on the mapping as deleting it. */
  lemma DisableIsRemove(rows: seq<Row>, idx: nat)
    requires idx < |rows| && rows[idx].enabled
    ensures RowsToDict(Toggle(rows, idx)) == RowsToDict(rows[..idx] + rows[idx + 1..])
  {
    var x := rows[idx].(enabled := false);
    assert Toggle(rows, idx) == rows[..idx] + [x] + rows[idx + 1..];
    SkippedRowIrrelevant(rows[..idx], x, rows[idx + 1..]);
  }

  /** The two text cells of a row the editor writes to. */
  datatype Field = KeyField | ValueField

  /** `update(idx, field, value)`: sets one field of row `idx` only. */
  function Update(rows: seq<Row>, idx: int, field: Field, v: string): (r: seq<Row>)
    ensures |r| == |rows|
    ensures forall i :: 0 <= i < |rows| && i != idx ==> r[i] == rows[i]
    ensures 0 <= idx < |rows| ==> r[idx].enabled == rows[idx].enabled
    ensures 0 <= idx < |rows| && field == KeyField ==> r[idx].key == v && r[idx].value == rows[idx].value
    ensures 0 <= idx < |rows| && field == ValueField ==> r[idx].value == v && r[idx].key == rows[idx].key
  {
    seq(|rows|, i requires 0 <= i < |rows| =>
      if i != idx then rows[i]
      else if field == KeyField then rows[i].(key := v)
      else rows[i].(value := v))
  }

  /** The last write to a cell wins. */
  lemma UpdateTwice(rows: seq<Row>, idx: int, field: Field, a: string, b: string)
    ensures Update(Update(rows, idx, field, a), idx, field, b) == Update(rows, idx, field, b)
  {
  }
}
