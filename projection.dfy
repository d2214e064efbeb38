/**
 * Fitting assembled records to the columns the target table really has, and the list of
 * keys handed to the soft-delete step.
 */
module Projection {
  import opened PlanfixXml
  import opened SeqFacts

  /** What an export hands to the database: the prepared rows and the keys for the soft-delete step. */
  datatype Batch = Batch(prepared: seq<Record>, ids: seq<Value>)

  /** The value a table column gets when the record has none for it. */
  function Default(column: string, now: Timestamp): Value {
    if column == "is_deleted" then Bool(false)
    else if column == "updated_at" then Time(now)
    else Null
  }

  /** One prepared record: exactly the table's columns. */
  function Project(rec: Record, columns: seq<string>, now: Timestamp): Record {
    map c | c in columns :: if c in rec then rec[c] else Default(c, now)
  }

  /**
   * `prepare_data_for_upsert`: for each record, in order, a new record with exactly the
   * table's columns; a column the record has keeps its value, a missing `is_deleted` is
   * `False`, a missing `updated_at` is the current time, any other missing column is `None`,
   * and keys that are not columns are dropped.
   */
  method PrepareDataForUpsert(records: seq<Record>, columns: seq<string>, now: Timestamp)
    returns (prepared: seq<Record>)
    ensures |prepared| == |records|
    ensures forall i :: 0 <= i < |records| ==> prepared[i] == Project(records[i], columns, now)
    ensures forall i :: 0 <= i < |records| ==> prepared[i].Keys == set c | c in columns
    ensures forall i, c :: 0 <= i < |records| && c in columns && c in records[i] ==> prepared[i][c] == records[i][c]
    ensures forall i, c :: 0 <= i < |records| && c in columns && c !in records[i] ==> prepared[i][c] == Default(c, now)
  {
    prepared := [];
    for i := 0 to |records|
      invariant |prepared| == i
      invariant forall j :: 0 <= j < i ==> prepared[j] == Project(records[j], columns, now)
    {
      var record := records[i];
      var preparedRecord: Record := map[];
      for k := 0 to |columns|
        invariant preparedRecord == Project(record, columns[..k], now)
      {
        var col := columns[k];
        if col in record {
          preparedRecord := preparedRecord[col := record[col]];
        } else if col == "is_deleted" {
          preparedRecord := preparedRecord[col := Bool(false)];
        } else if col == "updated_at" {
          preparedRecord := preparedRecord[col := Time(now)];
        } else {
          preparedRecord := preparedRecord[col := Null];
        }
        assert columns[..k + 1] == columns[..k] + [col];
      }
      assert columns[..|columns|] == columns;
      prepared := prepared + [preparedRecord];
    }
  }

  /** `[item[key] for item in prepared if item.get(key)]` */
  function SoftDeleteIds(prepared: seq<Record>, keyColumn: string): (ids: seq<Value>)
    ensures |ids| <= |prepared|
    ensures forall v :: v in ids ==> Truthy(v)
    ensures forall v :: v in ids <==>
      exists i :: 0 <= i < |prepared| && keyColumn in prepared[i] && prepared[i][keyColumn] == v && Truthy(v)
    decreases |prepared|
  {
    if prepared == [] then []
    else
      var last := prepared[|prepared| - 1];
      assert forall i :: 0 <= i < |prepared| - 1 ==> prepared[..|prepared| - 1][i] == prepared[i];
      SoftDeleteIds(prepared[..|prepared| - 1], keyColumn)
      + (if keyColumn in last && Truthy(last[keyColumn]) then [last[keyColumn]] else [])
  }

  /**
   * The list keeps the order of the records: that of a concatenation is the list of the first
   * part followed by that of the second.
   */
  lemma {:induction false} SoftDeleteIdsAppend(a: seq<Record>, b: seq<Record>, keyColumn: string)
    ensures SoftDeleteIds(a + b, keyColumn) == SoftDeleteIds(a, keyColumn) + SoftDeleteIds(b, keyColumn)
    decreases |b|
  {
    if b == [] {
      assert a + b == a;
    } else {
      var init, last := b[..|b| - 1], b[|b| - 1];
      InitOfAppend(a, b);
      SoftDeleteIdsAppend(a, init, keyColumn);
      var tail := if keyColumn in last && Truthy(last[keyColumn]) then [last[keyColumn]] else [];
      AppendAssoc(SoftDeleteIds(a, keyColumn), SoftDeleteIds(init, keyColumn), tail);
    }
  }

  /** One record contributes its key when the key is truthy, and nothing otherwise. */
  lemma SoftDeleteIdsOne(rec: Record, keyColumn: string)
    ensures SoftDeleteIds([rec], keyColumn) == if keyColumn in rec && Truthy(rec[keyColumn]) then [rec[keyColumn]] else []
  {
    assert [rec][..0] == [];
  }

  /** When every prepared record carries a truthy key, the list is all the keys, in order. */
  lemma {:induction false} SoftDeleteIdsAll(prepared: seq<Record>, keyColumn: string)
    requires forall i :: 0 <= i < |prepared| ==> keyColumn in prepared[i] && Truthy(prepared[i][keyColumn])
    ensures |SoftDeleteIds(prepared, keyColumn)| == |prepared|
    ensures forall i :: 0 <= i < |prepared| ==> SoftDeleteIds(prepared, keyColumn)[i] == prepared[i][keyColumn]
    decreases |prepared|
  {
    if prepared != [] {
      var init, last := prepared[..|prepared| - 1], prepared[|prepared| - 1];
      assert forall i :: 0 <= i < |init| ==> init[i] == prepared[i];
      SoftDeleteIdsAll(init, keyColumn);
      var ids, before := SoftDeleteIds(prepared, keyColumn), SoftDeleteIds(init, keyColumn);
      assert keyColumn in last && Truthy(last[keyColumn]);
      assert ids == before + [last[keyColumn]];
      forall i | 0 <= i < |prepared| ensures ids[i] == prepared[i][keyColumn] {
        if i < |init| {
          assert ids[i] == before[i];
        }
      }
    }
  }

  /**
   * Records that all carry a truthy key, projected onto columns that include the key column:
   * the soft-delete list is their keys, in order.
   */
  lemma SoftDeleteIdsOfProjection(records: seq<Record>, columns: seq<string>, now: Timestamp, keyColumn: string)
    requires keyColumn in columns
    requires forall i :: 0 <= i < |records| ==> keyColumn in records[i] && Truthy(records[i][keyColumn])
    ensures var prepared := seq(|records|, i requires 0 <= i < |records| => Project(records[i], columns, now));
      SoftDeleteIds(prepared, keyColumn) == seq(|records|, i requires 0 <= i < |records| => records[i][keyColumn])
  {
    var prepared := seq(|records|, i requires 0 <= i < |records| => Project(records[i], columns, now));
    assert forall i :: 0 <= i < |prepared| ==> keyColumn in prepared[i] && prepared[i][keyColumn] == records[i][keyColumn];
    SoftDeleteIdsAll(prepared, keyColumn);
  }
}
