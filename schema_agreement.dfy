/**
 * `create_supabase_table` and `export_produkty_analytics` meet at the table: the first derives
 * its columns from an `analitic.getData` response, the second writes records built from one
 * and keeps only the columns the table has. For the same response, the table has a column for
 * every key of every record, so preparing the records for the upsert drops no value.
 */
module SchemaAgreement {
  import opened Wrappers
  import opened FieldNames
  import opened PlanfixXml
  import opened Projection
  import opened TableSchema
  import opened TableSql
  import opened ExportAnalytics

  /** The names of the columns, in table order (what the export reads back as `columns`). */
  function ColumnNames(cs: seq<ColumnDef>): (names: seq<string>)
    ensures |names| == |cs|
    ensures forall c :: c in cs ==> c.name in names
  {
    var names := seq(|cs|, i requires 0 <= i < |cs| => cs[i].name);
    assert forall i :: 0 <= i < |cs| ==> names[i] == cs[i].name;
    names
  }

  /** A named item has its field in any structure that describes the observations. */
  lemma FieldOfItem(k: Keyed, st: Structure, os: seq<Observation>)
    requires NamesComplete(st, os) && ValueIdFlags(st, os)
    requires Present(k.item.name)
    requires Observation(k.item.name.value, k.item.value, k.item.valueId) in os
    ensures Find(st, k.item.name.value) < |st|
    ensures Present(k.item.valueId) ==> st[Find(st, k.item.name.value)].info.hasValueId
  {
    var name := k.item.name.value;
    var at :| 0 <= at < |os| && os[at] == Observation(name, k.item.value, k.item.valueId);
    assert FirstSeen(os, name) <= at;
    if Present(k.item.valueId) {
      assert ValueIdSeen(os, name);
    }
  }

  /** The base columns of a record are the table's first five columns. */
  lemma BaseColumnsInTable(tableName: string, st: Structure)
    ensures forall c :: c in BaseColumns(tableName) ==> c in ColumnNames(TableColumns(tableName, st))
  {
    var names := ColumnNames(TableColumns(tableName, st));
    assert names[0] == tableName + "_id" && names[1] == "analitic_key" && names[2] == "item_id";
    assert names[3] == "updated_at" && names[4] == "is_deleted";
  }

  /** The field columns of a named item's record are columns of the table. */
  lemma FieldColumnsInTable(k: Keyed, tableName: string, st: Structure, os: seq<Observation>)
    requires NamesComplete(st, os) && ValueIdFlags(st, os)
    requires Present(k.item.name) ==> Observation(k.item.name.value, k.item.value, k.item.valueId) in os
    ensures forall c :: c in FieldColumns(k.item) ==> c in ColumnNames(TableColumns(tableName, st))
  {
    if Present(k.item.name) {
      FieldOfItem(k, st, os);
      InlineCleanersAgree(k.item.name.value);
      var e := st[Find(st, k.item.name.value)];
      assert e in st;
      ColumnsOfFields(tableName, st);
    }
  }

  /** Every key of an item's record is a column of the table. */
  lemma RecordColumnsInTable(k: Keyed, tableName: string, now: Timestamp, n: nat, st: Structure, os: seq<Observation>)
    requires BuildRecord(k, tableName, now, n).Ok?
    requires NamesComplete(st, os) && ValueIdFlags(st, os)
    requires Present(k.item.name) ==> Observation(k.item.name.value, k.item.value, k.item.valueId) in os
    ensures forall c :: c in BuildRecord(k, tableName, now, n).value ==> c in ColumnNames(TableColumns(tableName, st))
  {
    RecordContents(k, tableName, now, n);
    BaseColumnsInTable(tableName, st);
    FieldColumnsInTable(k, tableName, st, os);
  }

  /**
   * For the same response, every key of every exported record is a column of the table created
   * from it, so each prepared record holds every value its record had.
   */
  lemma TableHoldsRecords(response: AnalyticsResponse, tableName: string, now: Timestamp)
    requires AnalyticsRecords(response, tableName, now).Ok?
    ensures var names := ColumnNames(TableColumns(tableName, AnalyticsStructure(response)));
      var rs := AnalyticsRecords(response, tableName, now).value;
      forall i, c :: 0 <= i < |rs| && c in rs[i] ==> c in names && Project(rs[i], names, now)[c] == rs[i][c]
  {
    var rs := AnalyticsRecords(response, tableName, now).value;
    AnalyticsRecordsShape(response, tableName, now);
    if response.Success? {
      var ks := KeyedItems(response.body);
      var os := ObservationsOf(ks);
      var st := AnalyticsStructure(response);
      AnalyticsStructureDescribes(response);
      ObservationsOfMembers(ks);
      forall i | 0 <= i < |rs|
        ensures forall c :: c in rs[i] ==> c in ColumnNames(TableColumns(tableName, st))
      {
        RecordColumnsInTable(ks[i], tableName, now, i, st, os);
      }
    }
  }
}
