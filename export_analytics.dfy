/**
 * The export of one analytic into the table `create_supabase_table` made for it: the
 * records of an `analitic.getData` response, keyed by the `<table>_id` column, and the rows
 * and soft-delete key list handed to the database.
 */
module ExportAnalytics {
  import opened Wrappers
  import opened PyStr
  import opened FieldNames
  import opened PlanfixXml
  import opened Projection

  const ProduktyTableName: string := "planfix_analytics_produkty"

  /** `f"{table_name}_id"`, the column the rows are keyed by. */
  function KeyColumn(tableName: string): string { tableName + "_id" }

  /** `f"{key}_{item_id}"`, or the running count in place of an empty item id. */
  function RecordKey(key: string, item: Item, n: nat): string {
    key + "_" + (if Present(item.id) then item.id.value else IntToString(n))
  }

  /** The base columns every record starts with. */
  function BaseColumns(tableName: string): set<string> {
    {KeyColumn(tableName), "analitic_key", "item_id", "updated_at", "is_deleted"}
  }

  /** The columns the item's field adds: its cleaned name, and `<clean>_id`. */
  function FieldColumns(item: Item): set<string> {
    if !Present(item.name) then {}
    else if Present(item.valueId) then {RecordColumnName(item.name.value), RecordColumnName(item.name.value) + "_id"}
    else {RecordColumnName(item.name.value)}
  }

  /** The dictionary literal of lines 77-83. */
  function BaseRecord(k: Keyed, tableName: string, now: Timestamp, n: nat, analiticKey: Value, itemId: Value): Record {
    map[
      KeyColumn(tableName) := Str(RecordKey(k.key, k.item, n)),
      "analitic_key" := analiticKey,
      "item_id" := itemId,
      "updated_at" := Time(now),
      "is_deleted" := Bool(false)]
  }

  /** Lines 86-93: the field column, then its `_id` column, written over `rec`. */
  function WithField(rec: Record, item: Item): Record {
    if !Present(item.name) then rec
    else
      var clean := RecordColumnName(item.name.value);
      var withValue := rec[clean := TextValue(item.value)];
      if Present(item.valueId) then withValue[clean + "_id" := Str(item.valueId.value)] else withValue
  }

  /** The record of one keyed item; `n` is the number of records built before it. */
  function BuildRecord(k: Keyed, tableName: string, now: Timestamp, n: nat): Result<Record, ValueError> {
    match OptionalInt(Some(k.key))
    case Err(e) => Err(e)
    case Ok(analiticKey) =>
      match OptionalInt(k.item.id)
      case Err(e) => Err(e)
      case Ok(itemId) => Ok(WithField(BaseRecord(k, tableName, now, n, analiticKey, itemId), k.item))
  }

  function Builder(tableName: string, now: Timestamp): PlanfixXml.Builder {
    (k: Keyed, n: nat) => BuildRecord(k, tableName, now, n)
  }

  /** What `parse_produkty_analytics_data` returns, or the `ValueError` it raises. */
  function AnalyticsRecords(response: AnalyticsResponse, tableName: string, now: Timestamp): Result<seq<Record>, ValueError> {
    match response
    case ErrorStatus(_, _) => Ok([])
    case Success(datas) => BuildAll(KeyedItems(datas), Builder(tableName, now))
  }

  /** Lines 68-93 for one `itemData`: the record, built one column at a time. */
  method AssembleRecord(key: string, item: Item, tableName: string, now: Timestamp, n: nat)
    returns (r: Result<Record, ValueError>)
    ensures r == BuildRecord(Keyed(key, item), tableName, now, n)
  {
    var recordId := if Present(item.id) then key + "_" + item.id.value else key + "_" + IntToString(n);
    var analiticKey := OptionalInt(Some(key));
    if analiticKey.Err? {
      return Err(analiticKey.error);
    }
    var itemId := OptionalInt(item.id);
    if itemId.Err? {
      return Err(itemId.error);
    }
    var record: Record := map[
      tableName + "_id" := Str(recordId),
      "analitic_key" := analiticKey.value,
      "item_id" := itemId.value,
      "updated_at" := Time(now),
      "is_deleted" := Bool(false)];
    if Present(item.name) {
      var cleanName := RecordColumnName(item.name.value);
      record := record[cleanName := TextValue(item.value)];
      if Present(item.valueId) {
        record := record[cleanName + "_id" := Str(item.valueId.value)];
      }
    }
    return Ok(record);
  }

  /** The loop body: the records so far with the next item's record appended, or its error. */
  method AppendRecord(ghost seen: seq<Keyed>, key: string, item: Item, tableName: string, now: Timestamp, acc: seq<Record>)
    returns (next: Result<seq<Record>, ValueError>)
    requires BuildAll(seen, Builder(tableName, now)) == Ok(acc)
    ensures next == BuildAll(seen + [Keyed(key, item)], Builder(tableName, now))
  {
    var record := AssembleRecord(key, item, tableName, now, |acc|);
    ItemStep(seen, Keyed(key, item), tableName, now, acc);
    if record.Err? {
      return Err(record.error);
    }
    return Ok(acc + [record.value]);
  }

  /** One more item after an error-free prefix: its record is appended, or its error is the result. */
  lemma ItemStep(seen: seq<Keyed>, k: Keyed, tableName: string, now: Timestamp, acc: seq<Record>)
    requires BuildAll(seen, Builder(tableName, now)) == Ok(acc)
    ensures BuildAll(seen + [k], Builder(tableName, now)) ==
      match BuildRecord(k, tableName, now, |acc|)
      case Err(e) => Err(e)
      case Ok(rec) => Ok(acc + [rec])
  {
    BuildAllSnoc(seen, k, Builder(tableName, now));
  }

  /**
   * `parse_produkty_analytics_data`: the nested loops over the keyed `analiticData` and their
   * `itemData`, one record per item, in document order.
   */
  method ParseProduktyAnalyticsData(response: AnalyticsResponse, tableName: string, now: Timestamp)
    returns (r: Result<seq<Record>, ValueError>)
    ensures r == AnalyticsRecords(response, tableName, now)
  {
    if response.ErrorStatus? {
      return Ok([]);
    }
    var datas := response.body;
    ghost var build := Builder(tableName, now);
    var analyticsData: seq<Record> := [];
    ghost var seen: seq<Keyed> := [];
    for i := 0 to |datas|
      invariant seen == KeyedItems(datas[..i])
      invariant BuildAll(seen, build) == Ok(analyticsData)
    {
      var analiticData := datas[i];
      KeyedItemsSnoc(datas, i);
      if analiticData.key.Some? {
        var key := analiticData.key.value;
        var items := analiticData.items;
        for j := 0 to |items|
          invariant seen == KeyedItems(datas[..i]) + KeyedOf(analiticData)[..j]
          invariant BuildAll(seen, build) == Ok(analyticsData)
        {
          var item := items[j];
          SnocPrefix(KeyedItems(datas[..i]), KeyedOf(analiticData), j);
          var next := AppendRecord(seen, key, item, tableName, now, analyticsData);
          if next.Err? {
            ParseAborts(datas, i, j, build);
            return Err(next.error);
          }
          seen := seen + [Keyed(key, item)];
          analyticsData := next.value;
        }
        assert KeyedOf(analiticData)[..|items|] == KeyedOf(analiticData);
      }
    }
    assert datas[..|datas|] == datas;
    return Ok(analyticsData);
  }

  /**
   * Nothing for an error response; otherwise, unless a key or an item id is not an integer,
   * the `i`-th record is that of the `i`-th keyed item, built with `i` records before it.
   */
  lemma AnalyticsRecordsShape(response: AnalyticsResponse, tableName: string, now: Timestamp)
    ensures response.ErrorStatus? ==> AnalyticsRecords(response, tableName, now) == Ok([])
    ensures response.Success? ==>
      var ks := KeyedItems(response.body);
      var r := AnalyticsRecords(response, tableName, now);
      (r.Ok? <==> forall i :: 0 <= i < |ks| ==> BuildRecord(ks[i], tableName, now, i).Ok?)
      && (r.Ok? ==> |r.value| == |ks| && forall i :: 0 <= i < |ks| ==> BuildRecord(ks[i], tableName, now, i) == Ok(r.value[i]))
  {
    if response.Success? {
      var ks := KeyedItems(response.body);
      var build := Builder(tableName, now);
      assert AnalyticsRecords(response, tableName, now) == BuildAll(ks, build);
      BuildAllSpec(ks, build);
      forall i | 0 <= i < |ks|
        ensures build(ks[i], i) == BuildRecord(ks[i], tableName, now, i)
      {
      }
    }
  }

  /** A record is built unless its non-empty key, or its non-empty item id, is not an integer. */
  lemma BuildRecordRaises(k: Keyed, tableName: string, now: Timestamp, n: nat)
    ensures BuildRecord(k, tableName, now, n).Err? <==>
      (k.key != "" && !IsIntLiteral(k.key)) || (Present(k.item.id) && !IsIntLiteral(k.item.id.value))
    ensures k.key != "" && !IsIntLiteral(k.key) ==> BuildRecord(k, tableName, now, n) == Err(ValueError(k.key))
  {
  }

  /**
   * The columns of a record: the base columns, each holding its base value unless the item's
   * field column has the same name, plus the field column holding the item's value and, with a
   * non-empty `valueId`, the `_id` column holding it.
   */
  lemma RecordContents(k: Keyed, tableName: string, now: Timestamp, n: nat)
    requires BuildRecord(k, tableName, now, n).Ok?
    ensures var rec := BuildRecord(k, tableName, now, n).value;
      && rec.Keys == BaseColumns(tableName) + FieldColumns(k.item)
      && (KeyColumn(tableName) !in FieldColumns(k.item) && KeyColumn(tableName) !in {"analitic_key", "item_id", "updated_at", "is_deleted"} ==>
            rec[KeyColumn(tableName)] == Str(RecordKey(k.key, k.item, n)))
      && ("analitic_key" !in FieldColumns(k.item) ==>
            rec["analitic_key"] == if k.key == "" then Null else Int(ParseInt(k.key).value))
      && ("item_id" !in FieldColumns(k.item) ==>
            rec["item_id"] == if !Present(k.item.id) then Null else Int(ParseInt(k.item.id.value).value))
      && ("updated_at" !in FieldColumns(k.item) ==> rec["updated_at"] == Time(now))
      && ("is_deleted" !in FieldColumns(k.item) ==> rec["is_deleted"] == Bool(false))
      && (Present(k.item.name) ==> rec[RecordColumnName(k.item.name.value)] == TextValue(k.item.value))
      && (Present(k.item.name) && Present(k.item.valueId) ==>
            rec[RecordColumnName(k.item.name.value) + "_id"] == Str(k.item.valueId.value))
  {
    if Present(k.item.name) {
      var clean := RecordColumnName(k.item.name.value);
      assert |clean + "_id"| > |clean|;
    }
  }

  lemma ProduktyKeyColumnIsNotBase()
    ensures KeyColumn(ProduktyTableName) !in {"analitic_key", "item_id", "updated_at", "is_deleted"}
  {
    assert KeyColumn(ProduktyTableName)[0] == 'p';
  }

  /** A record keeps its key, which is never empty, when no other column shares the key column's name. */
  lemma RecordKeyKept(k: Keyed, tableName: string, now: Timestamp, n: nat)
    requires BuildRecord(k, tableName, now, n).Ok?
    requires KeyColumn(tableName) !in FieldColumns(k.item)
    requires KeyColumn(tableName) !in {"analitic_key", "item_id", "updated_at", "is_deleted"}
    ensures KeyColumn(tableName) in BuildRecord(k, tableName, now, n).value
    ensures BuildRecord(k, tableName, now, n).value[KeyColumn(tableName)] == Str(RecordKey(k.key, k.item, n))
    ensures Truthy(BuildRecord(k, tableName, now, n).value[KeyColumn(tableName)])
  {
    RecordContents(k, tableName, now, n);
  }

  /**
   * Lines 173-199: no records, no database step; otherwise each record cut down to the table's
   * columns with the defaults filled in, and the truthy `<table>_id` values of the result, in
   * order, for the soft-delete step.
   */
  method PrepareBatch(records: seq<Record>, tableColumns: seq<string>, now: Timestamp)
    returns (batch: Option<Batch>)
    ensures batch.None? <==> records == []
    ensures batch.Some? ==> |batch.value.prepared| == |records|
    ensures batch.Some? ==> forall i :: 0 <= i < |records| ==> batch.value.prepared[i] == Project(records[i], tableColumns, now)
    ensures batch.Some? ==> batch.value.ids == SoftDeleteIds(batch.value.prepared, KeyColumn(ProduktyTableName))
  {
    if records == [] {
      return None;
    }
    var prepared := PrepareDataForUpsert(records, tableColumns, now);
    var ids := SoftDeleteIds(prepared, KeyColumn(ProduktyTableName));
    return Some(Batch(prepared, ids));
  }

  /**
   * When no item's field column is named like the key column, the soft-delete list of a batch
   * holds the key of every record, `"{key}_{item_id}"` or `"{key}_{n}"`, in document order.
   */
  lemma BatchIdsAreRecordKeys(response: AnalyticsResponse, tableColumns: seq<string>, now: Timestamp)
    requires response.Success?
    requires AnalyticsRecords(response, ProduktyTableName, now).Ok?
    requires KeyColumn(ProduktyTableName) in tableColumns
    requires forall k :: k in KeyedItems(response.body) ==> KeyColumn(ProduktyTableName) !in FieldColumns(k.item)
    ensures var rs := AnalyticsRecords(response, ProduktyTableName, now).value;
      var ks := KeyedItems(response.body);
      |rs| == |ks|
      && SoftDeleteIds(seq(|rs|, i requires 0 <= i < |rs| => Project(rs[i], tableColumns, now)), KeyColumn(ProduktyTableName))
         == seq(|ks|, i requires 0 <= i < |ks| => Str(RecordKey(ks[i].key, ks[i].item, i)))
  {
    var rs := AnalyticsRecords(response, ProduktyTableName, now).value;
    var ks := KeyedItems(response.body);
    var keyColumn := KeyColumn(ProduktyTableName);
    AnalyticsRecordsShape(response, ProduktyTableName, now);
    ProduktyKeyColumnIsNotBase();
    forall i | 0 <= i < |rs|
      ensures keyColumn in rs[i] && rs[i][keyColumn] == Str(RecordKey(ks[i].key, ks[i].item, i))
      ensures Truthy(rs[i][keyColumn])
    {
      assert ks[i] in ks;
      RecordKeyKept(ks[i], ProduktyTableName, now, i);
    }
    SoftDeleteIdsOfProjection(rs, tableColumns, now, keyColumn);
  }
}
