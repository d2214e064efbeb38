/**
 * The export of the "Produkty" analytic tied to orders: the task-list and task-details
 * parsers, the check for the analytic on a task, the record assembly per task, and the
 * preparation of the rows and the soft-delete key list for the `planfix_analytics_produkty`
 * table.
 */
module ExportWithOrders {
  import opened Wrappers
  import opened PyStr
  import opened FieldNames
  import opened PlanfixXml
  import opened Projection
  import opened SeqFacts

  /** The key of the "Produkty" analytic. */
  const ProduktyAnalyticKey: int := 4867
  const ProduktyTableName: string := "planfix_analytics_produkty"
  /** The column the rows of this export are keyed by. */
  const IdColumn: string := "id"

  // ---------------------------------------------------------------------------------------
  // parse_task_list

  /** One entry of the task list: `{'id': int(task_id), 'name': name, 'number': number}`. */
  datatype TaskRow = TaskRow(id: int, name: Option<string>, number: Option<string>)

  /** A task whose non-empty `id` text `int()` rejects. */
  predicate IdRaises(t: TaskNode) { Present(t.id) && ParseInt(t.id.value).None? }

  /** The task list of a response none of whose ids raise: the tasks with a non-empty id. */
  function TaskRows(nodes: seq<TaskNode>): (rows: seq<TaskRow>)
    requires forall i :: 0 <= i < |nodes| ==> !IdRaises(nodes[i])
    ensures |rows| <= |nodes|
    ensures forall row :: row in rows <==>
      exists i :: 0 <= i < |nodes| && Present(nodes[i].id) && ParseInt(nodes[i].id.value) == Some(row.id)
               && row.name == nodes[i].name && row.number == nodes[i].number
    decreases |nodes|
  {
    if nodes == [] then []
    else
      var last := nodes[|nodes| - 1];
      assert !IdRaises(last);
      assert forall i :: 0 <= i < |nodes| - 1 ==> nodes[..|nodes| - 1][i] == nodes[i];
      TaskRows(nodes[..|nodes| - 1])
      + (if Present(last.id) then [TaskRow(ParseInt(last.id.value).value, last.name, last.number)] else [])
  }

  /** The task list keeps the order of the tasks: that of a concatenation is the concatenation. */
  lemma {:induction false} TaskRowsAppend(a: seq<TaskNode>, b: seq<TaskNode>)
    requires forall i :: 0 <= i < |a| ==> !IdRaises(a[i])
    requires forall i :: 0 <= i < |b| ==> !IdRaises(b[i])
    ensures forall i :: 0 <= i < |a + b| ==> !IdRaises((a + b)[i])
    ensures TaskRows(a + b) == TaskRows(a) + TaskRows(b)
    decreases |b|
  {
    if b == [] {
      assert a + b == a;
    } else {
      var init, last := b[..|b| - 1], b[|b| - 1];
      InitOfAppend(a, b);
      TaskRowsAppend(a, init);
      var tail := if Present(last.id) then [TaskRow(ParseInt(last.id.value).value, last.name, last.number)] else [];
      AppendAssoc(TaskRows(a), TaskRows(init), tail);
    }
  }

  /** One task gives its row when it has a non-empty id, and nothing otherwise. */
  lemma TaskRowsOne(t: TaskNode)
    requires !IdRaises(t)
    ensures TaskRows([t]) == if Present(t.id) then [TaskRow(ParseInt(t.id.value).value, t.name, t.number)] else []
  {
    assert [t][..0] == [];
  }

  /**
   * `parse_task_list`: an error response gives no tasks; otherwise every task with a
   * non-empty id, in order, unless some id is not an integer, in which case the
   * `ValueError` of the first such id escapes.
   */
  method ParseTaskList(response: Response<seq<TaskNode>>) returns (r: Result<seq<TaskRow>, ValueError>)
    ensures response.ErrorStatus? ==> r == Ok([])
    ensures response.Success? ==> (r.Ok? <==> forall i :: 0 <= i < |response.body| ==> !IdRaises(response.body[i]))
    ensures response.Success? && r.Ok? ==> r.value == TaskRows(response.body)
    ensures response.Success? && r.Err? ==>
      exists k :: 0 <= k < |response.body| && IdRaises(response.body[k])
               && r.error == ValueError(response.body[k].id.value)
               && forall j :: 0 <= j < k ==> !IdRaises(response.body[j])
  {
    if response.ErrorStatus? {
      return Ok([]);
    }
    var nodes := response.body;
    var tasks: seq<TaskRow> := [];
    for i := 0 to |nodes|
      invariant forall j :: 0 <= j < i ==> !IdRaises(nodes[j])
      invariant tasks == TaskRows(nodes[..i])
    {
      var task := nodes[i];
      if Present(task.id) {
        var id := ParseInt(task.id.value);
        if id.None? {
          return Err(ValueError(task.id.value));
        }
        tasks := tasks + [TaskRow(id.value, task.name, task.number)];
      }
      assert nodes[..i + 1][..i] == nodes[..i];
    }
    assert nodes[..|nodes|] == nodes;
    return Ok(tasks);
  }

  // ---------------------------------------------------------------------------------------
  // parse_task_details

  datatype Child = NameChild | NumberChild

  function ChildText(t: TaskNode, c: Child): Option<string> {
    match c
    case NameChild => t.name
    case NumberChild => t.number
  }

  /** `root.findtext('.//task/<child>')`: the text of the child of the first task having one. */
  function FindText(nodes: seq<TaskNode>, c: Child): (r: Option<string>)
    ensures r.None? <==> forall i :: 0 <= i < |nodes| ==> ChildText(nodes[i], c).None?
    ensures r.Some? ==> exists i :: 0 <= i < |nodes| && ChildText(nodes[i], c) == r
                                   && forall j :: 0 <= j < i ==> ChildText(nodes[j], c).None?
    decreases |nodes|
  {
    if nodes == [] then None
    else if ChildText(nodes[0], c).Some? then ChildText(nodes[0], c)
    else
      var r := FindText(nodes[1..], c);
      assert forall i :: 0 < i < |nodes| ==> nodes[1..][i - 1] == nodes[i];
      r
  }

  /** The `task_info` dictionary: each key is there only when its text is non-empty. */
  datatype TaskInfo = TaskInfo(orderNumber: Option<string>, taskName: Option<string>)

  /** Keeps a text only when it is non-empty (`if number: task_info[...] = number`). */
  function NonEmpty(t: Option<string>): (r: Option<string>)
    ensures r.Some? <==> Present(t)
    ensures r.Some? ==> r == t
  {
    if Present(t) then t else None
  }

  /**
   * `parse_task_details`: nothing for an error response; otherwise the order number and the
   * task name of the first task carrying each, each kept only when non-empty.
   */
  function ParseTaskDetails(response: Response<seq<TaskNode>>): (info: TaskInfo)
    ensures response.ErrorStatus? ==> info == TaskInfo(None, None)
    ensures info.orderNumber.Some? ==> info.orderNumber.value != ""
    ensures info.taskName.Some? ==> info.taskName.value != ""
    ensures response.Success? ==> info.orderNumber == NonEmpty(FindText(response.body, NumberChild))
    ensures response.Success? ==> info.taskName == NonEmpty(FindText(response.body, NameChild))
  {
    match response
    case ErrorStatus(_, _) => TaskInfo(None, None)
    case Success(nodes) => TaskInfo(NonEmpty(FindText(nodes, NumberChild)), NonEmpty(FindText(nodes, NameChild)))
  }

  /** `task_info.get('order_number', f"TASK_{task_id}")` */
  function OrderNumber(info: TaskInfo, taskId: int): string {
    info.orderNumber.GetOr("TASK_" + IntToString(taskId))
  }

  /**
   * The order number a task gets is never empty; without a number in the task's details it
   * is `TASK_` followed by the task id, which `int()` reads back.
   */
  lemma OrderNumberOfTask(details: Response<seq<TaskNode>>, taskId: int)
    ensures OrderNumber(ParseTaskDetails(details), taskId) != ""
    ensures ParseTaskDetails(details).orderNumber.Some? ==>
      OrderNumber(ParseTaskDetails(details), taskId) == ParseTaskDetails(details).orderNumber.value
    ensures ParseTaskDetails(details).orderNumber.None? ==>
      var r := OrderNumber(ParseTaskDetails(details), taskId);
      |r| > 5 && r[..5] == "TASK_" && ParseInt(r[5..]) == Some(taskId)
  {
    var r := OrderNumber(ParseTaskDetails(details), taskId);
    if ParseTaskDetails(details).orderNumber.None? {
      IntToStringRoundTrip(taskId);
      assert r[5..] == IntToString(taskId);
      assert |IntToString(taskId)| > 0 by {
        if taskId >= 0 { NatToStringDigits(taskId); }
      }
    }
  }

  // ---------------------------------------------------------------------------------------
  // has_produkty_analytics

  /** An `analitic` (or `analytics`) element of a task: its `id` and `name` texts. */
  datatype AnaliticNode = AnaliticNode(id: Option<string>, name: Option<string>)

  /** The two lists of analytic elements a `task.get` document may carry. */
  datatype TaskDocument = TaskDocument(analitic: seq<AnaliticNode>, analytics: seq<AnaliticNode>)

  /** The `analitic` elements, or the `analytics` ones when there are none. */
  function Candidates(doc: TaskDocument): seq<AnaliticNode> {
    if doc.analitic != [] then doc.analitic else doc.analytics
  }

  predicate IsProdukty(a: AnaliticNode) {
    Present(a.id) && ParseInt(a.id.value) == Some(ProduktyAnalyticKey)
  }

  predicate AnaliticIdRaises(a: AnaliticNode) { Present(a.id) && ParseInt(a.id.value).None? }

  /**
   * `has_produkty_analytics`: true iff some candidate has id 4867 and no candidate before it
   * has a non-integer id (the `ValueError` is caught around the whole loop and answers false).
   */
  method HasProduktyAnalytics(doc: TaskDocument) returns (found: bool)
    ensures found <==> exists k :: 0 <= k < |Candidates(doc)| && IsProdukty(Candidates(doc)[k])
                                   && forall j :: 0 <= j < k ==> !AnaliticIdRaises(Candidates(doc)[j])
  {
    var analytics := doc.analitic;
    if analytics == [] {
      analytics := doc.analytics;
    }
    assert analytics == Candidates(doc);
    for i := 0 to |analytics|
      invariant forall j :: 0 <= j < i ==> !IsProdukty(analytics[j]) && !AnaliticIdRaises(analytics[j])
    {
      var id := analytics[i].id;
      if Present(id) {
        var n := ParseInt(id.value);
        if n.None? {
          return false;
        }
        if n.value == ProduktyAnalyticKey {
          return true;
        }
      }
    }
    return false;
  }

  /** With only integer ids, the answer is whether any candidate is the analytic 4867. */
  lemma HasProduktyWithoutBadIds(doc: TaskDocument, found: bool)
    requires forall j :: 0 <= j < |Candidates(doc)| ==> !AnaliticIdRaises(Candidates(doc)[j])
    requires found <==> exists k :: 0 <= k < |Candidates(doc)| && IsProdukty(Candidates(doc)[k])
                                    && forall j :: 0 <= j < k ==> !AnaliticIdRaises(Candidates(doc)[j])
    ensures found <==> exists k :: 0 <= k < |Candidates(doc)| && IsProdukty(Candidates(doc)[k])
  {
  }

  // ---------------------------------------------------------------------------------------
  // parse_produkty_analytics_data

  /** `f"{key}_{task_id}_{item_id}"`, or the running count in place of an empty item id. */
  function RecordId(key: string, taskId: int, item: Item, n: nat): string {
    key + "_" + IntToString(taskId) + "_" + (if Present(item.id) then item.id.value else IntToString(n))
  }

  /** The base columns every record starts with. */
  const BaseColumns: set<string> :=
    {"id", "planfix_analytic_id", "planfix_item_id", "task_id", "order_number", "updated_at", "is_deleted"}

  /** The columns the item's field adds: its cleaned name, and `<clean>_handbook_id`. */
  function FieldColumns(item: Item): set<string> {
    if !Present(item.name) then {}
    else if Present(item.valueId) then {Cleaned(item.name.value), Cleaned(item.name.value) + "_handbook_id"}
    else {Cleaned(item.name.value)}
  }

  /** The dictionary literal of lines 320-328. */
  function BaseRecord(k: Keyed, taskId: int, orderNumber: string, now: Timestamp, n: nat, analyticId: Value, itemId: Value): Record {
    map[
      "id" := Str(RecordId(k.key, taskId, k.item, n)),
      "planfix_analytic_id" := analyticId,
      "planfix_item_id" := itemId,
      "task_id" := Int(taskId),
      "order_number" := Str(orderNumber),
      "updated_at" := Time(now),
      "is_deleted" := Bool(false)]
  }

  /** Lines 331-337: the field column, then its `_handbook_id` column, written over `rec`. */
  function WithField(rec: Record, item: Item): Record {
    if !Present(item.name) then rec
    else
      var clean := Cleaned(item.name.value);
      var withValue := rec[clean := TextValue(item.value)];
      if Present(item.valueId) then withValue[clean + "_handbook_id" := Str(item.valueId.value)] else withValue
  }

  /** The record of one keyed item; `n` is the number of records built before it. */
  function BuildRecord(k: Keyed, taskId: int, orderNumber: string, now: Timestamp, n: nat): Result<Record, ValueError> {
    match OptionalInt(Some(k.key))
    case Err(e) => Err(e)
    case Ok(analyticId) =>
      match OptionalInt(k.item.id)
      case Err(e) => Err(e)
      case Ok(itemId) => Ok(WithField(BaseRecord(k, taskId, orderNumber, now, n, analyticId, itemId), k.item))
  }

  /** Lines 311-337 for one `itemData`: the record, built one column at a time. */
  method AssembleRecord(key: string, item: Item, taskId: int, orderNumber: string, now: Timestamp, n: nat)
    returns (r: Result<Record, ValueError>)
    ensures r == BuildRecord(Keyed(key, item), taskId, orderNumber, now, n)
  {
    var recordId := if Present(item.id)
      then key + "_" + IntToString(taskId) + "_" + item.id.value
      else key + "_" + IntToString(taskId) + "_" + IntToString(n);
    var analyticId := OptionalInt(Some(key));
    if analyticId.Err? {
      return Err(analyticId.error);
    }
    var itemId := OptionalInt(item.id);
    if itemId.Err? {
      return Err(itemId.error);
    }
    var record: Record := map[
      "id" := Str(recordId),
      "planfix_analytic_id" := analyticId.value,
      "planfix_item_id" := itemId.value,
      "task_id" := Int(taskId),
      "order_number" := Str(orderNumber),
      "updated_at" := Time(now),
      "is_deleted" := Bool(false)];
    if Present(item.name) {
      var cleanName := CleanFieldName(item.name.value);
      record := record[cleanName := TextValue(item.value)];
      if Present(item.valueId) {
        record := record[cleanName + "_handbook_id" := Str(item.valueId.value)];
      }
    }
    return Ok(record);
  }

  function Builder(taskId: int, orderNumber: string, now: Timestamp): PlanfixXml.Builder {
    (k: Keyed, n: nat) => BuildRecord(k, taskId, orderNumber, now, n)
  }

  /** What `parse_produkty_analytics_data` returns, or the `ValueError` it raises. */
  function ProduktyRecords(response: AnalyticsResponse, taskId: int, orderNumber: string, now: Timestamp)
    : Result<seq<Record>, ValueError>
  {
    match response
    case ErrorStatus(_, _) => Ok([])
    case Success(datas) => BuildAll(KeyedItems(datas), Builder(taskId, orderNumber, now))
  }

  /**
   * `parse_produkty_analytics_data` for one task: the nested loops over the keyed
   * `analiticData` and their `itemData`, each record built as the base columns, then the
   * cleaned field column, then its `_handbook_id` column.
   */
  method ParseProduktyAnalyticsData(response: AnalyticsResponse, taskId: int, orderNumber: string, now: Timestamp)
    returns (r: Result<seq<Record>, ValueError>)
    ensures r == ProduktyRecords(response, taskId, orderNumber, now)
  {
    if response.ErrorStatus? {
      return Ok([]);
    }
    var datas := response.body;
    ghost var build := Builder(taskId, orderNumber, now);
    var analyticsData: seq<Record> := [];
    ghost var seen: seq<Keyed> := [];
    for i := 0 to |datas|
      invariant seen == KeyedItems(datas[..i])
      invariant BuildAll(seen, build) == Ok(analyticsData)
    {
      var analiticData := datas[i];
      KeyedItemsSnoc(datas, i);
      if analiticData.key.Some? {
        var key := analiticData.key.value;
        var items := analiticData.items;
        for j := 0 to |items|
          invariant seen == KeyedItems(datas[..i]) + KeyedOf(analiticData)[..j]
          invariant BuildAll(seen, build) == Ok(analyticsData)
        {
          var item := items[j];
          SnocPrefix(KeyedItems(datas[..i]), KeyedOf(analiticData), j);
          var next := AppendRecord(seen, key, item, taskId, orderNumber, now, analyticsData);
          if next.Err? {
            ParseAborts(datas, i, j, build);
            return Err(next.error);
          }
          seen := seen + [Keyed(key, item)];
          analyticsData := next.value;
        }
        assert KeyedOf(analiticData)[..|items|] == KeyedOf(analiticData);
      }
    }
    assert datas[..|datas|] == datas;
    return Ok(analyticsData);
  }

  /** The loop body: the records so far with the next item's record appended, or its error. */
  method AppendRecord(ghost seen: seq<Keyed>, key: string, item: Item, taskId: int, orderNumber: string, now: Timestamp, acc: seq<Record>)
    returns (next: Result<seq<Record>, ValueError>)
    requires BuildAll(seen, Builder(taskId, orderNumber, now)) == Ok(acc)
    ensures next == BuildAll(seen + [Keyed(key, item)], Builder(taskId, orderNumber, now))
  {
    var record := AssembleRecord(key, item, taskId, orderNumber, now, |acc|);
    ItemStep(seen, Keyed(key, item), taskId, orderNumber, now, acc);
    if record.Err? {
      return Err(record.error);
    }
    return Ok(acc + [record.value]);
  }

  /** One more item after an error-free prefix: its record is appended, or its error is the result. */
  lemma ItemStep(seen: seq<Keyed>, k: Keyed, taskId: int, orderNumber: string, now: Timestamp, acc: seq<Record>)
    requires BuildAll(seen, Builder(taskId, orderNumber, now)) == Ok(acc)
    ensures BuildAll(seen + [k], Builder(taskId, orderNumber, now)) ==
      match BuildRecord(k, taskId, orderNumber, now, |acc|)
      case Err(e) => Err(e)
      case Ok(rec) => Ok(acc + [rec])
  {
    BuildAllSnoc(seen, k, Builder(taskId, orderNumber, now));
  }

  /**
   * The parse of a task's analytics: nothing for an error response; otherwise, unless a key or
   * an item id is not an integer, the `i`-th record is that of the `i`-th keyed item, built
   * with `i` records before it.
   */
  lemma ProduktyRecordsShape(response: AnalyticsResponse, taskId: int, orderNumber: string, now: Timestamp)
    ensures response.ErrorStatus? ==> ProduktyRecords(response, taskId, orderNumber, now) == Ok([])
    ensures response.Success? ==>
      var ks := KeyedItems(response.body);
      var r := ProduktyRecords(response, taskId, orderNumber, now);
      (r.Ok? <==> forall i :: 0 <= i < |ks| ==> BuildRecord(ks[i], taskId, orderNumber, now, i).Ok?)
      && (r.Ok? ==> |r.value| == |ks| && forall i :: 0 <= i < |ks| ==> BuildRecord(ks[i], taskId, orderNumber, now, i) == Ok(r.value[i]))
  {
    if response.Success? {
      var ks := KeyedItems(response.body);
      var build := Builder(taskId, orderNumber, now);
      assert ProduktyRecords(response, taskId, orderNumber, now) == BuildAll(ks, build);
      BuildAllSpec(ks, build);
      forall i | 0 <= i < |ks|
        ensures build(ks[i], i) == BuildRecord(ks[i], taskId, orderNumber, now, i)
      {
      }
    }
  }

  /** A record is built unless its non-empty key, or its non-empty item id, is not an integer. */
  lemma BuildRecordRaises(k: Keyed, taskId: int, orderNumber: string, now: Timestamp, n: nat)
    ensures BuildRecord(k, taskId, orderNumber, now, n).Err? <==>
      (k.key != "" && !IsIntLiteral(k.key)) || (Present(k.item.id) && !IsIntLiteral(k.item.id.value))
    ensures k.key != "" && !IsIntLiteral(k.key) ==> BuildRecord(k, taskId, orderNumber, now, n) == Err(ValueError(k.key))
  {
  }

  /**
   * The columns of a record: the base columns, each holding its base value unless the item's
   * field column has the same name, plus the field column holding the item's value and,
   * with a non-empty `valueId`, the `_handbook_id` column holding it.
   */
  lemma RecordContents(k: Keyed, taskId: int, orderNumber: string, now: Timestamp, n: nat)
    requires BuildRecord(k, taskId, orderNumber, now, n).Ok?
    ensures var rec := BuildRecord(k, taskId, orderNumber, now, n).value;
      && rec.Keys == BaseColumns + FieldColumns(k.item)
      && ("id" !in FieldColumns(k.item) ==> rec["id"] == Str(RecordId(k.key, taskId, k.item, n)))
      && ("planfix_analytic_id" !in FieldColumns(k.item) ==>
            rec["planfix_analytic_id"] == if k.key == "" then Null else Int(ParseInt(k.key).value))
      && ("planfix_item_id" !in FieldColumns(k.item) ==>
            rec["planfix_item_id"] == if !Present(k.item.id) then Null else Int(ParseInt(k.item.id.value).value))
      && ("task_id" !in FieldColumns(k.item) ==> rec["task_id"] == Int(taskId))
      && ("order_number" !in FieldColumns(k.item) ==> rec["order_number"] == Str(orderNumber))
      && ("updated_at" !in FieldColumns(k.item) ==> rec["updated_at"] == Time(now))
      && ("is_deleted" !in FieldColumns(k.item) ==> rec["is_deleted"] == Bool(false))
      && (Present(k.item.name) ==> rec[Cleaned(k.item.name.value)] == TextValue(k.item.value))
      && (Present(k.item.name) && Present(k.item.valueId) ==>
            rec[Cleaned(k.item.name.value) + "_handbook_id"] == Str(k.item.valueId.value))
  {
    if Present(k.item.name) {
      var clean := Cleaned(k.item.name.value);
      assert |clean + "_handbook_id"| > |clean|;
    }
  }

  /**
   * An item whose cleaned name is `id` writes its value over the record id the base columns
   * set; without a `<value>` that is `None`, and the record then drops out of the soft-delete
   * list.
   */
  lemma FieldNamedIdOverwritesRecordId(k: Keyed, taskId: int, orderNumber: string, now: Timestamp, n: nat)
    requires k.key == "" || IsIntLiteral(k.key)
    requires !Present(k.item.id) || IsIntLiteral(k.item.id.value)
    requires Present(k.item.name) && Cleaned(k.item.name.value) == IdColumn
    ensures var rec := BuildRecord(k, taskId, orderNumber, now, n);
      && rec.Ok?
      && rec.value[IdColumn] == TextValue(k.item.value)
      && (Truthy(rec.value[IdColumn]) <==> Present(k.item.value))
  {
    BuildRecordRaises(k, taskId, orderNumber, now, n);
    RecordContents(k, taskId, orderNumber, now, n);
  }

  /** `ID`, for one, is cleaned to `id`. */
  lemma UpperIdIsIdColumn()
    ensures Cleaned("ID") == IdColumn
  {
    var name := "ID";
    assert IsAsciiUpper(name[0]) && IsAsciiUpper(name[1]);
    assert forall i :: 0 <= i < |name| ==> !OnlyFoldedBy(name[i]) && IsAlnum(name[i]);
    CleanersAgreeUpToCase(name);
    ColumnNameProperties(name);
    assert Lower(name[0]) == 'i' && Lower(name[1]) == 'd';
    assert LowerStr(name) == IdColumn;
  }

  /** A record keeps its composite id, which is never empty, when no field column is `id`. */
  lemma RecordIdKept(k: Keyed, taskId: int, orderNumber: string, now: Timestamp, n: nat)
    requires BuildRecord(k, taskId, orderNumber, now, n).Ok?
    requires IdColumn !in FieldColumns(k.item)
    ensures IdColumn in BuildRecord(k, taskId, orderNumber, now, n).value
    ensures BuildRecord(k, taskId, orderNumber, now, n).value[IdColumn] == Str(RecordId(k.key, taskId, k.item, n))
    ensures Truthy(BuildRecord(k, taskId, orderNumber, now, n).value[IdColumn])
  {
    RecordContents(k, taskId, orderNumber, now, n);
  }

  // ---------------------------------------------------------------------------------------
  // The loop over the tasks (export_produkty_with_orders)

  /** What the export has for one task: its list entry and the two responses fetched for it. */
  datatype TaskFetch = TaskFetch(task: TaskRow, details: Response<seq<TaskNode>>, analytics: AnalyticsResponse)

  /** The records of one task, its order number taken from its details. */
  function TaskRecords(f: TaskFetch, now: Timestamp): Result<seq<Record>, ValueError> {
    ProduktyRecords(f.analytics, f.task.id, OrderNumber(ParseTaskDetails(f.details), f.task.id), now)
  }

  /** All records, task after task; a task whose parse raises contributes nothing. */
  function Collected(fs: seq<TaskFetch>, now: Timestamp): (all: seq<Record>)
    ensures forall rec :: rec in all <==>
      exists i :: 0 <= i < |fs| && TaskRecords(fs[i], now).Ok? && rec in TaskRecords(fs[i], now).value
    decreases |fs|
  {
    if fs == [] then []
    else
      var init, last := fs[..|fs| - 1], fs[|fs| - 1];
      var rest := Collected(init, now);
      CollectedStep(fs, init, last, now, rest);
      rest + OwnRecords(last, now)
  }

  /** The records one task adds: none when its parse raises. */
  function OwnRecords(f: TaskFetch, now: Timestamp): seq<Record> {
    match TaskRecords(f, now) case Ok(rs) => rs case Err(_) => []
  }

  /** The membership step of `Collected`: the last task's records join those of the others. */
  lemma CollectedStep(fs: seq<TaskFetch>, init: seq<TaskFetch>, last: TaskFetch, now: Timestamp, rest: seq<Record>)
    requires fs == init + [last]
    requires forall rec :: rec in rest <==>
      exists i :: 0 <= i < |init| && TaskRecords(init[i], now).Ok? && rec in TaskRecords(init[i], now).value
    ensures forall rec :: rec in rest + OwnRecords(last, now) <==>
      exists i :: 0 <= i < |fs| && TaskRecords(fs[i], now).Ok? && rec in TaskRecords(fs[i], now).value
  {
    assert forall i :: 0 <= i < |init| ==> fs[i] == init[i];
    assert fs[|init|] == last;
    forall rec
      ensures rec in rest + OwnRecords(last, now) <==>
        exists i :: 0 <= i < |fs| && TaskRecords(fs[i], now).Ok? && rec in TaskRecords(fs[i], now).value
    {
      if rec in OwnRecords(last, now) {
        assert TaskRecords(fs[|init|], now).Ok? && rec in TaskRecords(fs[|init|], now).value;
      }
      if exists i :: 0 <= i < |fs| && TaskRecords(fs[i], now).Ok? && rec in TaskRecords(fs[i], now).value {
        var i :| 0 <= i < |fs| && TaskRecords(fs[i], now).Ok? && rec in TaskRecords(fs[i], now).value;
        if i < |init| {
          assert rec in rest;
        }
      }
    }
  }

  /** Lines 403-426: the records of every task whose analytics parse without error. */
  method CollectRecords(fs: seq<TaskFetch>, now: Timestamp) returns (all: seq<Record>)
    ensures all == Collected(fs, now)
  {
    all := [];
    for i := 0 to |fs|
      invariant all == Collected(fs[..i], now)
    {
      var task := fs[i];
      var taskInfo := ParseTaskDetails(task.details);
      var orderNumber := OrderNumber(taskInfo, task.task.id);
      var analyticsData := ParseProduktyAnalyticsData(task.analytics, task.task.id, orderNumber, now);
      assert fs[..i + 1][..i] == fs[..i];
      if analyticsData.Ok? {
        all := all + analyticsData.value;
      }
    }
    assert fs[..|fs|] == fs;
  }

  /**
   * Lines 428-468: no records, no database step; otherwise each record cut down to the table's
   * columns with the defaults filled in, and the truthy `id` values of the result, in order,
   * for the soft-delete step.
   */
  method PrepareForUpsert(all: seq<Record>, tableColumns: seq<string>, now: Timestamp)
    returns (batch: Option<Batch>)
    ensures batch.None? <==> all == []
    ensures batch.Some? ==> |batch.value.prepared| == |all|
    ensures batch.Some? ==> forall i :: 0 <= i < |all| ==> batch.value.prepared[i] == Project(all[i], tableColumns, now)
    ensures batch.Some? ==> batch.value.ids == SoftDeleteIds(batch.value.prepared, IdColumn)
  {
    if all == [] {
      return None;
    }
    var prepared := PrepareDataForUpsert(all, tableColumns, now);
    var ids := SoftDeleteIds(prepared, IdColumn);
    return Some(Batch(prepared, ids));
  }

  /**
   * For one task whose items have no field column named `id`, the soft-delete list holds the
   * composite id of every record, in document order.
   */
  lemma UpsertIdsAreRecordIds(response: AnalyticsResponse, taskId: int, orderNumber: string, tableColumns: seq<string>, now: Timestamp)
    requires response.Success?
    requires ProduktyRecords(response, taskId, orderNumber, now).Ok?
    requires IdColumn in tableColumns
    requires forall k :: k in KeyedItems(response.body) ==> IdColumn !in FieldColumns(k.item)
    ensures var rs := ProduktyRecords(response, taskId, orderNumber, now).value;
      var ks := KeyedItems(response.body);
      |rs| == |ks|
      && SoftDeleteIds(seq(|rs|, i requires 0 <= i < |rs| => Project(rs[i], tableColumns, now)), IdColumn)
         == seq(|ks|, i requires 0 <= i < |ks| => Str(RecordId(ks[i].key, taskId, ks[i].item, i)))
  {
    var rs := ProduktyRecords(response, taskId, orderNumber, now).value;
    var ks := KeyedItems(response.body);
    ProduktyRecordsShape(response, taskId, orderNumber, now);
    forall i | 0 <= i < |rs|
      ensures IdColumn in rs[i] && rs[i][IdColumn] == Str(RecordId(ks[i].key, taskId, ks[i].item, i))
    {
      assert ks[i] in ks;
      RecordIdKept(ks[i], taskId, orderNumber, now, i);
    }
    SoftDeleteIdsOfProjection(rs, tableColumns, now, IdColumn);
  }
}
