/**
 * `generate_table_sql`: the column list `create_supabase_table` derives from the field
 * structure, and the `CREATE TABLE` script that lists those columns, indexes four of them and
 * comments the table.
 */
module TableSql {
  import opened Wrappers
  import opened PlanfixXml
  import opened FieldNames
  import opened FieldTypes
  import opened TableSchema
  import opened SeqFacts

  /** One entry of the `columns` list: the quoted name and the rest of its definition. */
  datatype ColumnDef = ColumnDef(name: string, decl: string)

  /** `f'"{name}" {decl}'` */
  function Render(c: ColumnDef): string { "\"" + c.name + "\" " + c.decl }

  /** The five base columns, in their fixed order. */
  function FixedColumns(tableName: string): seq<ColumnDef> {
    [ ColumnDef(tableName + "_id", "TEXT PRIMARY KEY"),
      ColumnDef("analitic_key", "INTEGER NOT NULL"),
      ColumnDef("item_id", "INTEGER"),
      ColumnDef("updated_at", "TIMESTAMP DEFAULT NOW()"),
      ColumnDef("is_deleted", "BOOLEAN DEFAULT FALSE") ]
  }

  /** The columns of one field: its cleaned name with its type, then `<clean>_id TEXT` if flagged. */
  function FieldDefs(e: Entry): seq<ColumnDef> {
    var clean := TableColumnName(e.name);
    [ColumnDef(clean, TypeName(e.info.fieldType))] + (if e.info.hasValueId then [ColumnDef(clean + "_id", "TEXT")] else [])
  }

  /** The field columns, entry after entry in dictionary order. */
  function FieldColumnsOf(st: Structure): seq<ColumnDef>
    decreases |st|
  {
    if st == [] then [] else FieldColumnsOf(st[..|st| - 1]) + FieldDefs(st[|st| - 1])
  }

  function TableColumns(tableName: string, st: Structure): seq<ColumnDef> {
    FixedColumns(tableName) + FieldColumnsOf(st)
  }

  /** Number of entries flagged `has_value_id`. */
  function ValueIdCount(st: Structure): nat
    decreases |st|
  {
    if st == [] then 0 else ValueIdCount(st[..|st| - 1]) + (if st[|st| - 1].info.hasValueId then 1 else 0)
  }

  /** `sep.join(parts)` */
  function Join(parts: seq<string>, sep: string): string
    decreases |parts|
  {
    if parts == [] then "" else if |parts| == 1 then parts[0] else parts[0] + sep + Join(parts[1..], sep)
  }

  function Rendered(columns: seq<ColumnDef>): seq<string> {
    seq(|columns|, i requires 0 <= i < |columns| => Render(columns[i]))
  }

  function IndexSql(tableName: string, column: string): string {
    "CREATE INDEX IF NOT EXISTS idx_" + tableName + "_" + column + " ON \"" + tableName + "\" (" + column + ");\n"
  }

  /** The four index statements, in order. */
  function IndexesSql(tableName: string): string {
    IndexSql(tableName, "analitic_key") + IndexSql(tableName, "item_id")
    + IndexSql(tableName, "updated_at") + IndexSql(tableName, "is_deleted")
  }

  const IndexesComment: string :=
    "-- \U{0421}\U{043E}\U{0437}\U{0434}\U{0430}\U{0435}\U{043C} \U{0438}\U{043D}\U{0434}\U{0435}\U{043A}\U{0441}\U{044B} \U{0434}\U{043B}\U{044F} \U{043E}\U{043F}\U{0442}\U{0438}\U{043C}\U{0438}\U{0437}\U{0430}\U{0446}\U{0438}\U{0438}"

  const CommentsComment: string :=
    "-- \U{0414}\U{043E}\U{0431}\U{0430}\U{0432}\U{043B}\U{044F}\U{0435}\U{043C} \U{043A}\U{043E}\U{043C}\U{043C}\U{0435}\U{043D}\U{0442}\U{0430}\U{0440}\U{0438}\U{0438} \U{043A} \U{0442}\U{0430}\U{0431}\U{043B}\U{0438}\U{0446}\U{0435}"

  /** The start of the table comment, before the analytic key. */
  const TableCommentPrefix: string :=
    "\U{0414}\U{0430}\U{043D}\U{043D}\U{044B}\U{0435} \U{0430}\U{043D}\U{0430}\U{043B}\U{0438}\U{0442}\U{0438}\U{043A}\U{0438} Planfix \U{0441} \U{043A}\U{043B}\U{044E}\U{0447}\U{043E}\U{043C} "

  /** `CREATE TABLE IF NOT EXISTS "<table>" (` and the indentation of the first column. */
  function TableHead(tableName: string): string {
    "CREATE TABLE IF NOT EXISTS \"" + tableName + "\" (\n    "
  }

  /** `COMMENT ON TABLE "<table>" IS '<prefix><key>';` */
  function CommentSql(tableName: string, analyticKey: string): string {
    "COMMENT ON TABLE \"" + tableName + "\" IS '" + (TableCommentPrefix + analyticKey) + "';\n"
  }

  /** The end of the column list and the comment over the indexes. */
  function CloseColumns(): string { "\n);\n\n" + IndexesComment + "\n" }

  /** The comment over the table comment, and the table comment. */
  function CommentPart(tableName: string, analyticKey: string): string {
    "\n" + CommentsComment + "\n" + CommentSql(tableName, analyticKey)
  }

  /** Everything after the column definitions: the indexes and the table comment. */
  function TableFoot(tableName: string, analyticKey: string): string {
    CloseColumns() + IndexesSql(tableName) + CommentPart(tableName, analyticKey)
  }

  /** The script: the table with its column definitions joined by `,\n    `, the indexes, the comment. */
  function TableSql(tableName: string, columns: seq<ColumnDef>, analyticKey: string): string {
    TableHead(tableName) + Join(Rendered(columns), ",\n    ") + TableFoot(tableName, analyticKey)
  }

  /**
   * `generate_table_sql`: the base columns, then for each field in dictionary order its column
   * and, when it has value ids, its `_id` column; then the script built from them.
   */
  method GenerateTableSql(tableName: string, fieldsStructure: Structure, analyticKey: string)
    returns (columns: seq<ColumnDef>, sql: string)
    ensures columns == TableColumns(tableName, fieldsStructure)
    ensures sql == TableSql(tableName, columns, analyticKey)
  {
    columns := FixedColumns(tableName);
    for i := 0 to |fieldsStructure|
      invariant columns == FixedColumns(tableName) + FieldColumnsOf(fieldsStructure[..i])
    {
      var fieldName, fieldInfo := fieldsStructure[i].name, fieldsStructure[i].info;
      var cleanFieldName := TableColumnName(fieldName);
      columns := columns + [ColumnDef(cleanFieldName, TypeName(fieldInfo.fieldType))];
      if fieldInfo.hasValueId {
        columns := columns + [ColumnDef(cleanFieldName + "_id", "TEXT")];
      }
      assert fieldsStructure[..i + 1][..i] == fieldsStructure[..i];
    }
    assert fieldsStructure[..|fieldsStructure|] == fieldsStructure;
    sql := TableSql(tableName, columns, analyticKey);
  }

  /**
   * Lines 236-255 of the script's entry point: the structure is parsed, and the script is
   * generated only when it has a field; a response with no named item under a keyed
   * `analiticData`, or an error response, stops before any SQL.
   */
  method TableScript(response: AnalyticsResponse, tableName: string, analyticKey: string)
    returns (sql: Option<string>)
    ensures sql.None? <==> response.ErrorStatus? || ObservationsOf(KeyedItems(response.body)) == []
    ensures sql.Some? ==>
      sql.value == TableSql(tableName, TableColumns(tableName, AnalyticsStructure(response)), analyticKey)
  {
    var fieldsStructure := ParseAnalyticsStructure(response);
    if response.Success? {
      StructureEmpty(ObservationsOf(KeyedItems(response.body)));
    }
    if fieldsStructure == [] {
      return None;
    }
    var columns, script := GenerateTableSql(tableName, fieldsStructure, analyticKey);
    return Some(script);
  }

  // ---------------------------------------------------------------------------------------
  // The layout of the column list

  lemma {:induction false} FieldColumnsAppend(a: Structure, b: Structure)
    ensures FieldColumnsOf(a + b) == FieldColumnsOf(a) + FieldColumnsOf(b)
    ensures ValueIdCount(a + b) == ValueIdCount(a) + ValueIdCount(b)
    decreases |b|
  {
    if b == [] {
      assert a + b == a;
    } else {
      InitOfAppend(a, b);
      FieldColumnsAppend(a, b[..|b| - 1]);
      AppendAssoc(FieldColumnsOf(a), FieldColumnsOf(b[..|b| - 1]), FieldDefs(b[|b| - 1]));
    }
  }

  lemma {:induction false} FieldColumnsCount(st: Structure)
    ensures |FieldColumnsOf(st)| == |st| + ValueIdCount(st)
    decreases |st|
  {
    if st != [] {
      FieldColumnsCount(st[..|st| - 1]);
    }
  }

  /** The columns of the `i`-th field sit after the base columns and those of the fields before it. */
  lemma FieldAt(tableName: string, st: Structure, i: nat)
    requires i < |st|
    ensures var cs := TableColumns(tableName, st);
      var at := 5 + i + ValueIdCount(st[..i]);
      at + |FieldDefs(st[i])| <= |cs| && cs[at..at + |FieldDefs(st[i])|] == FieldDefs(st[i])
  {
    var cs := TableColumns(tableName, st);
    var before, here, after := st[..i], st[i..i + 1], st[i + 1..];
    assert st == before + here + after;
    FieldColumnsAppend(before, here);
    FieldColumnsAppend(before + here, after);
    FieldColumnsCount(before);
    assert here == [] + [st[i]];
    assert FieldColumnsOf(here) == FieldDefs(st[i]);
    var prefix := FixedColumns(tableName) + FieldColumnsOf(before);
    assert cs == prefix + FieldDefs(st[i]) + FieldColumnsOf(after);
    assert |prefix| == 5 + i + ValueIdCount(before);
  }

  /**
   * Field `i`'s column sits at position `at` of `cs`, followed by its `_id` column when it is
   * flagged, and the next field's column comes right after.
   */
  predicate LaidOut(cs: seq<ColumnDef>, st: Structure, i: nat, at: nat)
    requires i < |st|
  {
    && at + (if st[i].info.hasValueId then 2 else 1) <= |cs|
    && cs[at] == ColumnDef(TableColumnName(st[i].name), TypeName(st[i].info.fieldType))
    && (st[i].info.hasValueId ==> cs[at + 1] == ColumnDef(TableColumnName(st[i].name) + "_id", "TEXT"))
    && ValueIdCount(st[..i + 1]) == ValueIdCount(st[..i]) + (if st[i].info.hasValueId then 1 else 0)
  }

  /**
   * The list holds `5 + n + #has_value_id` columns: the five base columns first, then, for the
   * `i`-th field, its column at position `5 + i + ` (flags among the fields before it), followed
   * immediately by its `_id` column when it is flagged; the next field's column comes right
   * after.
   */
  lemma ColumnLayout(tableName: string, st: Structure)
    ensures |TableColumns(tableName, st)| == 5 + |st| + ValueIdCount(st)
    ensures TableColumns(tableName, st)[..5] == FixedColumns(tableName)
    ensures forall i :: 0 <= i < |st| ==> LaidOut(TableColumns(tableName, st), st, i, 5 + i + ValueIdCount(st[..i]))
  {
    var cs := TableColumns(tableName, st);
    FieldColumnsCount(st);
    assert cs[..5] == FixedColumns(tableName);
    forall i | 0 <= i < |st|
      ensures LaidOut(cs, st, i, 5 + i + ValueIdCount(st[..i]))
    {
      FieldAt(tableName, st, i);
      var at := 5 + i + ValueIdCount(st[..i]);
      var defs := FieldDefs(st[i]);
      assert cs[at] == cs[at..at + |defs|][0] == defs[0];
      if st[i].info.hasValueId {
        assert cs[at + 1] == cs[at..at + |defs|][1] == defs[1];
      }
      assert st[..i + 1][..i] == st[..i];
    }
  }

  /** Every field has its column in the table, and its `_id` column when it is flagged. */
  lemma ColumnsOfFields(tableName: string, st: Structure)
    ensures forall e :: e in st ==> ColumnDef(TableColumnName(e.name), TypeName(e.info.fieldType)) in TableColumns(tableName, st)
    ensures forall e :: e in st && e.info.hasValueId ==> ColumnDef(TableColumnName(e.name) + "_id", "TEXT") in TableColumns(tableName, st)
  {
    var cs := TableColumns(tableName, st);
    forall e | e in st
      ensures ColumnDef(TableColumnName(e.name), TypeName(e.info.fieldType)) in cs
      ensures e.info.hasValueId ==> ColumnDef(TableColumnName(e.name) + "_id", "TEXT") in cs
    {
      var i :| 0 <= i < |st| && st[i] == e;
      FieldAt(tableName, st, i);
      var at := 5 + i + ValueIdCount(st[..i]);
      var defs := FieldDefs(e);
      assert cs[at] == cs[at..at + |defs|][0] == defs[0];
      if e.info.hasValueId {
        assert cs[at + 1] == cs[at..at + |defs|][1] == defs[1];
      }
    }
  }

  // ---------------------------------------------------------------------------------------
  // The script

  /** `a` sits in `b` at position `k`. */
  predicate IsAt(a: string, b: string, k: nat) {
    k + |a| <= |b| && b[k..k + |a|] == a
  }

  /** `a` occurs in `b`. */
  ghost predicate Occurs(a: string, b: string) {
    exists k: nat :: IsAt(a, b, k)
  }

  lemma OccursSelf(a: string)
    ensures Occurs(a, a)
  {
    assert a[0..|a|] == a;
    assert IsAt(a, a, 0);
  }

  lemma OccursLeft(a: string, b: string, p: string)
    requires Occurs(a, b)
    ensures Occurs(a, p + b)
  {
    var k: nat :| IsAt(a, b, k);
    assert (p + b)[|p| + k..|p| + k + |a|] == b[k..k + |a|];
    assert IsAt(a, p + b, |p| + k);
  }

  lemma OccursRight(a: string, b: string, q: string)
    requires Occurs(a, b)
    ensures Occurs(a, b + q)
  {
    var k: nat :| IsAt(a, b, k);
    assert (b + q)[k..k + |a|] == b[k..k + |a|];
    assert IsAt(a, b + q, k);
  }

  lemma OccursIn(p: string, a: string, q: string)
    ensures Occurs(a, p + a + q)
  {
    assert (p + a + q)[|p|..|p| + |a|] == a;
    assert IsAt(a, p + a + q, |p|);
  }

  lemma OccursWithin(a: string, b: string, p: string, q: string)
    requires Occurs(a, b)
    ensures Occurs(a, p + b + q)
  {
    var k: nat :| IsAt(a, b, k);
    assert (p + b + q)[|p| + k..|p| + k + |a|] == b[k..k + |a|];
    assert IsAt(a, p + b + q, |p| + k);
  }

  /** Each part occurs in the joined text. */
  lemma {:induction false} JoinHasParts(parts: seq<string>, sep: string)
    ensures forall i :: 0 <= i < |parts| ==> Occurs(parts[i], Join(parts, sep))
    decreases |parts|
  {
    if |parts| == 1 {
      OccursIn("", parts[0], "");
      assert "" + parts[0] + "" == parts[0];
    } else if |parts| > 1 {
      JoinHasParts(parts[1..], sep);
      forall i | 0 <= i < |parts|
        ensures Occurs(parts[i], Join(parts, sep))
      {
        if i == 0 {
          OccursIn("", parts[0], sep + Join(parts[1..], sep));
          assert "" + parts[0] + (sep + Join(parts[1..], sep)) == Join(parts, sep);
        } else {
          assert parts[i] == parts[1..][i - 1];
          OccursWithin(parts[i], Join(parts[1..], sep), parts[0] + sep, "");
          assert parts[0] + sep + Join(parts[1..], sep) + "" == Join(parts, sep);
        }
      }
    }
  }

  /** The script defines every column of the list, as `"name" decl`. */
  lemma ScriptColumns(tableName: string, columns: seq<ColumnDef>, analyticKey: string)
    ensures forall i :: 0 <= i < |columns| ==> Occurs(Render(columns[i]), TableSql(tableName, columns, analyticKey))
  {
    var body := Join(Rendered(columns), ",\n    ");
    JoinHasParts(Rendered(columns), ",\n    ");
    forall i | 0 <= i < |columns|
      ensures Occurs(Render(columns[i]), TableSql(tableName, columns, analyticKey))
    {
      assert Rendered(columns)[i] == Render(columns[i]);
      OccursWithin(Render(columns[i]), body, TableHead(tableName), TableFoot(tableName, analyticKey));
    }
  }

  /** Whatever occurs in the part after the columns occurs in the script. */
  lemma FootInScript(a: string, tableName: string, columns: seq<ColumnDef>, analyticKey: string)
    requires Occurs(a, TableFoot(tableName, analyticKey))
    ensures Occurs(a, TableSql(tableName, columns, analyticKey))
  {
    OccursLeft(a, TableFoot(tableName, analyticKey), TableHead(tableName) + Join(Rendered(columns), ",\n    "));
  }

  /** Each of four pieces occurs in their concatenation. */
  lemma OccursInFour(a: string, b: string, c: string, d: string)
    ensures Occurs(a, a + b + c + d) && Occurs(b, a + b + c + d)
    ensures Occurs(c, a + b + c + d) && Occurs(d, a + b + c + d)
  {
    OccursSelf(a);
    OccursRight(a, a, b);
    OccursRight(a, a + b, c);
    OccursRight(a, a + b + c, d);
    OccursSelf(b);
    OccursLeft(b, b, a);
    OccursRight(b, a + b, c);
    OccursRight(b, a + b + c, d);
    OccursSelf(c);
    OccursLeft(c, c, a + b);
    OccursRight(c, a + b + c, d);
    OccursSelf(d);
    OccursLeft(d, d, a + b + c);
  }

  /** An index statement of the block occurs in the script. */
  lemma IndexInScript(x: string, tableName: string, columns: seq<ColumnDef>, analyticKey: string)
    requires Occurs(x, IndexesSql(tableName))
    ensures Occurs(x, TableSql(tableName, columns, analyticKey))
  {
    OccursLeft(x, IndexesSql(tableName), CloseColumns());
    OccursRight(x, CloseColumns() + IndexesSql(tableName), CommentPart(tableName, analyticKey));
    FootInScript(x, tableName, columns, analyticKey);
  }

  /** The script creates the four indexes, on `analitic_key`, `item_id`, `updated_at` and `is_deleted`. */
  lemma ScriptIndexes(tableName: string, columns: seq<ColumnDef>, analyticKey: string)
    ensures Occurs(IndexSql(tableName, "analitic_key"), TableSql(tableName, columns, analyticKey))
    ensures Occurs(IndexSql(tableName, "item_id"), TableSql(tableName, columns, analyticKey))
    ensures Occurs(IndexSql(tableName, "updated_at"), TableSql(tableName, columns, analyticKey))
    ensures Occurs(IndexSql(tableName, "is_deleted"), TableSql(tableName, columns, analyticKey))
  {
    var a, b, c, d := IndexSql(tableName, "analitic_key"), IndexSql(tableName, "item_id"),
                      IndexSql(tableName, "updated_at"), IndexSql(tableName, "is_deleted");
    OccursInFour(a, b, c, d);
    IndexInScript(a, tableName, columns, analyticKey);
    IndexInScript(b, tableName, columns, analyticKey);
    IndexInScript(c, tableName, columns, analyticKey);
    IndexInScript(d, tableName, columns, analyticKey);
  }

  /** The table comment names the analytic key. */
  lemma ScriptComment(tableName: string, columns: seq<ColumnDef>, analyticKey: string)
    ensures Occurs(TableCommentPrefix + analyticKey, TableSql(tableName, columns, analyticKey))
  {
    var comment := TableCommentPrefix + analyticKey;
    var cmt := "COMMENT ON TABLE \"" + tableName + "\" IS '";
    OccursSelf(comment);
    OccursLeft(comment, comment, cmt);
    OccursRight(comment, cmt + comment, "';\n");
    OccursLeft(comment, CommentSql(tableName, analyticKey), "\n" + CommentsComment + "\n");
    OccursLeft(comment, CommentPart(tableName, analyticKey), CloseColumns() + IndexesSql(tableName));
    FootInScript(comment, tableName, columns, analyticKey);
  }
}
