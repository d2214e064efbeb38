# Planfix analytics export, modelled in Dafny

The planfix_analytics scripts move one Planfix "analytic" into a Postgres (Supabase) table.
This project models the logic between the network and the database in three of them:

- `create_supabase_table.py` reads an `analitic.getData` response. It summarises each field:
  the type of its first value, its distinct values and whether it ever carries a `valueId`.
  From that summary it builds the column list and the `CREATE TABLE` script.
- `export_produkty_analytics.py` turns the same kind of response into one flat record per
  `itemData`, keyed by `<table>_id`. It cuts each record down to the table's columns and
  lists the keys for the soft-delete step.
- `export_produkty_with_orders.py` does the same per task (order):
  - it parses the task list and the task details;
  - it checks whether a task carries the analytic 4867;
  - it builds records keyed by `id` from key, task id and item id;
  - it cleans field names with its own Polish-folding cleaner.

Parsed XML is a datatype (`PlanfixXml`). `findtext` gives `None` for a missing element and
`""` for an empty one, and the two are kept apart. `int()` is partial and its `ValueError`
is a `Result` error. `datetime.now()` is one `now` parameter.

The modules:

- `PyStr`: the parts of `str`, `int()`, `str(int)` and `float()` the scripts use.
- `FieldNames`: the three field-name cleaners.
- `PlanfixXml`: responses, the keyed items in document order, records and the record fold.
- `Projection`: `prepare_data_for_upsert` and the soft-delete id list.
- `FieldTypes`: `determine_field_type` and `is_date_string`.
- `TableSchema`: `parse_analytics_structure`.
- `TableSql`: `generate_table_sql`.
- `ExportAnalytics`: export_produkty_analytics.py.
- `ExportWithOrders`: export_produkty_with_orders.py.
- `SchemaAgreement`: a property that links table creation and export.
- `SeqFacts`: generic sequence lemmas.
- `Wrappers`: `Option` and `Result`.

Three behaviours of the code are worth stating outright:

- `parse_analytics_structure` keeps the type of a field's first observation. It never widens
  a field with conflicting values to TEXT (scripts/create_supabase_table.py:74-79).
- No value is normalised: a decimal comma is not turned into a dot.
- The with-orders export suffixes a handbook value column `_handbook_id`. The other two
  scripts use `_id`.

## Model

| member | source | states |
|---|---|---|
| PyStr.IntToStringRoundTrip | scripts/export_produkty_with_orders.py:317 | `int()` reads back the decimal text an f-string writes for any int, negative ones included |
| FieldNames.CleanFieldName | scripts/export_produkty_with_orders.py:347-366 | the loop of 23 `.replace` calls in table order, then the filter and `lower()`, equals `Cleaned`: each character replaced at once by its first table entry, then filtered and lower-cased |
| FieldNames.ReplaceCharStep | scripts/export_produkty_with_orders.py:359-360 | one more `.replace` after earlier ones equals one substitution by the longer table, as long as its pattern is in no earlier replacement text |
| FieldNames.ReplacementsIndependent | scripts/export_produkty_with_orders.py:352-356 | no entry's character occurs in the text of an earlier entry, so the chain never rewrites its own output |
| FieldNames.PatternsDistinct | scripts/export_produkty_with_orders.py:352-356 | the 23 keys of the replacement dictionary are distinct |
| FieldNames.CleanedIsClean | scripts/export_produkty_with_orders.py:358-366 | every output character is `_`, a digit or a lower-case letter; no space, `-`, `.`, `,`, `%`, Polish letter or upper-case letter survives |
| FieldNames.CleanedFixesCleanNames | scripts/export_produkty_with_orders.py:358-366 | a name made only of `_`, digits and lower-case ASCII or Cyrillic letters comes back unchanged |
| FieldNames.CleanedIdempotent | scripts/export_produkty_with_orders.py:347-366 | cleaning a cleaned name changes nothing |
| FieldNames.CleanedConcat | scripts/export_produkty_with_orders.py:358-366 | the cleaner works character by character: the result for `a + b` is the result for `a` followed by the one for `b` |
| FieldNames.CleanedFoldsPolish | scripts/export_produkty_with_orders.py:352-354 | each of the 18 Polish letters, upper or lower case, becomes its ASCII base letter in lower case |
| FieldNames.CleanedSeparators | scripts/export_produkty_with_orders.py:355 | space, `-`, `.` and `,` each become `_` |
| FieldNames.CleanedPercent | scripts/export_produkty_with_orders.py:355 | `%` becomes `procent` |
| FieldNames.ColumnNameIsSubstAll | scripts/export_produkty_analytics.py:87-88 | the chain of three `.replace` calls and the filter is the substitution by the three-entry table ` `, `-`, `.` to `_`, then the filter |
| FieldNames.ColumnNameProperties | scripts/export_produkty_analytics.py:87-88 | the record-key cleaner keeps only alphanumerics and `_`, leaves a name made only of those unchanged and is idempotent |
| FieldNames.InlineCleanersAgree | scripts/create_supabase_table.py:162-163 | the column-name cleaner of table creation gives the same name as the record-key cleaner of the export, for every name |
| FieldNames.CleanersAgreeUpToCase | scripts/export_produkty_with_orders.py:347-366 | for a name without Polish letters, `,` or `%`, `clean_field_name` is the inline cleaner followed by `lower()` |
| PlanfixXml.KeyedItemsAppend | scripts/export_produkty_analytics.py:61-67 | the keyed items of a document are those of its first part followed by those of the rest |
| PlanfixXml.KeyedItemsCount | scripts/export_produkty_analytics.py:61-67 | there is one keyed item per `itemData` under each `analiticData` that has a `key` element, and none under one without |
| PlanfixXml.OptionalInt | scripts/export_produkty_analytics.py:79-80 | `int(t) if t else None`: `None` for a missing or empty text, the integer when `int()` accepts the text, otherwise the `ValueError` for that text |
| PlanfixXml.BuildAllSpec | scripts/export_produkty_analytics.py:58-97 | the nested loops give record `i` from keyed item `i` with `i` records before it; they fail exactly when some item's record raises, with the first such error |
| PlanfixXml.BuildAllErrSticky | scripts/export_produkty_analytics.py:99-104 | once an item has raised, the items after it change nothing: the error escapes the parse |
| PlanfixXml.ParseAborts | scripts/export_produkty_with_orders.py:310-339 | an error at item `j` of `analiticData` `i` is the result of the whole parse |
| Projection.PrepareDataForUpsert | scripts/export_produkty_analytics.py:119-142 | one prepared record per record, in order. Its keys are exactly the table's columns. A column the record has keeps its value; a missing `is_deleted` is `False`, `updated_at` is now, any other column is `None` |
| Projection.SoftDeleteIds | scripts/export_produkty_analytics.py:199 | the list holds only truthy values, and a value is in it iff some prepared record carries it, truthy, under the key column |
| Projection.SoftDeleteIdsAppend | scripts/export_produkty_analytics.py:199 | the list keeps record order: the list of `a + b` is the list of `a` followed by the list of `b` |
| Projection.SoftDeleteIdsOne | scripts/export_produkty_analytics.py:199 | one record contributes its key exactly when the key is truthy |
| Projection.SoftDeleteIdsAll | scripts/export_produkty_analytics.py:199 | when every prepared record has a truthy key, the list is all the keys, in order |
| Projection.SoftDeleteIdsOfProjection | scripts/export_produkty_with_orders.py:442-468 | when every record has a truthy key and the columns include the key column, the list after projection is the records' keys, in order |
| FieldTypes.ParsesFrom | scripts/create_supabase_table.py:137-144 | the search over the formats succeeds iff some remaining format parses the value |
| FieldTypes.NoLeadingDigitNoDate | scripts/create_supabase_table.py:129-135 | every format starts with a number, so a value not starting with a digit is no date |
| FieldTypes.DayMonthYearParses | scripts/create_supabase_table.py:131-134 | `%d-%m-%Y`, `%d.%m.%Y` and `%d/%m/%Y` accept one or two day digits, one or two month digits and four year digits, exactly when they name a calendar day |
| FieldTypes.FebruaryTwentyNinth | scripts/create_supabase_table.py:133 | `29.02.YYYY` is a date iff YYYY is a leap year |
| FieldTypes.NoThirtiethOfFebruary | scripts/create_supabase_table.py:133 | `30.02.2024` is no date |
| FieldTypes.ShortDayAndMonth | scripts/create_supabase_table.py:134 | `5/3/2024` is a date: day and month may be one digit |
| FieldTypes.DateTextNotFloat | scripts/create_supabase_table.py:105-112 | a day-month-year text is never read by `float()`, so the number test never hides a date |
| FieldTypes.DateTextIsTimestamp | scripts/create_supabase_table.py:114-116 | a day-month-year text that names a real day is TIMESTAMP, whatever the `valueId` |
| FieldTypes.TypePriority | scripts/create_supabase_table.py:97-123 | `valueId` never matters; missing or empty is TEXT. INTEGER or NUMERIC exactly when `float()` reads the value, NUMERIC exactly when it also has a `.`; TIMESTAMP exactly for a non-number that is a date |
| FieldTypes.DigitsAreInteger | scripts/create_supabase_table.py:105-110 | a run of digits is INTEGER, so `1` and `0` never make a column BOOLEAN |
| FieldTypes.BooleanIffWord | scripts/create_supabase_table.py:118-123 | a non-empty value is BOOLEAN iff its lower case is `true`, `false`, `да` or `нет` |
| TableSchema.ParseAnalyticsStructure | scripts/create_supabase_table.py:43-88 | the nested loops updating the dictionary in place give `AnalyticsStructure`, the fold of one observation after another over the named items |
| TableSchema.ObservationsOfMembers | scripts/create_supabase_table.py:58-66 | every item with a non-empty name under a keyed `analiticData` is observed, and every observation comes from one |
| TableSchema.ObserveEntry | scripts/create_supabase_table.py:72-86 | one observation adds an entry for a new name, typed by this value and flagged iff it has a `valueId`. For a known name it keeps the type, appends an unseen non-empty value and sets the flag on a `valueId`. No other entry changes |
| TableSchema.StructureOfNames | scripts/create_supabase_table.py:74-79 | the keys are exactly the names observed, in the order of their first observation |
| TableSchema.StructureOfTypes | scripts/create_supabase_table.py:72-79 | each field has the type of its first observation |
| TableSchema.StructureOfExamples | scripts/create_supabase_table.py:81-83 | the examples of a field are exactly its non-empty values, without repeats, in first-seen order |
| TableSchema.StructureOfValueIds | scripts/create_supabase_table.py:85-86 | a field is flagged `has_value_id` iff some observation of it had a non-empty `valueId` |
| TableSchema.StructureEmpty | scripts/create_supabase_table.py:58-86 | the dictionary is empty exactly when no item was observed |
| TableSchema.AnalyticsStructureDescribes | scripts/create_supabase_table.py:43-88 | an error response gives no fields; otherwise the result meets all four descriptions above |
| TableSql.TableScript | scripts/create_supabase_table.py:236-255 | no SQL iff the response is an error or has no named item under a keyed `analiticData`; otherwise the script for the structure's columns |
| TableSql.GenerateTableSql | scripts/create_supabase_table.py:146-187 | the column loop gives the five base columns, then per field its column and, when flagged, its `_id TEXT` column. The script is built from that list |
| TableSql.ColumnLayout | scripts/create_supabase_table.py:151-170 | there are `5 + n + #flagged` columns, the five fixed ones first. Field `i` sits at `5 + i + #flagged before it`, followed at once by its `_id` column when flagged |
| TableSql.ColumnsOfFields | scripts/create_supabase_table.py:160-170 | every field has its typed column, and its `_id` column when flagged |
| TableSql.ScriptColumns | scripts/create_supabase_table.py:173-175 | the script defines every column of the list as `"name" decl` |
| TableSql.ScriptIndexes | scripts/create_supabase_table.py:178-181 | the script creates the indexes on `analitic_key`, `item_id`, `updated_at` and `is_deleted` |
| TableSql.ScriptComment | scripts/create_supabase_table.py:184 | the table comment names the analytic key |
| ExportAnalytics.ParseProduktyAnalyticsData | scripts/export_produkty_analytics.py:46-104 | the nested loops give `AnalyticsRecords`: nothing for an error response, else one record per keyed item or the first `ValueError` |
| ExportAnalytics.AssembleRecord | scripts/export_produkty_analytics.py:68-93 | building one record a column at a time gives `BuildRecord` |
| ExportAnalytics.AnalyticsRecordsShape | scripts/export_produkty_analytics.py:52-97 | for an error response, `[]`. Otherwise, unless an id raises, there is one record per keyed item, in order, record `i` built with running index `i` |
| ExportAnalytics.BuildRecordRaises | scripts/export_produkty_analytics.py:79-80 | a record raises iff its non-empty key or non-empty item id is not an integer; the key is tried first |
| ExportAnalytics.RecordContents | scripts/export_produkty_analytics.py:74-93 | the keys are the five base columns plus the field columns. Each base column holds its value unless a field column has its name. The field column holds the value, and `<clean>_id` the `valueId` when both name and `valueId` are non-empty |
| ExportAnalytics.RecordKeyKept | scripts/export_produkty_analytics.py:74 | with no column of the same name, the key column holds `"{key}_{item_id}"` or `"{key}_{n}"`, which is truthy |
| ExportAnalytics.PrepareBatch | scripts/export_produkty_analytics.py:173-199 | no database step iff there are no records; otherwise each record projected onto the table columns, and the truthy `<table>_id` values of the result, as the soft-delete list |
| ExportAnalytics.BatchIdsAreRecordKeys | scripts/export_produkty_analytics.py:187-199 | when no field column is named like the key column, the soft-delete list is every record's key, in document order |
| ExportWithOrders.ParseTaskList | scripts/export_produkty_with_orders.py:228-257 | `[]` for an error. Otherwise each task with a non-empty id, in order, with `int(id)`, name and number. If some id is not an integer, the `ValueError` of the first such id |
| ExportWithOrders.TaskRowsAppend | scripts/export_produkty_with_orders.py:240-253 | the task list keeps task order: the list of `a + b` is the list of `a` followed by the list of `b` |
| ExportWithOrders.TaskRowsOne | scripts/export_produkty_with_orders.py:240-253 | one task gives its row exactly when its id is non-empty |
| ExportWithOrders.FindText | scripts/export_produkty_with_orders.py:274 | `findtext('.//task/<child>')` is the child text of the first task that has one, `None` when none does |
| ExportWithOrders.ParseTaskDetails | scripts/export_produkty_with_orders.py:259-287 | nothing for an error; otherwise the first order number and task name found, each kept only when non-empty |
| ExportWithOrders.OrderNumberOfTask | scripts/export_produkty_with_orders.py:412 | the order number is never empty. It is the task's number when it has one, else `TASK_` and a text `int()` reads as the task id |
| ExportWithOrders.HasProduktyAnalytics | scripts/export_produkty_with_orders.py:117-155 | searches the `analytics` elements only if there are no `analitic` ones. True iff some element has id 4867 and no earlier element has a non-integer id |
| ExportWithOrders.HasProduktyWithoutBadIds | scripts/export_produkty_with_orders.py:141-151 | when every id is an integer, the answer is whether some element has id 4867 |
| ExportWithOrders.ParseProduktyAnalyticsData | scripts/export_produkty_with_orders.py:289-345 | the nested loops give `ProduktyRecords`: nothing for an error response, else one record per keyed item or the first `ValueError` |
| ExportWithOrders.AssembleRecord | scripts/export_produkty_with_orders.py:311-337 | building one record a column at a time gives `BuildRecord` |
| ExportWithOrders.ProduktyRecordsShape | scripts/export_produkty_with_orders.py:295-341 | for an error response, `[]`. Otherwise, unless an id raises, there is one record per keyed item, in order, record `i` built with running index `i` |
| ExportWithOrders.BuildRecordRaises | scripts/export_produkty_with_orders.py:322-323 | a record raises iff its non-empty key or non-empty item id is not an integer; the key is tried first |
| ExportWithOrders.RecordContents | scripts/export_produkty_with_orders.py:317-337 | the keys are the seven base columns plus the field columns. Each base column holds its value, the id being `"{key}_{task_id}_{item_id or n}"`, unless a field column has its name. The field column holds the value, and `<clean>_handbook_id` the `valueId` when both are non-empty |
| ExportWithOrders.FieldNamedIdOverwritesRecordId | scripts/export_produkty_with_orders.py:320-333 | an item whose cleaned name is `id` writes its value, or `None` when it has none, over the record id, because the field column is written after the base columns; the id is then truthy iff the item has a value, so an item without one drops its record from the soft-delete list |
| ExportWithOrders.UpperIdIsIdColumn | scripts/export_produkty_with_orders.py:347-366 | `ID`, for one, is cleaned to `id` |
| ExportWithOrders.RecordIdKept | scripts/export_produkty_with_orders.py:317-321 | with no field column `id`, the record keeps its composite id, which is truthy |
| ExportWithOrders.Collected | scripts/export_produkty_with_orders.py:403-426 | a record is collected iff it is a record of some task whose analytics parse without error |
| ExportWithOrders.CollectRecords | scripts/export_produkty_with_orders.py:400-426 | the loop over the tasks appends each task's records in task order; a task whose parse raises adds nothing |
| ExportWithOrders.PrepareForUpsert | scripts/export_produkty_with_orders.py:428-468 | no database step iff no record was collected; otherwise each record projected onto the table columns, and the truthy `id` values of the result, as the soft-delete list |
| ExportWithOrders.UpsertIdsAreRecordIds | scripts/export_produkty_with_orders.py:442-468 | for a task with no field column `id`, the soft-delete list is every record's composite id, in document order |
| SchemaAgreement.TableHoldsRecords | scripts/create_supabase_table.py:146-170 | for one response, every key of every exported record is a column of the table created from it, so projection keeps every value |

## Left out

- Network and database I/O are not modelled: `requests.post`, `make_planfix_request`, `get_task_details`, `get_produkty_analytics_data`, `get_analytics_structure`, `get_table_columns`, `create_table_in_supabase`, `upsert_data_to_supabase` and `mark_items_as_deleted_in_supabase`. Responses and the table's column list are parameters. `planfix_utils` is not part of this model.
- `get_tasks_with_produkty_analytics` is not modelled, including its cap of ten tasks. It interleaves network calls with the check, and the check itself is `HasProduktyAnalytics`.
- `input()`, printing, logging, `sys.exit`, writing the `.sql` file, `load_dotenv` and the environment checks are not modelled. They are interaction and process plumbing.
- XML parsing (`ET.fromstring`) is replaced by parsed datatypes. `ParseError` is not modelled, and neither is `has_produkty_analytics` answering `False` when the document does not parse.
- `parse_analytics_structure` returns `[]` for an error response and a dictionary otherwise. Both are the empty `Structure` in the model.
- Python dictionaries are modelled as maps, except `fields_structure`, which is a sequence in insertion order. Records are maps, so their key order is not modelled; projection rebuilds them in table order anyway.
- Every `datetime.now()` call is one `now` value. The source calls it once per record and once per missing `updated_at`.
- ExportWithOrders.PrepareForUpsert: the inline projection of lines 442-456 is stated through `Projection.PrepareDataForUpsert`, which performs the same column loop.
- PyStr.ParseInt: `int()` is modelled on an optional sign and ASCII digits. The surrounding white space and `_` separators Python also accepts are not.
- PyStr.IsFloat: `float()` is modelled on ASCII decimal, exponent, `inf`, `infinity` and `nan` forms with surrounding white space. `_` separators and non-ASCII digits are not.
- FieldTypes.ParsesFrom: `strptime` is modelled on ASCII digits and literal separators. `%d`, `%m`, `%H` and `%M` take one or two digits and `%Y` exactly four. The blank in `%d-%m-%Y %H:%M` is modelled as exactly one space, and leading-space forms of `%d` and `%m` are not.
- PyStr.Lower: `str.lower` and `str.isalnum` are modelled on ASCII, the eighteen Polish letters and the basic Cyrillic alphabet. Other characters count as neither letters nor digits.
- `generate_table_sql` uses a backslash inside an f-string replacement field. Python accepts that only from version 3.12, and the model assumes such a version.
- SchemaAgreement.TableHoldsRecords: the column list may name a column twice: `a b` and `a-b` clean to the same name, and a flagged field `item` adds an `item_id` beside the base column. Postgres rejects such a `CREATE TABLE`; the model neither requires nor proves distinct columns.
- The column definitions are modelled as name and declaration pairs, and the SQL text as their rendering joined by `,\n    `.
