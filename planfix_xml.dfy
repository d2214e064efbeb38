/**
 * The already-parsed Planfix XML responses the scripts walk, and the flat records they build.
 *
 * `findtext` gives `None` for a missing element and `""` for an empty one; both are kept
 * apart here as `Option<string>`, and Python's truthiness of such a text is `Present`.
 * A response whose root carries `status="error"` is `ErrorStatus`; any other is `Success`
 * with the nodes the scripts look for, in document order.
 */
module PlanfixXml {
  import opened Wrappers
  import opened PyStr
  import opened SeqFacts

  /** `if t:` for the result `t` of `findtext`. */
  predicate Present(t: Option<string>) { t.Some? && t.value != "" }

  datatype Response<T> = ErrorStatus(code: Option<string>, message: Option<string>) | Success(body: T)

  /** One `itemData` element: the texts of its `id`, `name`, `value` and `valueId` children. */
  datatype Item = Item(id: Option<string>, name: Option<string>, value: Option<string>, valueId: Option<string>)

  /** One `analiticData` element: the text of its `key` child and its `itemData` descendants. */
  datatype AnalyticData = AnalyticData(key: Option<string>, items: seq<Item>)

  /** The answer to `analitic.getData`. */
  type AnalyticsResponse = Response<seq<AnalyticData>>

  /** One `task` element of `task.getList` / `task.get`. */
  datatype TaskNode = TaskNode(id: Option<string>, name: Option<string>, number: Option<string>)

  /** An `itemData` together with the key of the `analiticData` it sits under. */
  datatype Keyed = Keyed(key: string, item: Item)

  /** The items of one `analiticData`, or none when it has no `key` element. */
  function KeyedOf(d: AnalyticData): (r: seq<Keyed>)
    ensures d.key.None? ==> r == []
    ensures d.key.Some? ==> |r| == |d.items| && forall j :: 0 <= j < |r| ==> r[j] == Keyed(d.key.value, d.items[j])
  {
    if d.key.None? then [] else seq(|d.items|, j requires 0 <= j < |d.items| => Keyed(d.key.value, d.items[j]))
  }

  /** The nested loops over `analiticData` and `itemData`, flattened in document order. */
  function KeyedItems(ds: seq<AnalyticData>): seq<Keyed>
    decreases |ds|
  {
    if ds == [] then [] else KeyedItems(ds[..|ds| - 1]) + KeyedOf(ds[|ds| - 1])
  }

  /** Number of `itemData` under the `analiticData` that have a key. */
  function KeyedCount(ds: seq<AnalyticData>): nat
    decreases |ds|
  {
    if ds == [] then 0 else KeyedCount(ds[..|ds| - 1]) + (if ds[|ds| - 1].key.None? then 0 else |ds[|ds| - 1].items|)
  }

  /**
   * The walk keeps document order: the items of a longer document are those of its first
   * part followed by those of the rest, and every keyed `itemData` appears exactly once.
   */
  lemma {:induction false} KeyedItemsAppend(a: seq<AnalyticData>, b: seq<AnalyticData>)
    ensures KeyedItems(a + b) == KeyedItems(a) + KeyedItems(b)
    decreases |b|
  {
    if b == [] {
      assert a + b == a;
    } else {
      var init, last := b[..|b| - 1], b[|b| - 1];
      InitOfAppend(a, b);
      KeyedItemsAppend(a, init);
      AppendAssoc(KeyedItems(a), KeyedItems(init), KeyedOf(last));
    }
  }

  lemma KeyedItemsSnoc(ds: seq<AnalyticData>, i: nat)
    requires i < |ds|
    ensures KeyedItems(ds[..i + 1]) == KeyedItems(ds[..i]) + KeyedOf(ds[i])
  {
    assert ds[..i + 1][..i] == ds[..i];
  }

  lemma KeyedItemsSplit(ds: seq<AnalyticData>, i: nat)
    requires i <= |ds|
    ensures KeyedItems(ds) == KeyedItems(ds[..i]) + KeyedItems(ds[i..])
  {
    PrefixAndRest(ds, i);
    KeyedItemsAppend(ds[..i], ds[i..]);
  }

  lemma {:induction false} KeyedItemsCount(ds: seq<AnalyticData>)
    ensures |KeyedItems(ds)| == KeyedCount(ds)
    decreases |ds|
  {
    if ds != [] {
      KeyedItemsCount(ds[..|ds| - 1]);
    }
  }

  // ---------------------------------------------------------------------------------------
  // Records

  type Timestamp = nat

  /** The Python values a record holds: `None`, `str`, `int`, `bool`, `datetime`. */
  datatype Value = Null | Str(s: string) | Int(i: int) | Bool(b: bool) | Time(t: Timestamp)

  /** Python truthiness of a record value. */
  predicate Truthy(v: Value) {
    match v
    case Null => false
    case Str(s) => s != ""
    case Int(i) => i != 0
    case Bool(b) => b
    case Time(_) => true
  }

  /** A record dictionary: column name to value. */
  type Record = map<string, Value>

  /** A `findtext` result stored as a value. */
  function TextValue(t: Option<string>): Value {
    if t.None? then Null else Str(t.value)
  }

  /** The `ValueError` that `int()` raises, with the text it could not read. */
  datatype ValueError = ValueError(literal: string)

  /** `int(t) if t else None`. */
  function OptionalInt(t: Option<string>): (r: Result<Value, ValueError>)
    ensures !Present(t) ==> r == Ok(Null)
    ensures Present(t) && ParseInt(t.value).Some? ==> r == Ok(Int(ParseInt(t.value).value))
    ensures Present(t) && ParseInt(t.value).None? ==> r == Err(ValueError(t.value))
  {
    if !Present(t) then Ok(Null)
    else match ParseInt(t.value)
      case Some(n) => Ok(Int(n))
      case None => Err(ValueError(t.value))
  }

  /** Builds the record for the `n`-th item seen (`n` = records appended so far). */
  type Builder = (Keyed, nat) -> Result<Record, ValueError>

  /**
   * The records of the nested loops: one per keyed item, in order; the first item whose
   * record raises aborts the whole parse with that error.
   */
  function BuildAll(ks: seq<Keyed>, build: Builder): (r: Result<seq<Record>, ValueError>)
    ensures r.Ok? ==> |r.value| == |ks|
    decreases |ks|
  {
    if ks == [] then Ok([])
    else
      var prefix := BuildAll(ks[..|ks| - 1], build);
      if prefix.Err? then prefix
      else
        match build(ks[|ks| - 1], |prefix.value|)
        case Err(e) => Err(e)
        case Ok(rec) => Ok(prefix.value + [rec])
  }

  /**
   * The `i`-th keyed item gives the `i`-th record, built with `i` records before it; the
   * parse fails exactly when some item's record raises, and then with the error of the first.
   */
  lemma {:induction false} BuildAllSpec(ks: seq<Keyed>, build: Builder)
    ensures BuildAll(ks, build).Ok? <==> forall i :: 0 <= i < |ks| ==> build(ks[i], i).Ok?
    ensures BuildAll(ks, build).Ok? ==>
      forall i :: 0 <= i < |ks| ==> build(ks[i], i) == Ok(BuildAll(ks, build).value[i])
    ensures BuildAll(ks, build).Err? ==>
      exists i :: 0 <= i < |ks| && build(ks[i], i) == Err(BuildAll(ks, build).error)
                 && forall j :: 0 <= j < i ==> build(ks[j], j).Ok?
    decreases |ks|
  {
    if ks != [] {
      var init := ks[..|ks| - 1];
      BuildAllSpec(init, build);
      assert forall i :: 0 <= i < |init| ==> init[i] == ks[i];
    }
  }

  /** Once an item has raised, the items after it change nothing. */
  lemma {:induction false} BuildAllErrSticky(p: seq<Keyed>, q: seq<Keyed>, build: Builder)
    requires BuildAll(p, build).Err?
    ensures BuildAll(p + q, build) == BuildAll(p, build)
    decreases |q|
  {
    if q == [] {
      assert p + q == p;
    } else {
      assert (p + q)[..|p + q| - 1] == p + q[..|q| - 1];
      BuildAllErrSticky(p, q[..|q| - 1], build);
    }
  }

  /** One more item after an error-free prefix. */
  lemma BuildAllSnoc(p: seq<Keyed>, k: Keyed, build: Builder)
    requires BuildAll(p, build).Ok?
    ensures BuildAll(p + [k], build) ==
      match build(k, |p|)
      case Err(e) => Err(e)
      case Ok(rec) => Ok(BuildAll(p, build).value + [rec])
  {
    assert (p + [k])[..|p + [k]| - 1] == p;
  }

  /** The items of a response, cut after item `j` of `datas[i]`. */
  lemma KeyedItemsCut(datas: seq<AnalyticData>, i: nat, j: nat)
    requires i < |datas| && j < |KeyedOf(datas[i])|
    ensures KeyedItems(datas) ==
      (KeyedItems(datas[..i]) + KeyedOf(datas[i])[..j + 1]) + (KeyedOf(datas[i])[j + 1..] + KeyedItems(datas[i + 1..]))
  {
    var head := KeyedItems(datas[..i]);
    var here := KeyedOf(datas[i]);
    var tail := KeyedItems(datas[i + 1..]);
    KeyedItemsSplit(datas, i + 1);
    KeyedItemsSnoc(datas, i);
    var done, rest := here[..j + 1], here[j + 1..];
    assert here == done + rest;
    calc {
      KeyedItems(datas);
      KeyedItems(datas[..i + 1]) + tail;
      (head + here) + tail;
      (head + (done + rest)) + tail;
      { SeqAssoc(head, done, rest, tail); }
      (head + done) + (rest + tail);
    }
  }

  /** A parse that raised at item `j` of `datas[i]` raises that error for the whole response. */
  lemma ParseAborts(datas: seq<AnalyticData>, i: nat, j: nat, build: Builder)
    requires i < |datas| && datas[i].key.Some? && j < |datas[i].items|
    requires BuildAll(KeyedItems(datas[..i]) + KeyedOf(datas[i])[..j + 1], build).Err?
    ensures BuildAll(KeyedItems(datas), build) == BuildAll(KeyedItems(datas[..i]) + KeyedOf(datas[i])[..j + 1], build)
  {
    var done := KeyedItems(datas[..i]) + KeyedOf(datas[i])[..j + 1];
    var rest := KeyedOf(datas[i])[j + 1..] + KeyedItems(datas[i + 1..]);
    KeyedItemsCut(datas, i, j);
    BuildAllErrSticky(done, rest, build);
  }

  lemma SeqAssoc(a: seq<Keyed>, b: seq<Keyed>, c: seq<Keyed>, d: seq<Keyed>)
    ensures (a + (b + c)) + d == (a + b) + (c + d)
  {
  }

  lemma SnocPrefix(a: seq<Keyed>, s: seq<Keyed>, j: nat)
    requires j < |s|
    ensures (a + s[..j]) + [s[j]] == a + s[..j + 1]
  {
    assert s[..j + 1] == s[..j] + [s[j]];
  }
}
