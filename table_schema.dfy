/**
 * `parse_analytics_structure`: the per-field summary of an `analitic.getData` response from
 * which `create_supabase_table` derives its columns.
 *
 * The `fields_structure` dictionary is a sequence of entries in insertion order (the order a
 * Python `dict` iterates in). Its specification is `StructureOf`, the same accumulation written
 * as a fold over the named items; what the accumulation guarantees is stated against independent
 * searches over the items (`FirstSeen`, `FirstShowing`, `Observed`, `ValueIdSeen`).
 */
module TableSchema {
  import opened Wrappers
  import opened SeqFacts
  import opened PlanfixXml
  import opened FieldTypes

  /** One `itemData` with a non-empty `name`: the texts the structure parse reads from it. */
  datatype Observation = Observation(name: string, value: Option<string>, valueId: Option<string>)

  /** The named items of the keyed `analiticData`, in document order. */
  function ObservationsOf(ks: seq<Keyed>): seq<Observation>
    decreases |ks|
  {
    if ks == [] then []
    else
      var k := ks[|ks| - 1];
      ObservationsOf(ks[..|ks| - 1])
      + (if Present(k.item.name) then [Observation(k.item.name.value, k.item.value, k.item.valueId)] else [])
  }

  lemma ObservationsOfSnoc(ks: seq<Keyed>, k: Keyed)
    ensures ObservationsOf(ks + [k]) == ObservationsOf(ks)
      + (if Present(k.item.name) then [Observation(k.item.name.value, k.item.value, k.item.valueId)] else [])
  {
    assert (ks + [k])[..|ks|] == ks;
  }

  /** Every named item is observed, and every observation comes from a named item. */
  lemma {:induction false} ObservationsOfMembers(ks: seq<Keyed>)
    ensures forall i :: 0 <= i < |ks| && Present(ks[i].item.name) ==>
      Observation(ks[i].item.name.value, ks[i].item.value, ks[i].item.valueId) in ObservationsOf(ks)
    ensures forall o :: o in ObservationsOf(ks) ==>
      exists i :: 0 <= i < |ks| && Present(ks[i].item.name) && o == Observation(ks[i].item.name.value, ks[i].item.value, ks[i].item.valueId)
    decreases |ks|
  {
    if ks != [] {
      var init := ks[..|ks| - 1];
      ObservationsOfMembers(init);
      assert forall i :: 0 <= i < |init| ==> init[i] == ks[i];
    }
  }

  // ---------------------------------------------------------------------------------------
  // The dictionary

  /** `{'type': ..., 'examples': [...], 'has_value_id': ...}` */
  datatype FieldInfo = FieldInfo(fieldType: SqlType, examples: seq<string>, hasValueId: bool)

  datatype Entry = Entry(name: string, info: FieldInfo)

  /** `fields_structure`, in insertion order. */
  type Structure = seq<Entry>

  /** The keys of `fields_structure`, in insertion order. */
  function Names(st: Structure): (names: seq<string>)
    ensures |names| == |st| && forall i :: 0 <= i < |st| ==> names[i] == st[i].name
  {
    seq(|st|, i requires 0 <= i < |st| => st[i].name)
  }

  /** Position of the entry for `name`, or `|st|` when `name not in fields_structure`. */
  function Find(st: Structure, name: string): (i: nat)
    ensures i <= |st|
    ensures i < |st| ==> st[i].name == name
    ensures forall j :: 0 <= j < i ==> st[j].name != name
  {
    IndexOf(Names(st), name)
  }

  /**
   * Lines 72-86 for one observation: a new name gets an entry with the type of this value and
   * no examples; a non-empty value not yet listed is appended to the examples; a non-empty
   * `valueId` sets the flag.
   */
  function Observe(st: Structure, o: Observation): Structure {
    var at := Find(st, o.name);
    var base := if at == |st| then st + [Entry(o.name, FieldInfo(DetermineFieldType(o.value, o.valueId), [], false))] else st;
    var info := base[at].info;
    var withExample := if Present(o.value) && o.value.value !in info.examples then info.(examples := info.examples + [o.value.value]) else info;
    var withValueId := if Present(o.valueId) then withExample.(hasValueId := true) else withExample;
    base[at := Entry(o.name, withValueId)]
  }

  /** The dictionary after the observations `os`, one after the other. */
  function StructureOf(os: seq<Observation>): Structure
    decreases |os|
  {
    if os == [] then [] else Observe(StructureOf(os[..|os| - 1]), os[|os| - 1])
  }

  lemma StructureOfSnoc(os: seq<Observation>, o: Observation)
    ensures StructureOf(os + [o]) == Observe(StructureOf(os), o)
  {
    assert (os + [o])[..|os|] == os;
  }

  /** What `parse_analytics_structure` returns: nothing for an error response. */
  function AnalyticsStructure(response: AnalyticsResponse): Structure {
    match response
    case ErrorStatus(_, _) => []
    case Success(datas) => StructureOf(ObservationsOf(KeyedItems(datas)))
  }

  /**
   * `parse_analytics_structure`: the nested loops over the `analiticData` that have a `key`
   * element and their `itemData` with a non-empty name, updating the dictionary in place.
   */
  method ParseAnalyticsStructure(response: AnalyticsResponse) returns (structure: Structure)
    ensures structure == AnalyticsStructure(response)
  {
    if response.ErrorStatus? {
      return [];
    }
    var datas := response.body;
    structure := [];
    ghost var seen: seq<Keyed> := [];
    for i := 0 to |datas|
      invariant seen == KeyedItems(datas[..i])
      invariant structure == StructureOf(ObservationsOf(seen))
    {
      var analiticData := datas[i];
      KeyedItemsSnoc(datas, i);
      if analiticData.key.None? {
        continue;
      }
      var key := analiticData.key.value;
      for j := 0 to |analiticData.items|
        invariant seen == KeyedItems(datas[..i]) + KeyedOf(analiticData)[..j]
        invariant structure == StructureOf(ObservationsOf(seen))
      {
        var itemData := analiticData.items[j];
        SnocPrefix(KeyedItems(datas[..i]), KeyedOf(analiticData), j);
        ObservationsOfSnoc(seen, Keyed(key, itemData));
        var fieldName := itemData.name;
        if Present(fieldName) {
          var value := itemData.value;
          var valueId := itemData.valueId;
          StructureOfSnoc(ObservationsOf(seen), Observation(fieldName.value, value, valueId));
          var fieldType := DetermineFieldType(value, valueId);
          var at := Find(structure, fieldName.value);
          if at == |structure| {
            structure := structure + [Entry(fieldName.value, FieldInfo(fieldType, [], false))];
          }
          var info := structure[at].info;
          if Present(value) && value.value !in info.examples {
            info := info.(examples := info.examples + [value.value]);
          }
          if Present(valueId) {
            info := info.(hasValueId := true);
          }
          structure := structure[at := Entry(fieldName.value, info)];
        } else {
          assert ObservationsOf(seen + [Keyed(key, itemData)]) == ObservationsOf(seen);
        }
        seen := seen + [Keyed(key, itemData)];
      }
      assert KeyedOf(analiticData)[..|analiticData.items|] == KeyedOf(analiticData);
    }
    assert datas[..|datas|] == datas;
  }

  // ---------------------------------------------------------------------------------------
  // Independent searches over the observations

  /** The names observed, in order. */
  function ObservedNames(os: seq<Observation>): (names: seq<string>)
    ensures |names| == |os| && forall i :: 0 <= i < |os| ==> names[i] == os[i].name
  {
    seq(|os|, i requires 0 <= i < |os| => os[i].name)
  }

  /** Index of the first observation of `name`, or `|os|`. */
  function FirstSeen(os: seq<Observation>, name: string): (k: nat)
    ensures k <= |os|
    ensures k < |os| ==> os[k].name == name
    ensures forall j :: 0 <= j < k ==> os[j].name != name
  {
    IndexOf(ObservedNames(os), name)
  }

  /** Observation `o` gives field `name` the non-empty value `v`. */
  predicate Shows(o: Observation, name: string, v: string) {
    o.name == name && o.value == Some(v) && v != ""
  }

  /** Index of the first observation that gives `name` the value `v`, or `|os|`. */
  function FirstShowing(os: seq<Observation>, name: string, v: string): (k: nat)
    ensures k <= |os|
    ensures k < |os| ==> Shows(os[k], name, v)
    ensures forall j :: 0 <= j < k ==> !Shows(os[j], name, v)
    decreases |os|
  {
    if os == [] then 0 else if Shows(os[0], name, v) then 0 else 1 + FirstShowing(os[1..], name, v)
  }

  predicate Observed(os: seq<Observation>, name: string, v: string) {
    exists k :: 0 <= k < |os| && Shows(os[k], name, v)
  }

  predicate ValueIdSeen(os: seq<Observation>, name: string) {
    exists k :: 0 <= k < |os| && os[k].name == name && Present(os[k].valueId)
  }

  // ---------------------------------------------------------------------------------------
  // What the dictionary holds

  /** The keys are exactly the names observed. */
  ghost predicate NamesComplete(st: Structure, os: seq<Observation>) {
    forall name :: Find(st, name) < |st| <==> FirstSeen(os, name) < |os|
  }

  /** The keys are in the order their names were first observed (so they are distinct). */
  predicate FirstSeenOrder(st: Structure, os: seq<Observation>) {
    forall i, j :: 0 <= i < j < |st| ==> FirstSeen(os, st[i].name) < FirstSeen(os, st[j].name)
  }

  /** Each field has the type of its first observation. */
  predicate FirstTypes(st: Structure, os: seq<Observation>) {
    forall i :: 0 <= i < |st| ==>
      var k := FirstSeen(os, st[i].name);
      k < |os| && st[i].info.fieldType == DetermineFieldType(os[k].value, os[k].valueId)
  }

  /**
   * Each field's examples are exactly the non-empty values observed for it, each once, in the
   * order they were first observed.
   */
  ghost predicate ExamplesListed(st: Structure, os: seq<Observation>) {
    forall i :: 0 <= i < |st| ==>
      (forall v :: v in st[i].info.examples <==> Observed(os, st[i].name, v))
      && (forall a, b :: 0 <= a < b < |st[i].info.examples| ==>
            FirstShowing(os, st[i].name, st[i].info.examples[a]) < FirstShowing(os, st[i].name, st[i].info.examples[b]))
  }

  /** A field has a value-id column exactly when some observation of it had a `valueId`. */
  predicate ValueIdFlags(st: Structure, os: seq<Observation>) {
    forall i :: 0 <= i < |st| ==> (st[i].info.hasValueId <==> ValueIdSeen(os, st[i].name))
  }

  ghost predicate Describes(st: Structure, os: seq<Observation>) {
    NamesComplete(st, os) && FirstSeenOrder(st, os) && FirstTypes(st, os)
    && ExamplesListed(st, os) && ValueIdFlags(st, os)
  }

  // ---------------------------------------------------------------------------------------
  // One observation more

  lemma FirstSeenSnoc(os: seq<Observation>, o: Observation, name: string)
    ensures FirstSeen(os + [o], name) ==
      if FirstSeen(os, name) < |os| then FirstSeen(os, name) else if o.name == name then |os| else |os| + 1
  {
    var s := os + [o];
    var m := FirstSeen(os, name);
    assert forall j :: 0 <= j < |os| ==> s[j] == os[j];
    assert s[|os|] == o;
    if m < |os| {
      assert s[m].name == name;
    }
  }

  lemma FirstShowingSnoc(os: seq<Observation>, o: Observation, name: string, v: string)
    ensures FirstShowing(os + [o], name, v) ==
      if FirstShowing(os, name, v) < |os| then FirstShowing(os, name, v) else if Shows(o, name, v) then |os| else |os| + 1
  {
    var s := os + [o];
    var m := FirstShowing(os, name, v);
    assert forall j :: 0 <= j < |os| ==> s[j] == os[j];
    assert s[|os|] == o;
    if m < |os| {
      assert Shows(s[m], name, v);
    }
  }

  lemma ObservedFirst(os: seq<Observation>, name: string, v: string)
    ensures Observed(os, name, v) <==> FirstShowing(os, name, v) < |os|
  {
  }

  lemma ObservedSnoc(os: seq<Observation>, o: Observation, name: string, v: string)
    ensures Observed(os + [o], name, v) <==> Observed(os, name, v) || Shows(o, name, v)
  {
    ObservedFirst(os, name, v);
    ObservedFirst(os + [o], name, v);
    FirstShowingSnoc(os, o, name, v);
  }

  lemma ValueIdSeenSnoc(os: seq<Observation>, o: Observation, name: string)
    ensures ValueIdSeen(os + [o], name) <==> ValueIdSeen(os, name) || (o.name == name && Present(o.valueId))
  {
    var s := os + [o];
    assert forall j :: 0 <= j < |os| ==> s[j] == os[j];
    assert s[|os|] == o;
    if ValueIdSeen(s, name) {
      var k :| 0 <= k < |s| && s[k].name == name && Present(s[k].valueId);
    }
  }

  /** A name's entry keeps its position; a new name is appended; nothing else moves. */
  lemma ObserveShape(st: Structure, o: Observation)
    ensures var st' := Observe(st, o);
      && |st'| == (if Find(st, o.name) < |st| then |st| else |st| + 1)
      && (forall j :: 0 <= j < |st| ==> st'[j].name == st[j].name)
      && (forall j :: 0 <= j < |st| && j != Find(st, o.name) ==> st'[j] == st[j])
      && st'[Find(st, o.name)].name == o.name
  {
  }

  /**
   * The entry `Observe` touches: a known name keeps its type, a new one is typed by this
   * value; the flag and the examples grow as lines 81-86 say; every other entry is unchanged.
   */
  lemma ObserveEntry(st: Structure, o: Observation)
    ensures var st' := Observe(st, o);
      var at := Find(st, o.name);
      var ex := if at < |st| then st[at].info.examples else [];
      && |st'| == (if at < |st| then |st| else |st| + 1)
      && st'[at].name == o.name
      && st'[at].info.fieldType == (if at < |st| then st[at].info.fieldType else DetermineFieldType(o.value, o.valueId))
      && (forall j :: 0 <= j < |st| && j != at ==> st'[j] == st[j])
      && st'[at].info.hasValueId == ((at < |st| && st[at].info.hasValueId) || Present(o.valueId))
      && st'[at].info.examples == (if Present(o.value) && o.value.value !in ex then ex + [o.value.value] else ex)
  {
    var at := Find(st, o.name);
    if at == |st| {
      var added := Entry(o.name, FieldInfo(DetermineFieldType(o.value, o.valueId), [], false));
      assert (st + [added])[at] == added;
    }
  }

  lemma ObserveNames(st: Structure, os: seq<Observation>, o: Observation)
    requires NamesComplete(st, os)
    ensures NamesComplete(Observe(st, o), os + [o])
  {
    var st' := Observe(st, o);
    ObserveShape(st, o);
    forall name
      ensures Find(st', name) < |st'| <==> FirstSeen(os + [o], name) < |os + [o]|
    {
      FirstSeenSnoc(os, o, name);
      var f := Find(st, name);
      if f < |st| {
        assert st'[f].name == name;
      } else if name == o.name {
        assert st'[Find(st, o.name)].name == name;
      } else {
        assert forall j :: 0 <= j < |st'| ==> st'[j].name != name;
      }
    }
  }

  lemma ObserveOrder(st: Structure, os: seq<Observation>, o: Observation)
    requires NamesComplete(st, os) && FirstSeenOrder(st, os)
    ensures FirstSeenOrder(Observe(st, o), os + [o])
  {
    var st' := Observe(st, o);
    ObserveShape(st, o);
    forall j | 0 <= j < |st'|
      ensures FirstSeen(os + [o], st'[j].name) == (if j < |st| then FirstSeen(os, st[j].name) else |os|)
      ensures j < |st| ==> FirstSeen(os, st[j].name) < |os|
    {
      if j < |st| {
        assert Find(st, st[j].name) <= j;
        FirstSeenSnoc(os, o, st[j].name);
      } else {
        FirstSeenSnoc(os, o, o.name);
      }
    }
  }

  lemma ObserveTypes(st: Structure, os: seq<Observation>, o: Observation)
    requires NamesComplete(st, os) && FirstTypes(st, os)
    ensures FirstTypes(Observe(st, o), os + [o])
  {
    var st' := Observe(st, o);
    ObserveShape(st, o);
    forall j | 0 <= j < |st'|
      ensures var k := FirstSeen(os + [o], st'[j].name);
        k < |os + [o]| && st'[j].info.fieldType == DetermineFieldType((os + [o])[k].value, (os + [o])[k].valueId)
    {
      if j < |st| {
        FirstSeenSnoc(os, o, st[j].name);
        assert Find(st, st[j].name) <= j;
        var k := FirstSeen(os, st[j].name);
        assert (os + [o])[k] == os[k];
      } else {
        FirstSeenSnoc(os, o, o.name);
        assert (os + [o])[|os|] == o;
      }
    }
  }

  /** The examples of field `name` after one more observation. */
  lemma ExamplesStep(ex: seq<string>, os: seq<Observation>, o: Observation, name: string, ex': seq<string>)
    requires forall v :: v in ex <==> Observed(os, name, v)
    requires forall a, b :: 0 <= a < b < |ex| ==> FirstShowing(os, name, ex[a]) < FirstShowing(os, name, ex[b])
    requires ex' == if o.name == name && Present(o.value) && o.value.value !in ex then ex + [o.value.value] else ex
    ensures forall v :: v in ex' <==> Observed(os + [o], name, v)
    ensures forall a, b :: 0 <= a < b < |ex'| ==> FirstShowing(os + [o], name, ex'[a]) < FirstShowing(os + [o], name, ex'[b])
  {
    forall v ensures Observed(os + [o], name, v) <==> Observed(os, name, v) || Shows(o, name, v) {
      ObservedSnoc(os, o, name, v);
    }
    forall v | v in ex
      ensures FirstShowing(os + [o], name, v) == FirstShowing(os, name, v) < |os|
    {
      ObservedFirst(os, name, v);
      FirstShowingSnoc(os, o, name, v);
    }
    if ex' != ex {
      var v := o.value.value;
      ObservedFirst(os, name, v);
      FirstShowingSnoc(os, o, name, v);
      assert FirstShowing(os + [o], name, v) == |os|;
      assert forall a :: 0 <= a < |ex| ==> ex'[a] == ex[a];
    }
  }

  lemma ObserveExamples(st: Structure, os: seq<Observation>, o: Observation)
    requires NamesComplete(st, os) && FirstSeenOrder(st, os) && ExamplesListed(st, os)
    ensures ExamplesListed(Observe(st, o), os + [o])
  {
    var st' := Observe(st, o);
    var at := Find(st, o.name);
    ObserveShape(st, o);
    ObserveEntry(st, o);
    FirstSeenOrderDistinct(st, os);
    forall j | 0 <= j < |st'|
      ensures forall v :: v in st'[j].info.examples <==> Observed(os + [o], st'[j].name, v)
      ensures forall a, b :: 0 <= a < b < |st'[j].info.examples| ==>
        FirstShowing(os + [o], st'[j].name, st'[j].info.examples[a]) < FirstShowing(os + [o], st'[j].name, st'[j].info.examples[b])
    {
      var name := st'[j].name;
      if j < |st| {
        if j != at {
          assert name != o.name;
        }
        ExamplesStep(st[j].info.examples, os, o, name, st'[j].info.examples);
      } else {
        assert forall k :: 0 <= k < |os| ==> os[k].name != name;
        ExamplesStep([], os, o, name, st'[j].info.examples);
      }
    }
  }

  lemma ObserveValueIds(st: Structure, os: seq<Observation>, o: Observation)
    requires NamesComplete(st, os) && FirstSeenOrder(st, os) && ValueIdFlags(st, os)
    ensures ValueIdFlags(Observe(st, o), os + [o])
  {
    var st' := Observe(st, o);
    var at := Find(st, o.name);
    ObserveShape(st, o);
    ObserveEntry(st, o);
    FirstSeenOrderDistinct(st, os);
    forall j | 0 <= j < |st'|
      ensures st'[j].info.hasValueId <==> ValueIdSeen(os + [o], st'[j].name)
    {
      ValueIdSeenSnoc(os, o, st'[j].name);
      if j < |st| && j != at {
        assert st[j].name != o.name;
      }
      if j == |st| {
        assert forall k :: 0 <= k < |os| ==> os[k].name != o.name;
      }
    }
  }

  // ---------------------------------------------------------------------------------------
  // What parse_analytics_structure guarantees

  lemma {:induction false} StructureOfNames(os: seq<Observation>)
    ensures NamesComplete(StructureOf(os), os) && FirstSeenOrder(StructureOf(os), os)
    decreases |os|
  {
    if os != [] {
      var init, last := os[..|os| - 1], os[|os| - 1];
      assert os == init + [last];
      StructureOfNames(init);
      ObserveNames(StructureOf(init), init, last);
      ObserveOrder(StructureOf(init), init, last);
    }
  }

  lemma {:induction false} StructureOfTypes(os: seq<Observation>)
    ensures FirstTypes(StructureOf(os), os)
    decreases |os|
  {
    if os != [] {
      var init, last := os[..|os| - 1], os[|os| - 1];
      assert os == init + [last];
      StructureOfNames(init);
      StructureOfTypes(init);
      ObserveTypes(StructureOf(init), init, last);
    }
  }

  lemma {:induction false} StructureOfExamples(os: seq<Observation>)
    ensures ExamplesListed(StructureOf(os), os)
    decreases |os|
  {
    if os != [] {
      var init, last := os[..|os| - 1], os[|os| - 1];
      assert os == init + [last];
      StructureOfNames(init);
      StructureOfExamples(init);
      ObserveExamples(StructureOf(init), init, last);
    }
  }

  lemma {:induction false} StructureOfValueIds(os: seq<Observation>)
    ensures ValueIdFlags(StructureOf(os), os)
    decreases |os|
  {
    if os != [] {
      var init, last := os[..|os| - 1], os[|os| - 1];
      assert os == init + [last];
      StructureOfNames(init);
      StructureOfValueIds(init);
      ObserveValueIds(StructureOf(init), init, last);
    }
  }

  /**
   * The dictionary `parse_analytics_structure` returns: empty for an error response; otherwise
   * one entry per distinct name, in first-seen order, typed by its first observation, listing
   * its distinct non-empty values in first-seen order, and flagged exactly when some
   * observation carried a `valueId`.
   */
  lemma AnalyticsStructureDescribes(response: AnalyticsResponse)
    ensures response.ErrorStatus? ==> AnalyticsStructure(response) == []
    ensures response.Success? ==>
      Describes(AnalyticsStructure(response), ObservationsOf(KeyedItems(response.body)))
  {
    if response.Success? {
      var os := ObservationsOf(KeyedItems(response.body));
      StructureOfNames(os);
      StructureOfTypes(os);
      StructureOfExamples(os);
      StructureOfValueIds(os);
    }
  }

  /** The dictionary is empty exactly when no item was observed. */
  lemma StructureEmpty(os: seq<Observation>)
    ensures StructureOf(os) == [] <==> os == []
  {
    if os != [] {
      StructureOfNames(os);
      var name := os[0].name;
      assert FirstSeen(os, name) == 0;
      assert Find(StructureOf(os), name) < |StructureOf(os)|;
    }
  }

  /** First-seen order makes the names distinct. */
  lemma FirstSeenOrderDistinct(st: Structure, os: seq<Observation>)
    requires FirstSeenOrder(st, os)
    ensures forall i, j :: 0 <= i < j < |st| ==> st[i].name != st[j].name
  {
  }
}
