/** InputsReader: the workflow inputs a run is handed are cut down to the
  * fields the inputs schema declares, and an inputs file is read as JSON
  * when its text begins with `{`, as YAML otherwise. */
module InputsReaders {
  import opened Wrappers
  import opened Strings
  import opened Json

  // ----- filterJsonBySchema ---------------------------------------------------------

  /** ObjectNode.set: a field already there takes the new value in its place;
    * a new one goes last. */
  function SetField(fields: seq<(string, Json)>, name: string, value: Json): (r: seq<(string, Json)>)
    ensures Lookup(r, name) == Some(value)
    ensures forall k :: k != name ==> Lookup(r, k) == Lookup(fields, k)
    ensures Lookup(fields, name).None? ==> r == fields + [(name, value)]
    decreases |fields|
  {
    if |fields| == 0 then [(name, value)]
    else if fields[0].0 == name then [(name, value)] + fields[1..]
    else
      var rest := SetField(fields[1..], name, value);
      assert forall k :: k != fields[0].0 ==> Lookup([fields[0]] + rest, k) == Lookup(rest, k);
      [fields[0]] + rest
  }

  /** The filtered fields after the given schema names: each name the data
    * also has is set to the data's value. */
  function FilteredOver(names: seq<string>, data: Json): seq<(string, Json)>
    decreases |names|
  {
    if |names| == 0 then []
    else
      var acc := FilteredOver(names[..|names| - 1], data);
      var name := names[|names| - 1];
      if Has(data, name) then SetField(acc, name, Get(data, name).value) else acc
  }

  /** What filterJsonBySchema builds: a new object node over the schema's names. */
  function Filter(schema: Json, data: Json): Json {
    JObj(FilteredOver(FieldNames(schema), data))
  }

  /** filterJsonBySchema: walks the schema's field names and copies every field
    * the data also has into a new object node. */
  method FilterJsonBySchema(schemaNode: Json, dataNode: Json) returns (filtered: Json)
    ensures filtered == Filter(schemaNode, dataNode)
  {
    var names := FieldNames(schemaNode);
    var fields: seq<(string, Json)> := [];
    var i := 0;
    while i < |names|
      invariant 0 <= i <= |names|
      invariant fields == FilteredOver(names[..i], dataNode)
    {
      var name := names[i];
      if Has(dataNode, name) {
        fields := SetField(fields, name, Get(dataNode, name).value);
      }
      assert names[..i + 1][..i] == names[..i];
      i := i + 1;
    }
    assert names[..|names|] == names;
    filtered := JObj(fields);
  }

  /** A field of the filtered fields is exactly a name among the schema's that
    * the data has, with the data's value. */
  lemma {:induction false} FilteredOverFields(names: seq<string>, data: Json)
    ensures forall k :: Lookup(FilteredOver(names, data), k) == if k in names then Get(data, k) else None
    decreases |names|
  {
    if |names| > 0 {
      var init := names[..|names| - 1];
      FilteredOverFields(init, data);
      assert names == init + [names[|names| - 1]];
    }
  }

  /** The schema names the data also has, in schema order. */
  function SharedNames(names: seq<string>, data: Json): (r: seq<string>)
    decreases |names|
  {
    if |names| == 0 then []
    else
      var init := SharedNames(names[..|names| - 1], data);
      if Has(data, names[|names| - 1]) then init + [names[|names| - 1]] else init
  }

  predicate Distinct(names: seq<string>) {
    forall i, j :: 0 <= i < j < |names| ==> names[i] != names[j]
  }

  /** With distinct schema names (as a JsonNode's are), the filtered fields
    * come in the schema's order. */
  lemma {:induction false} FilteredOverOrder(names: seq<string>, data: Json)
    requires Distinct(names)
    ensures FieldNames(JObj(FilteredOver(names, data))) == SharedNames(names, data)
    decreases |names|
  {
    if |names| > 0 {
      var init := names[..|names| - 1];
      var name := names[|names| - 1];
      var acc := FilteredOver(init, data);
      FilteredOverOrder(init, data);
      if Has(data, name) {
        FilteredOverFields(init, data);
        assert name !in init;
        assert Lookup(acc, name).None?;
        var f := acc + [(name, Get(data, name).value)];
        assert FilteredOver(names, data) == f;
        assert FieldNames(JObj(f)) == FieldNames(JObj(acc)) + [name];
      }
    }
  }

  /** What the filtered node holds: exactly the schema's fields the data has,
    * each with the data's value unchanged, so fields only the data has are
    * dropped and schema fields the data lacks are left out; and its fields
    * come in the schema's order. */
  lemma FilterKeepsSharedFields(schema: Json, data: Json)
    ensures var f := Filter(schema, data);
      && f.JObj?
      && (forall k :: Has(f, k) <==> Has(schema, k) && Has(data, k))
      && (forall k :: Has(f, k) ==> Get(f, k) == Get(data, k))
    ensures Distinct(FieldNames(schema)) ==> FieldNames(Filter(schema, data)) == SharedNames(FieldNames(schema), data)
    ensures DistinctFields(Filter(schema, data).fields)
  {
    var names := FieldNames(schema);
    FilteredOverFields(names, data);
    FilteredOverDistinct(names, data);
    forall k
      ensures k in names <==> Has(schema, k)
    {
      if k in names {
        var i :| 0 <= i < |names| && names[i] == k;
        assert schema.fields[i].0 == k;
      }
    }
    if Distinct(names) {
      FilteredOverOrder(names, data);
    }
  }

  /** No two fields share a name. */
  predicate DistinctFields(fields: seq<(string, Json)>) {
    forall i, j :: 0 <= i < j < |fields| ==> fields[i].0 != fields[j].0
  }

  function NameSet(fields: seq<(string, Json)>): set<string> {
    set i | 0 <= i < |fields| :: fields[i].0
  }

  /** Setting a field adds its name and no other. */
  lemma {:induction false} SetFieldNames(fields: seq<(string, Json)>, name: string, value: Json)
    ensures NameSet(SetField(fields, name, value)) == NameSet(fields) + {name}
    decreases |fields|
  {
    var r := SetField(fields, name, value);
    if |fields| > 0 {
      var tail := fields[1..];
      assert NameSet(fields) == {fields[0].0} + NameSet(tail) by {
        forall k | k in NameSet(fields) ensures k in {fields[0].0} + NameSet(tail) {
          var i :| 0 <= i < |fields| && fields[i].0 == k;
          if i > 0 { assert tail[i - 1].0 == k; }
        }
        forall k | k in NameSet(tail) ensures k in NameSet(fields) {
          var i :| 0 <= i < |tail| && tail[i].0 == k;
          assert fields[i + 1].0 == k;
        }
      }
      if fields[0].0 == name {
        assert r == [(name, value)] + tail;
        assert NameSet(r) == {name} + NameSet(tail) by {
          forall k | k in NameSet(r) ensures k in {name} + NameSet(tail) {
            var i :| 0 <= i < |r| && r[i].0 == k;
            if i > 0 { assert tail[i - 1].0 == k; }
          }
          forall k | k in NameSet(tail) ensures k in NameSet(r) {
            var i :| 0 <= i < |tail| && tail[i].0 == k;
            assert r[i + 1].0 == k;
          }
        }
      } else {
        var rest := SetField(tail, name, value);
        SetFieldNames(tail, name, value);
        assert r == [fields[0]] + rest;
        assert NameSet(r) == {fields[0].0} + NameSet(rest) by {
          forall k | k in NameSet(r) ensures k in {fields[0].0} + NameSet(rest) {
            var i :| 0 <= i < |r| && r[i].0 == k;
            if i > 0 { assert rest[i - 1].0 == k; }
          }
          forall k | k in NameSet(rest) ensures k in NameSet(r) {
            var i :| 0 <= i < |rest| && rest[i].0 == k;
            assert r[i + 1].0 == k;
          }
        }
      }
    } else {
      assert r == [(name, value)];
      assert r[0].0 == name;
    }
  }

  /** Setting a field never gives an object a second field of the same
    * name, as an ObjectNode, which holds each name once, does not. */
  lemma {:induction false} SetFieldKeepsDistinct(fields: seq<(string, Json)>, name: string, value: Json)
    requires DistinctFields(fields)
    ensures DistinctFields(SetField(fields, name, value))
    decreases |fields|
  {
    if |fields| > 0 {
      var tail := fields[1..];
      assert fields == [fields[0]] + tail;
      assert DistinctFields(tail) by {
        forall i, j | 0 <= i < j < |tail| ensures tail[i].0 != tail[j].0 {
          assert tail[i] == fields[i + 1] && tail[j] == fields[j + 1];
        }
      }
      ConsDistinct(fields[0], tail);
      if fields[0].0 == name {
        assert SetField(fields, name, value) == [(name, value)] + tail;
        ConsDistinct((name, value), tail);
      } else {
        var rest := SetField(tail, name, value);
        assert SetField(fields, name, value) == [fields[0]] + rest;
        SetFieldKeepsDistinct(tail, name, value);
        SetFieldNames(tail, name, value);
        ConsDistinct(fields[0], rest);
      }
    } else {
      assert SetField(fields, name, value) == [(name, value)];
    }
  }

  /** One more field in front keeps the names distinct when its name is new. */
  lemma ConsDistinct(first: (string, Json), rest: seq<(string, Json)>)
    requires DistinctFields(rest)
    ensures DistinctFields([first] + rest) <==> first.0 !in NameSet(rest)
  {
    var r := [first] + rest;
    if first.0 !in NameSet(rest) {
      forall i, j | 0 <= i < j < |r| ensures r[i].0 != r[j].0 {
        assert r[j] == rest[j - 1];
        if i == 0 {
          assert rest[j - 1].0 in NameSet(rest);
        } else {
          assert r[i] == rest[i - 1];
        }
      }
    } else {
      var k :| 0 <= k < |rest| && rest[k].0 == first.0;
      assert r[k + 1].0 == r[0].0;
    }
  }

  /** The filtered node holds each field name once, whatever the schema. */
  lemma {:induction false} FilteredOverDistinct(names: seq<string>, data: Json)
    ensures DistinctFields(FilteredOver(names, data))
    decreases |names|
  {
    if |names| > 0 {
      var init := names[..|names| - 1];
      var name := names[|names| - 1];
      FilteredOverDistinct(init, data);
      if Has(data, name) {
        SetFieldKeepsDistinct(FilteredOver(init, data), name, Get(data, name).value);
      }
    }
  }

  /** A name is among the shared ones exactly when both nodes have it. */
  lemma {:induction false} SharedNamesAre(names: seq<string>, data: Json)
    ensures forall k :: k in SharedNames(names, data) <==> k in names && Has(data, k)
    decreases |names|
  {
    if |names| > 0 {
      var init := names[..|names| - 1];
      SharedNamesAre(init, data);
      assert names == init + [names[|names| - 1]];
    }
  }

  // ----- getMapper --------------------------------------------------------------------

  datatype Mapper = JsonMapper | YamlMapper

  /** getMapper: the JSON mapper when the trimmed text starts with `{`. */
  function GetMapper(data: string): Mapper {
    if StartsWith(Trim(data), "{") then JsonMapper else YamlMapper
  }

  /** The JSON mapper is picked exactly when the first character above ' '
    * in the text is `{`. */
  lemma MapperIsJsonIff(data: string)
    ensures GetMapper(data) == JsonMapper <==>
      exists i :: 0 <= i < |data| && data[i] == '{' && forall j :: 0 <= j < i ==> data[j] <= ' '
  {
    var t := TrimStart(data);
    var k := |data| - |t|;
    if |t| > 0 {
      var e := TrimEnd(t);
      assert |e| > 0;
      assert e[0] == t[0] == data[k];
      assert StartsWith(Trim(data), "{") <==> data[k] == '{';
      if exists i :: 0 <= i < |data| && data[i] == '{' && forall j :: 0 <= j < i ==> data[j] <= ' ' {
        var i :| 0 <= i < |data| && data[i] == '{' && forall j :: 0 <= j < i ==> data[j] <= ' ';
        assert i == k;
      }
    } else {
      assert Trim(data) == "";
    }
  }
}
