/** The current schema value model (`IntegerSchema`, `ObjectSchema`,
    `RawSchema`) and its rendering to JSON.

    Keywords are those of JSON Schema draft 2020-12: `type` and `enum`
    (validation vocabulary, section 6.1), `minimum` / `maximum` (section 6.2),
    `properties` / `additionalProperties` (core, section 10.3.2), `required`
    (validation vocabulary, section 6.5.3), `default` (section 9.2). */
module Schemas {
  import opened Base
  import opened Json
  import opened Exceptions
  import SchemaMetadata

  type Metadata = SchemaMetadata.Metadata

  /** One schema node. An object owns its property schemas, in insertion order. */
  datatype Schema =
    | Integer(metadata: Metadata, minimum: Option<int>, maximum: Option<int>,
              defaultValue: Option<int>, enum: Option<seq<int>>)
    | Object(metadata: Metadata, properties: seq<(string, Schema)>, required: seq<string>,
             additionalProperties: bool)
      /** A node that is already rendered; used to carry data across collectors. */
    | Raw(data: Fields)

  // ---------------------------------------------------------------------
  // IntegerSchema construction

  const MinAboveMax: string := "Min cannot be greater than Max"
  const DefaultBelowMin: string := "Default value is lower than minimum"
  const DefaultAboveMax: string := "Default value is greater than maximum"
  const DefaultNotInEnum: string := "Default value must be one of the enum values"
  const EnumBelowMin: string := "Enum value is lower than minimum"
  const EnumAboveMax: string := "Enum value is greater than maximum"

  /** `v` breaks a set lower bound. */
  predicate BelowMin(v: int, minimum: Option<int>) {
    minimum.Some? && v < minimum.value
  }

  /** `v` breaks a set upper bound. */
  predicate AboveMax(v: int, maximum: Option<int>) {
    maximum.Some? && v > maximum.value
  }

  predicate InBounds(v: int, minimum: Option<int>, maximum: Option<int>) {
    !BelowMin(v, minimum) && !AboveMax(v, maximum)
  }

  /** The four invariants every integer schema node satisfies: the bounds are
      ordered, the default lies within them, the default is one of the enum
      values, and every enum value lies within the bounds. */
  predicate IntegerInvariants(minimum: Option<int>, maximum: Option<int>, defaultValue: Option<int>, enum: Option<seq<int>>) {
    && (minimum.Some? && maximum.Some? ==> minimum.value <= maximum.value)
    && (defaultValue.Some? ==> InBounds(defaultValue.value, minimum, maximum))
    && (enum.Some? && defaultValue.Some? ==> defaultValue.value in enum.value)
    && (enum.Some? ==> forall i :: 0 <= i < |enum.value| ==> InBounds(enum.value[i], minimum, maximum))
  }

  /** The error for an out-of-bounds enum value; the lower bound is checked first. */
  function EnumError(v: int, minimum: Option<int>, maximum: Option<int>): InvalidSchemaConstraint
    requires !InBounds(v, minimum, maximum)
  {
    if BelowMin(v, minimum) then NewInvalidSchemaConstraint("enum", EnumBelowMin, [("value", JInt(v)), ("minimum", JInt(minimum.value))])
    else NewInvalidSchemaConstraint("enum", EnumAboveMax, [("value", JInt(v)), ("maximum", JInt(maximum.value))])
  }

  /** `i` is the first position whose value breaks a bound. */
  predicate FirstOutOfBounds(values: seq<int>, minimum: Option<int>, maximum: Option<int>, i: int) {
    && 0 <= i < |values|
    && !InBounds(values[i], minimum, maximum)
    && forall j :: 0 <= j < i ==> InBounds(values[j], minimum, maximum)
  }

  /** The `foreach ($this->enum as $value)` loop: the first value, in list order,
      that breaks a bound raises the error. */
  function EnumViolation(values: seq<int>, minimum: Option<int>, maximum: Option<int>): (r: Option<InvalidSchemaConstraint>)
    ensures r.None? <==> forall i :: 0 <= i < |values| ==> InBounds(values[i], minimum, maximum)
    ensures r.Some? ==> exists i :: FirstOutOfBounds(values, minimum, maximum, i)
                                  && r.value == EnumError(values[i], minimum, maximum)
  {
    if values == [] then None
    else if !InBounds(values[0], minimum, maximum) then
      assert FirstOutOfBounds(values, minimum, maximum, 0);
      Some(EnumError(values[0], minimum, maximum))
    else
      var r := EnumViolation(values[1..], minimum, maximum);
      assert forall i :: 1 <= i < |values| ==> values[i] == values[1..][i - 1];
      if r.Some? then
        var i :| FirstOutOfBounds(values[1..], minimum, maximum, i) && r.value == EnumError(values[1..][i], minimum, maximum);
        assert FirstOutOfBounds(values, minimum, maximum, i + 1);
        r
      else r
  }

  /** `new IntegerSchema(...)`: the checks run in the constructor's order and the first
      violation is the exception raised; a node is created exactly when all four
      invariants hold, and then it stores the arguments unchanged. */
  function NewInteger(metadata: Metadata, minimum: Option<int> := None, maximum: Option<int> := None,
                      defaultValue: Option<int> := None, enum: Option<seq<int>> := None): (r: Result<Schema, InvalidSchemaConstraint>)
    ensures r.Success? <==> IntegerInvariants(minimum, maximum, defaultValue, enum)
    ensures r.Success? ==> r.value == Integer(metadata, minimum, maximum, defaultValue, enum)
    // 1. the bounds
    ensures minimum.Some? && maximum.Some? && minimum.value > maximum.value ==>
              r == Failure(NewInvalidSchemaConstraint("minimum", MinAboveMax,
                                                      [("minimum", JInt(minimum.value)), ("maximum", JInt(maximum.value))]))
    // 2. the default against the lower bound, then against the upper bound
    ensures !(minimum.Some? && maximum.Some? && minimum.value > maximum.value) && defaultValue.Some? ==>
              (BelowMin(defaultValue.value, minimum) ==>
                 r == Failure(NewInvalidSchemaConstraint("default", DefaultBelowMin,
                                                         [("default", JInt(defaultValue.value)), ("minimum", JInt(minimum.value))])))
              && (!BelowMin(defaultValue.value, minimum) && AboveMax(defaultValue.value, maximum) ==>
                 r == Failure(NewInvalidSchemaConstraint("default", DefaultAboveMax,
                                                         [("default", JInt(defaultValue.value)), ("maximum", JInt(maximum.value))])))
    // 3. the default against the enum, then 4. each enum value in list order
    ensures && !(minimum.Some? && maximum.Some? && minimum.value > maximum.value)
            && (defaultValue.Some? ==> InBounds(defaultValue.value, minimum, maximum))
            && enum.Some? ==>
              (defaultValue.Some? && defaultValue.value !in enum.value ==>
                 r == Failure(NewInvalidSchemaConstraint("default", DefaultNotInEnum,
                                                         [("default", JInt(defaultValue.value)), ("enum", IntList(enum.value))])))
              && (!(defaultValue.Some? && defaultValue.value !in enum.value) && r.Failure? ==>
                 exists i :: FirstOutOfBounds(enum.value, minimum, maximum, i)
                             && r.error == EnumError(enum.value[i], minimum, maximum))
  {
    if minimum.Some? && maximum.Some? && minimum.value > maximum.value then
      Failure(NewInvalidSchemaConstraint("minimum", MinAboveMax, [("minimum", JInt(minimum.value)), ("maximum", JInt(maximum.value))]))
    else if defaultValue.Some? && BelowMin(defaultValue.value, minimum) then
      Failure(NewInvalidSchemaConstraint("default", DefaultBelowMin, [("default", JInt(defaultValue.value)), ("minimum", JInt(minimum.value))]))
    else if defaultValue.Some? && AboveMax(defaultValue.value, maximum) then
      Failure(NewInvalidSchemaConstraint("default", DefaultAboveMax, [("default", JInt(defaultValue.value)), ("maximum", JInt(maximum.value))]))
    else if enum.Some? && defaultValue.Some? && defaultValue.value !in enum.value then
      Failure(NewInvalidSchemaConstraint("default", DefaultNotInEnum, [("default", JInt(defaultValue.value)), ("enum", IntList(enum.value))]))
    else if enum.Some? then
      match EnumViolation(enum.value, minimum, maximum)
      case Some(e) => Failure(e)
      case None => Success(Integer(metadata, minimum, maximum, defaultValue, enum))
    else Success(Integer(metadata, minimum, maximum, defaultValue, enum))
  }

  // ---------------------------------------------------------------------
  // ObjectSchema and RawSchema construction

  /** `new ObjectSchema(...)`: no check at all, so it never fails, and a
      `required` name need not be a property. By default the node has no
      properties and no required names, and forbids additional properties. */
  function NewObject(metadata: Metadata, properties: seq<(string, Schema)> := [], required: seq<string> := [],
                     additionalProperties: bool := false): (r: Schema)
    ensures r == Object(metadata, properties, required, additionalProperties)
    ensures var out := Render(r);
      && Get(out, "type") == Some(JString("object"))
      && (Get(out, "properties").Some? <==> properties != [])
      && Get(out, "required") == (if required == [] then None else Some(StringList(required)))
      && Get(out, "additionalProperties") == Some(JBool(additionalProperties))
  {
    ObjectRendering(metadata, properties, required, additionalProperties);
    Object(metadata, properties, required, additionalProperties)
  }

  /** `new RawSchema($data)`: stores the array and validates nothing; it
      renders back to exactly that array, with no key added, not even `type`. */
  function NewRaw(data: Fields): (r: Schema)
    ensures Render(r) == data
  {
    Raw(data)
  }

  // ---------------------------------------------------------------------
  // Rendering

  const IntegerKeys: seq<string> := ["type", "minimum", "maximum", "default", "enum"]
  const ObjectKeys: seq<string> := ["type", "properties", "required", "additionalProperties"]
  const OverlapMessage: string := "Schema properties overlap with metadata"

  /** The array literal `IntegerSchema::jsonSerialize` filters. */
  function IntegerEntries(minimum: Option<int>, maximum: Option<int>, defaultValue: Option<int>, enum: Option<seq<int>>)
    : seq<(string, Option<Json>)>
  {
    [ ("type", Some(JString("integer"))),
      ("minimum", IntValue(minimum)),
      ("maximum", IntValue(maximum)),
      ("default", IntValue(defaultValue)),
      ("enum", IntListValue(enum)) ]
  }

  /** The array literal `ObjectSchema::jsonSerialize` filters; empty `properties`
      and `required` are turned into `null` first. */
  function ObjectEntries(rendered: Fields, required: seq<string>, additionalProperties: bool): seq<(string, Option<Json>)> {
    [ ("type", Some(JString("object"))),
      ("properties", if rendered != [] then Some(JObject(rendered)) else None),
      ("required", if required != [] then Some(StringList(required)) else None),
      ("additionalProperties", Some(JBool(additionalProperties))) ]
  }

  /** The overlap guard, then `[...$metadata, ...$schema]`: the guard throws
      exactly when a key occurs on both sides, and once it has passed, a
      structure without repeated keys is simply appended to the metadata. */
  function Combine(metadata: Fields, schema: Fields): (r: Result<Fields, Exception>)
    ensures r.Failure? <==> SharesKey(metadata, schema)
    ensures r.Failure? ==> r.error == Logic(OverlapMessage)
    ensures r.Success? && DistinctKeys(schema) ==> r.value == metadata + schema
  {
    if SharesKey(metadata, schema) then Failure(Logic(OverlapMessage))
    else
      CombineAppends(metadata, schema);
      Success(Merge(metadata, schema))
  }

  /** Without a shared key, spreading distinct structural keys after the
      metadata overrides nothing. */
  lemma CombineAppends(metadata: Fields, schema: Fields)
    requires !SharesKey(metadata, schema)
    ensures DistinctKeys(schema) ==> Merge(metadata, schema) == metadata + schema
  {
    if DistinctKeys(schema) {
      MergeDisjoint(metadata, schema);
    }
  }

  /** `jsonSerialize` of any node; the `LogicException` path is the overlap guard. */
  function JsonSerialize(s: Schema): (r: Result<Fields, Exception>)
    ensures s.Raw? ==> r == Success(s.data)
    decreases s, 1
  {
    match s
    case Integer(m, mn, mx, d, e) =>
      Combine(SchemaMetadata.JsonSerialize(m), DropNulls(IntegerEntries(mn, mx, d, e)))
    case Object(m, props, req, ap) =>
      var rendered :- SerializeProperties(s, 0);
      Combine(SchemaMetadata.JsonSerialize(m), DropNulls(ObjectEntries(rendered, req, ap)))
    case Raw(data) => Success(data)
  }

  /** The `foreach ($this->properties as $name => $schema)` loop of
      `ObjectSchema::jsonSerialize`, from position `i` on: each property
      rendered by its own `jsonSerialize`, in insertion order. */
  function SerializeProperties(s: Schema, i: nat): (r: Result<Fields, Exception>)
    requires s.Object? && i <= |s.properties|
    ensures r.Success? ==> |r.value| == |s.properties| - i
    ensures r.Success? ==> forall j :: 0 <= j < |r.value| ==> r.value[j].0 == s.properties[i + j].0
    decreases s, 0, |s.properties| - i
  {
    if i == |s.properties| then Success([])
    else
      assert s.properties[i] in s.properties;
      var head :- JsonSerialize(s.properties[i].1);
      var tail :- SerializeProperties(s, i + 1);
      var r := [(s.properties[i].0, JObject(head))] + tail;
      assert forall j :: 1 <= j < |r| ==> r[j] == tail[j - 1] && i + j == (i + 1) + (j - 1);
      Success(r)
  }

  /** Metadata followed by the filtered structural entries, when the structural
      keys are distinct and disjoint from the metadata names: the guard passes
      and the spread is concatenation. */
  lemma CombineRendering(m: Metadata, es: seq<(string, Option<Json>)>, schemaKeys: seq<string>)
    requires Keys(es) == schemaKeys && DistinctKeys(es)
    requires forall k :: k in schemaKeys ==> k !in SchemaMetadata.MetadataKeys
    ensures var meta := SchemaMetadata.JsonSerialize(m);
      var r := meta + DropNulls(es);
      && Combine(meta, DropNulls(es)) == Success(r)
      && IsSubsequence(Keys(r), SchemaMetadata.MetadataKeys + schemaKeys)
      && (forall k :: k in SchemaMetadata.MetadataKeys ==> Get(r, k) == Get(meta, k))
      && (forall i :: 0 <= i < |es| ==> Get(r, es[i].0) == es[i].1)
  {
    forall i | 0 <= i < |es| ensures es[i].0 !in SchemaMetadata.MetadataKeys {
      assert Keys(es)[i] == es[i].0;
    }
    MergeFiltered(SchemaMetadata.JsonSerialize(m), SchemaMetadata.MetadataKeys, es);
  }

  /** Rendering never fails: for every node the overlap guard stays silent, so
      the `LogicException` branch is dead code. */
  lemma {:induction false} SerializeNeverFails(s: Schema)
    ensures JsonSerialize(s).Success?
    decreases s, 1
  {
    match s
    case Integer(m, mn, mx, d, e) =>
      CombineRendering(m, IntegerEntries(mn, mx, d, e), IntegerKeys);
    case Object(m, props, req, ap) =>
      PropertiesNeverFail(s, 0);
      CombineRendering(m, ObjectEntries(SerializeProperties(s, 0).value, req, ap), ObjectKeys);
    case Raw(data) =>
  }

  lemma {:induction false} PropertiesNeverFail(s: Schema, i: nat)
    requires s.Object? && i <= |s.properties|
    ensures SerializeProperties(s, i).Success?
    decreases s, 0, |s.properties| - i
  {
    if i < |s.properties| {
      assert s.properties[i] in s.properties;
      SerializeNeverFails(s.properties[i].1);
      PropertiesNeverFail(s, i + 1);
    }
  }

  /** Total rendering, available because rendering never fails. */
  function Render(s: Schema): Fields {
    SerializeNeverFails(s);
    JsonSerialize(s).value
  }

  /** One step of the property loop: the property at `i` rendered, then the rest. */
  lemma SerializeStep(s: Schema, i: nat)
    requires s.Object? && i < |s.properties|
    ensures SerializeProperties(s, i + 1).Success?
    ensures SerializeProperties(s, i)
            == Success([(s.properties[i].0, JObject(Render(s.properties[i].1)))] + SerializeProperties(s, i + 1).value)
  {
    PropertiesNeverFail(s, i + 1);
    assert s.properties[i] in s.properties;
    SerializeNeverFails(s.properties[i].1);
  }

  /** The property at position `k` is rendered, from any start `i` up to `k`,
      as the rendering of its own schema under its own name. */
  lemma {:induction false} RenderedPropertyValue(s: Schema, i: nat, k: nat)
    requires s.Object? && i <= k < |s.properties|
    ensures SerializeProperties(s, i).Success?
    ensures SerializeProperties(s, i).value[k - i] == (s.properties[k].0, JObject(Render(s.properties[k].1)))
    decreases k - i
  {
    SerializeStep(s, i);
    if i < k {
      RenderedPropertyValue(s, i + 1, k);
    }
  }

  /** Every rendered property value is the rendering of that property's own schema. */
  lemma RenderedPropertyValues(s: Schema, i: nat)
    requires s.Object? && i <= |s.properties|
    ensures SerializeProperties(s, i).Success?
    ensures forall j :: 0 <= j < |s.properties| - i ==>
              SerializeProperties(s, i).value[j] == (s.properties[i + j].0, JObject(Render(s.properties[i + j].1)))
  {
    PropertiesNeverFail(s, i);
    forall j | 0 <= j < |s.properties| - i
      ensures SerializeProperties(s, i).value[j] == (s.properties[i + j].0, JObject(Render(s.properties[i + j].1)))
    {
      RenderedPropertyValue(s, i, i + j);
    }
  }

  /** IntegerSchema output: the metadata entries, then `type: "integer"`, then
      minimum, maximum, default and enum, each present exactly when set and
      with its value unchanged (an empty enum list is kept); the overlap guard
      never fires. */
  lemma IntegerRendering(m: Metadata, minimum: Option<int>, maximum: Option<int>, defaultValue: Option<int>, enum: Option<seq<int>>)
    ensures JsonSerialize(Integer(m, minimum, maximum, defaultValue, enum))
            == Success(SchemaMetadata.JsonSerialize(m) + DropNulls(IntegerEntries(minimum, maximum, defaultValue, enum)))
    ensures var r := Render(Integer(m, minimum, maximum, defaultValue, enum));
      && IsSubsequence(Keys(r), SchemaMetadata.MetadataKeys + IntegerKeys)
      && (forall k :: k in SchemaMetadata.MetadataKeys ==> Get(r, k) == Get(SchemaMetadata.JsonSerialize(m), k))
      && Get(r, "type") == Some(JString("integer"))
      && Get(r, "minimum") == IntValue(minimum)
      && Get(r, "maximum") == IntValue(maximum)
      && Get(r, "default") == IntValue(defaultValue)
      && Get(r, "enum") == IntListValue(enum)
  {
    var es := IntegerEntries(minimum, maximum, defaultValue, enum);
    assert Keys(es) == IntegerKeys;
    CombineRendering(m, es, IntegerKeys);
    var r := Render(Integer(m, minimum, maximum, defaultValue, enum));
    assert Get(r, es[0].0) == es[0].1;
    assert Get(r, es[1].0) == es[1].1;
    assert Get(r, es[2].0) == es[2].1;
    assert Get(r, es[3].0) == es[3].1;
    assert Get(r, es[4].0) == es[4].1;
  }

  /** ObjectSchema serialization: the metadata entries followed by the non-null
      structural entries, the properties being rendered first. */
  lemma ObjectSerialization(m: Metadata, properties: seq<(string, Schema)>, required: seq<string>, additionalProperties: bool)
    ensures var s := Object(m, properties, required, additionalProperties);
      && SerializeProperties(s, 0).Success?
      && JsonSerialize(s) == Success(SchemaMetadata.JsonSerialize(m)
                                     + DropNulls(ObjectEntries(SerializeProperties(s, 0).value, required, additionalProperties)))
  {
    var s := Object(m, properties, required, additionalProperties);
    PropertiesNeverFail(s, 0);
    var rendered := SerializeProperties(s, 0).value;
    var es := ObjectEntries(rendered, required, additionalProperties);
    var meta := SchemaMetadata.JsonSerialize(m);
    assert JsonSerialize(s) == Combine(meta, DropNulls(es));
    ObjectEntriesCombine(m, rendered, required, additionalProperties);
  }

  /** The structural entries of an object never clash with the metadata. */
  lemma ObjectEntriesCombine(m: Metadata, rendered: Fields, required: seq<string>, additionalProperties: bool)
    ensures var meta := SchemaMetadata.JsonSerialize(m);
      var fields := DropNulls(ObjectEntries(rendered, required, additionalProperties));
      Combine(meta, fields) == Success(meta + fields)
  {
    var es := ObjectEntries(rendered, required, additionalProperties);
    assert Keys(es) == ObjectKeys;
    CombineRendering(m, es, ObjectKeys);
  }

  /** ObjectSchema output: the metadata entries, then `type: "object"`, then
      `properties` (omitted when there are none), `required` (omitted when
      empty) and `additionalProperties` (always present, `false` included);
      the overlap guard never fires. */
  lemma ObjectRendering(m: Metadata, properties: seq<(string, Schema)>, required: seq<string>, additionalProperties: bool)
    ensures var r := Render(Object(m, properties, required, additionalProperties));
      && IsSubsequence(Keys(r), SchemaMetadata.MetadataKeys + ObjectKeys)
      && (forall k :: k in SchemaMetadata.MetadataKeys ==> Get(r, k) == Get(SchemaMetadata.JsonSerialize(m), k))
      && Get(r, "type") == Some(JString("object"))
      && (Get(r, "properties").Some? <==> properties != [])
      && Get(r, "required") == (if required == [] then None else Some(StringList(required)))
      && Get(r, "additionalProperties") == Some(JBool(additionalProperties))
  {
    var s := Object(m, properties, required, additionalProperties);
    PropertiesNeverFail(s, 0);
    var rendered := SerializeProperties(s, 0).value;
    assert |rendered| == |properties|;
    var es := ObjectEntries(rendered, required, additionalProperties);
    assert Keys(es) == ObjectKeys;
    CombineRendering(m, es, ObjectKeys);
    var r := Render(s);
    assert r == SchemaMetadata.JsonSerialize(m) + DropNulls(es);
    assert Get(r, es[0].0) == es[0].1;
    assert Get(r, es[1].0) == es[1].1;
    assert Get(r, es[2].0) == es[2].1;
    assert Get(r, es[3].0) == es[3].1;
  }

  // ---------------------------------------------------------------------
  // Examples

  /** Equal boundaries are accepted: `minimum == maximum`, a default equal to
      the minimum and a default equal to the maximum. */
  lemma BoundariesAccepted(m: Metadata, v: int)
    ensures NewInteger(m, Some(v), Some(v)).Success?
    ensures NewInteger(m, Some(v), Some(v + 10), Some(v)).Success?
    ensures NewInteger(m, Some(v - 10), Some(v), Some(v)).Success?
    ensures NewInteger(m, Some(v), Some(v), Some(v), Some([v])).Success?
  {
    assert v in [v];
  }

  /** Minimum 11 with maximum 10 is rejected with the `minimum` constraint and
      the message spelled out below. */
  lemma MinAboveMaxMessage()
    ensures NewInteger(SchemaMetadata.Empty(), Some(11), Some(10)).Failure?
    ensures var e := NewInteger(SchemaMetadata.Empty(), Some(11), Some(10)).error;
      && e.constraint == "minimum"
      && e.message == "Invalid schema constraint \"minimum\": " + "Min cannot be greater than Max"
  {
    var r := NewInteger(SchemaMetadata.Empty(), Some(11), Some(10));
    assert r == Failure(NewInvalidSchemaConstraint("minimum", MinAboveMax, [("minimum", JInt(11)), ("maximum", JInt(10))]));
    MinAboveMaxText();
  }

  /** The message, as the constraint's prefix and name followed by the reason. */
  lemma MinAboveMaxText()
    ensures ConstraintMessage("minimum", MinAboveMax) == "Invalid schema constraint \"minimum\": " + "Min cannot be greater than Max"
  {
    var name := ConstraintPrefix + "minimum";
    assert |name| == 34;
    assert name == "Invalid schema constraint \"minimum";
  }
}
