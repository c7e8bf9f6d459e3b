/** The earlier schema value model (`Domain\Schema`): `IntegerSchema` with
    bounds checks only, the unchecked `StringSchema` and `ObjectSchema`, and
    `RefSchema`. Nodes render through `array_merge(metadata, filtered)`, with
    no overlap guard.

    The metadata class of this generation is the same class, field for field
    and line for line, as the current one, so it is modelled once, by
    `SchemaMetadata`. The integer bound predicates and the reason texts are
    also shared with `Schemas`: the two generations use the same words. */
module DomainSchema {
  import opened Base
  import opened Json
  import opened Exceptions
  import SchemaMetadata
  import Schemas

  type Metadata = SchemaMetadata.Metadata

  datatype Schema =
    | Integer(metadata: Metadata, minimum: Option<int>, maximum: Option<int>,
              defaultValue: Option<int>, enum: Option<seq<int>>)
    | String(metadata: Metadata, minLength: Option<int>, maxLength: Option<int>, pattern: Option<string>,
             format: Option<string>, stringDefault: Option<string>, stringEnum: Option<seq<string>>)
      /** `required` and `additionalProperties` are nullable here. */
    | Object(metadata: Metadata, properties: seq<(string, Schema)>, required: Option<seq<string>>,
             additionalProperties: Option<bool>)
      /** A reference to another schema by URI (`$ref`, section 8.2.3.1 of the
          JSON Schema 2020-12 core). */
    | Ref(ref: string)

  // ---------------------------------------------------------------------
  // Construction

  /** The two invariants this generation enforces: ordered bounds, and a
      default inside them. The enum list is not checked at all. */
  predicate BoundsInvariants(minimum: Option<int>, maximum: Option<int>, defaultValue: Option<int>) {
    && (minimum.Some? && maximum.Some? ==> minimum.value <= maximum.value)
    && (defaultValue.Some? ==> Schemas.InBounds(defaultValue.value, minimum, maximum))
  }

  /** `new IntegerSchema(...)` of this generation: each violation is a plain
      `InvalidArgumentException` carrying only the reason text, and the checks
      run bounds first, then the default against the minimum, then against the
      maximum. */
  function NewInteger(metadata: Metadata, minimum: Option<int> := None, maximum: Option<int> := None,
                      defaultValue: Option<int> := None, enum: Option<seq<int>> := None): (r: Result<Schema, Exception>)
    ensures r.Success? <==> BoundsInvariants(minimum, maximum, defaultValue)
    ensures r.Success? ==> r.value == Integer(metadata, minimum, maximum, defaultValue, enum)
    ensures minimum.Some? && maximum.Some? && minimum.value > maximum.value ==>
              r == Failure(InvalidArgument(Schemas.MinAboveMax))
    ensures !(minimum.Some? && maximum.Some? && minimum.value > maximum.value) && defaultValue.Some? ==>
              (Schemas.BelowMin(defaultValue.value, minimum) ==> r == Failure(InvalidArgument(Schemas.DefaultBelowMin)))
              && (!Schemas.BelowMin(defaultValue.value, minimum) && Schemas.AboveMax(defaultValue.value, maximum) ==>
                    r == Failure(InvalidArgument(Schemas.DefaultAboveMax)))
  {
    if minimum.Some? && maximum.Some? && minimum.value > maximum.value then
      Failure(InvalidArgument(Schemas.MinAboveMax))
    else if defaultValue.Some? && Schemas.BelowMin(defaultValue.value, minimum) then
      Failure(InvalidArgument(Schemas.DefaultBelowMin))
    else if defaultValue.Some? && Schemas.AboveMax(defaultValue.value, maximum) then
      Failure(InvalidArgument(Schemas.DefaultAboveMax))
    else Success(Integer(metadata, minimum, maximum, defaultValue, enum))
  }

  /** `new StringSchema(...)`: no check, every field defaults to `null`. */
  function NewString(metadata: Metadata, minLength: Option<int> := None, maxLength: Option<int> := None,
                     pattern: Option<string> := None, format: Option<string> := None,
                     defaultValue: Option<string> := None, enum: Option<seq<string>> := None): (r: Schema)
    ensures r == String(metadata, minLength, maxLength, pattern, format, defaultValue, enum)
    ensures var out := Render(r);
      && Get(out, "type") == Some(JString("string"))
      && Get(out, "minLength") == IntValue(minLength)
      && Get(out, "maxLength") == IntValue(maxLength)
      && Get(out, "pattern") == StringValue(pattern)
      && Get(out, "format") == StringValue(format)
      && Get(out, "default") == StringValue(defaultValue)
      && Get(out, "enum") == StringListValue(enum)
  {
    StringRendering(metadata, minLength, maxLength, pattern, format, defaultValue, enum);
    String(metadata, minLength, maxLength, pattern, format, defaultValue, enum)
  }

  /** `new ObjectSchema(...)`: no check; `properties` is mandatory, the rest
      default to `null`, and then neither `required` nor `additionalProperties`
      is written. */
  function NewObject(metadata: Metadata, properties: seq<(string, Schema)>, required: Option<seq<string>> := None,
                     additionalProperties: Option<bool> := None): (r: Schema)
    ensures r == Object(metadata, properties, required, additionalProperties)
    ensures var out := Render(r);
      && Get(out, "type") == Some(JString("object"))
      && Get(out, "properties").Some? && Get(out, "properties").value.JObject?
      && |Get(out, "properties").value.fields| == |properties|
      && (forall j :: 0 <= j < |properties| ==>
            Get(out, "properties").value.fields[j] == (properties[j].0, JObject(Render(properties[j].1))))
      && Get(out, "required") == StringListValue(required)
      && Get(out, "additionalProperties") == BoolValue(additionalProperties)
  {
    ObjectRendering(metadata, properties, required, additionalProperties);
    Object(metadata, properties, required, additionalProperties)
  }

  /** Neither bound nor default is checked against the others: a minimum
      length above the maximum length and a default outside the enum are both
      kept and rendered as given. */
  lemma StringAcceptsAnything()
    ensures var out := Render(NewString(SchemaMetadata.Empty(), Some(5), Some(1), defaultValue := Some("x"), enum := Some(["a"])));
      && Get(out, "minLength") == Some(JInt(5))
      && Get(out, "maxLength") == Some(JInt(1))
      && Get(out, "default") == Some(JString("x"))
  {
  }

  /** `new RefSchema($ref)`: the node renders as the single `$ref` entry and
      nothing else. */
  function NewRef(ref: string): (r: Schema)
    ensures Render(r) == [("$ref", JString(ref))]
    ensures Keys(Render(r)) == ["$ref"]
  {
    Ref(ref)
  }

  // ---------------------------------------------------------------------
  // Rendering

  const StringKeys: seq<string> := ["type", "minLength", "maxLength", "pattern", "format", "default", "enum"]
  const ObjectKeys: seq<string> := ["type", "properties", "required", "additionalProperties"]

  /** The array literal `StringSchema::jsonSerialize` filters. */
  function StringEntries(minLength: Option<int>, maxLength: Option<int>, pattern: Option<string>,
                         format: Option<string>, defaultValue: Option<string>, enum: Option<seq<string>>)
    : seq<(string, Option<Json>)>
  {
    [ ("type", Some(JString("string"))),
      ("minLength", IntValue(minLength)),
      ("maxLength", IntValue(maxLength)),
      ("pattern", StringValue(pattern)),
      ("format", StringValue(format)),
      ("default", StringValue(defaultValue)),
      ("enum", StringListValue(enum)) ]
  }

  /** The array literal `ObjectSchema::jsonSerialize` of this generation filters:
      `properties` is never `null`, so it is always kept, even when empty. */
  function ObjectEntries(rendered: Fields, required: Option<seq<string>>, additionalProperties: Option<bool>)
    : seq<(string, Option<Json>)>
  {
    [ ("type", Some(JString("object"))),
      ("properties", Some(JObject(rendered))),
      ("required", StringListValue(required)),
      ("additionalProperties", BoolValue(additionalProperties)) ]
  }

  /** `jsonSerialize` of any node: `array_merge` of the metadata and the
      filtered structural entries; a reference is the bare `$ref` entry. */
  function Render(s: Schema): Fields
    decreases s, 1
  {
    match s
    case Integer(m, mn, mx, d, e) =>
      Merge(SchemaMetadata.JsonSerialize(m), DropNulls(Schemas.IntegerEntries(mn, mx, d, e)))
    case String(m, mnl, mxl, p, f, d, e) =>
      Merge(SchemaMetadata.JsonSerialize(m), DropNulls(StringEntries(mnl, mxl, p, f, d, e)))
    case Object(m, props, req, ap) =>
      Merge(SchemaMetadata.JsonSerialize(m), DropNulls(ObjectEntries(RenderProperties(s, 0), req, ap)))
    case Ref(ref) => [("$ref", JString(ref))]
  }

  /** The `properties` array as `json_encode` writes it, from position `i` on:
      each property under its name, rendered by its own schema, in order. */
  function RenderProperties(s: Schema, i: nat): (r: Fields)
    requires s.Object? && i <= |s.properties|
    ensures |r| == |s.properties| - i
    ensures forall j :: 0 <= j < |r| ==> r[j] == (s.properties[i + j].0, JObject(Render(s.properties[i + j].1)))
    decreases s, 0, |s.properties| - i
  {
    if i == |s.properties| then []
    else
      assert s.properties[i] in s.properties;
      var head := (s.properties[i].0, JObject(Render(s.properties[i].1)));
      var tail := RenderProperties(s, i + 1);
      var r := [head] + tail;
      assert forall j :: 1 <= j < |r| ==> r[j] == tail[j - 1] && i + j == (i + 1) + (j - 1);
      r
  }

  /** The metadata keys and the structural keys of a node never collide, so
      `array_merge` overrides nothing: the rendering is the metadata entries
      followed by the non-null structural entries, each with its own value. */
  lemma MergeOverridesNothing(m: Metadata, es: seq<(string, Option<Json>)>, schemaKeys: seq<string>)
    requires Keys(es) == schemaKeys && DistinctKeys(es)
    requires forall k :: k in schemaKeys ==> k !in SchemaMetadata.MetadataKeys
    ensures var meta := SchemaMetadata.JsonSerialize(m);
      var r := meta + DropNulls(es);
      && Merge(meta, DropNulls(es)) == r
      && IsSubsequence(Keys(r), SchemaMetadata.MetadataKeys + schemaKeys)
      && (forall k :: k in SchemaMetadata.MetadataKeys ==> Get(r, k) == Get(meta, k))
      && (forall i :: 0 <= i < |es| ==> Get(r, es[i].0) == es[i].1)
  {
    forall i | 0 <= i < |es| ensures es[i].0 !in SchemaMetadata.MetadataKeys {
      assert Keys(es)[i] == es[i].0;
    }
    MergeFiltered(SchemaMetadata.JsonSerialize(m), SchemaMetadata.MetadataKeys, es);
  }

  /** IntegerSchema output of this generation: metadata, then `type`, minimum,
      maximum, default and enum, each present exactly when set. */
  lemma IntegerRendering(m: Metadata, minimum: Option<int>, maximum: Option<int>, defaultValue: Option<int>, enum: Option<seq<int>>)
    ensures Render(Integer(m, minimum, maximum, defaultValue, enum))
            == SchemaMetadata.JsonSerialize(m) + DropNulls(Schemas.IntegerEntries(minimum, maximum, defaultValue, enum))
    ensures var r := Render(Integer(m, minimum, maximum, defaultValue, enum));
      && IsSubsequence(Keys(r), SchemaMetadata.MetadataKeys + Schemas.IntegerKeys)
      && (forall k :: k in SchemaMetadata.MetadataKeys ==> Get(r, k) == Get(SchemaMetadata.JsonSerialize(m), k))
      && Get(r, "type") == Some(JString("integer"))
      && Get(r, "minimum") == IntValue(minimum)
      && Get(r, "maximum") == IntValue(maximum)
      && Get(r, "default") == IntValue(defaultValue)
      && Get(r, "enum") == IntListValue(enum)
  {
    var es := Schemas.IntegerEntries(minimum, maximum, defaultValue, enum);
    assert Keys(es) == Schemas.IntegerKeys;
    MergeOverridesNothing(m, es, Schemas.IntegerKeys);
    var r := Render(Integer(m, minimum, maximum, defaultValue, enum));
    assert Get(r, es[0].0) == es[0].1;
    assert Get(r, es[1].0) == es[1].1;
    assert Get(r, es[2].0) == es[2].1;
    assert Get(r, es[3].0) == es[3].1;
    assert Get(r, es[4].0) == es[4].1;
  }

  /** StringSchema output: metadata, then `type: "string"`, then minLength,
      maxLength, pattern, format, default and enum, each present exactly when
      set and unchanged. */
  lemma StringRendering(m: Metadata, minLength: Option<int>, maxLength: Option<int>, pattern: Option<string>,
                        format: Option<string>, defaultValue: Option<string>, enum: Option<seq<string>>)
    ensures Render(String(m, minLength, maxLength, pattern, format, defaultValue, enum))
            == SchemaMetadata.JsonSerialize(m) + DropNulls(StringEntries(minLength, maxLength, pattern, format, defaultValue, enum))
    ensures var r := Render(String(m, minLength, maxLength, pattern, format, defaultValue, enum));
      && IsSubsequence(Keys(r), SchemaMetadata.MetadataKeys + StringKeys)
      && (forall k :: k in SchemaMetadata.MetadataKeys ==> Get(r, k) == Get(SchemaMetadata.JsonSerialize(m), k))
      && Get(r, "type") == Some(JString("string"))
      && Get(r, "minLength") == IntValue(minLength)
      && Get(r, "maxLength") == IntValue(maxLength)
      && Get(r, "pattern") == StringValue(pattern)
      && Get(r, "format") == StringValue(format)
      && Get(r, "default") == StringValue(defaultValue)
      && Get(r, "enum") == StringListValue(enum)
  {
    var es := StringEntries(minLength, maxLength, pattern, format, defaultValue, enum);
    assert Keys(es) == StringKeys;
    MergeOverridesNothing(m, es, StringKeys);
    var r := Render(String(m, minLength, maxLength, pattern, format, defaultValue, enum));
    assert r == SchemaMetadata.JsonSerialize(m) + DropNulls(es);
    assert Get(r, es[0].0) == es[0].1;
    assert Get(r, es[1].0) == es[1].1;
    assert Get(r, es[2].0) == es[2].1;
    assert Get(r, es[3].0) == es[3].1;
    assert Get(r, es[4].0) == es[4].1;
    assert Get(r, es[5].0) == es[5].1;
    assert Get(r, es[6].0) == es[6].1;
  }

  /** ObjectSchema output of this generation: metadata, then `type: "object"`,
      then `properties` (always present, empty included, each property rendered
      by its own schema), `required` and `additionalProperties` (each present
      exactly when not `null`). */
  lemma ObjectRendering(m: Metadata, properties: seq<(string, Schema)>, required: Option<seq<string>>,
                        additionalProperties: Option<bool>)
    ensures var s := Object(m, properties, required, additionalProperties);
      Render(s) == SchemaMetadata.JsonSerialize(m) + DropNulls(ObjectEntries(RenderProperties(s, 0), required, additionalProperties))
    ensures var s := Object(m, properties, required, additionalProperties);
      var r := Render(s);
      && IsSubsequence(Keys(r), SchemaMetadata.MetadataKeys + ObjectKeys)
      && (forall k :: k in SchemaMetadata.MetadataKeys ==> Get(r, k) == Get(SchemaMetadata.JsonSerialize(m), k))
      && Get(r, "type") == Some(JString("object"))
      && Get(r, "properties") == Some(JObject(RenderProperties(s, 0)))
      && Get(r, "required") == StringListValue(required)
      && Get(r, "additionalProperties") == BoolValue(additionalProperties)
  {
    var s := Object(m, properties, required, additionalProperties);
    var es := ObjectEntries(RenderProperties(s, 0), required, additionalProperties);
    assert Keys(es) == ObjectKeys;
    MergeOverridesNothing(m, es, ObjectKeys);
    var r := Render(s);
    assert Get(r, es[0].0) == es[0].1;
    assert Get(r, es[1].0) == es[1].1;
    assert Get(r, es[2].0) == es[2].1;
    assert Get(r, es[3].0) == es[3].1;
  }
}
