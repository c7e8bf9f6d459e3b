/** How the two generations of the schema value model relate: the current
    integer constructor accepts strictly fewer argument combinations than the
    earlier one, reports the violations they share under the same reason, and
    both render an integer node identically; object nodes render differently
    when they have no properties or no required list. */
module Generations {
  import opened Base
  import opened Json
  import opened Exceptions
  import SchemaMetadata
  import Schemas
  import DomainSchema

  type Metadata = SchemaMetadata.Metadata

  /** Every integer node the current constructor accepts, the earlier one
      accepts with the same fields. */
  lemma CurrentIntegerAcceptedEarlier(m: Metadata, minimum: Option<int>, maximum: Option<int>,
                                      defaultValue: Option<int>, enum: Option<seq<int>>)
    requires Schemas.NewInteger(m, minimum, maximum, defaultValue, enum).Success?
    ensures DomainSchema.NewInteger(m, minimum, maximum, defaultValue, enum).Success?
  {
  }

  /** When the earlier constructor rejects the arguments, the current one
      rejects them too, for the same reason: its message is the earlier message
      prefixed with the name of the broken constraint. */
  lemma SameRejectionReason(m: Metadata, minimum: Option<int>, maximum: Option<int>,
                            defaultValue: Option<int>, enum: Option<seq<int>>)
    requires DomainSchema.NewInteger(m, minimum, maximum, defaultValue, enum).Failure?
    ensures var earlier := DomainSchema.NewInteger(m, minimum, maximum, defaultValue, enum).error;
      var current := Schemas.NewInteger(m, minimum, maximum, defaultValue, enum);
      && earlier.InvalidArgument?
      && current.Failure?
      && current.error.message == ConstraintMessage(current.error.constraint, earlier.message)
      && current.error.constraint in ["minimum", "default"]
  {
  }

  /** The enum checks exist only in the current generation: whenever the
      bounds are consistent and the default lies within them, a default outside
      the enum list is accepted by the earlier constructor and rejected by the
      current one. */
  lemma EnumCheckedOnlyNow(m: Metadata, minimum: Option<int>, maximum: Option<int>, d: int, e: seq<int>)
    requires !(minimum.Some? && maximum.Some? && minimum.value > maximum.value)
    requires Schemas.InBounds(d, minimum, maximum)
    requires d !in e
    ensures DomainSchema.NewInteger(m, minimum, maximum, Some(d), Some(e))
            == Success(DomainSchema.Integer(m, minimum, maximum, Some(d), Some(e)))
    ensures Schemas.NewInteger(m, minimum, maximum, Some(d), Some(e))
            == Failure(NewInvalidSchemaConstraint("default", Schemas.DefaultNotInEnum, [("default", JInt(d)), ("enum", IntList(e))]))
  {
  }

  /** Both generations render the same integer node to the same array. */
  lemma IntegerRenderingAgrees(m: Metadata, minimum: Option<int>, maximum: Option<int>,
                               defaultValue: Option<int>, enum: Option<seq<int>>)
    ensures Schemas.Render(Schemas.Integer(m, minimum, maximum, defaultValue, enum))
            == DomainSchema.Render(DomainSchema.Integer(m, minimum, maximum, defaultValue, enum))
  {
    Schemas.IntegerRendering(m, minimum, maximum, defaultValue, enum);
    DomainSchema.IntegerRendering(m, minimum, maximum, defaultValue, enum);
  }

  /** An object without properties in the current generation: the metadata,
      `type`, then `required` only when the list is non-empty, and
      `additionalProperties` always; `properties` is left out. */
  lemma EmptyObjectNow(m: Metadata, required: seq<string>, additionalProperties: bool)
    ensures Schemas.Render(Schemas.NewObject(m, [], required, additionalProperties))
            == SchemaMetadata.JsonSerialize(m)
               + ([("type", JString("object"))]
                  + (if required == [] then [] else [("required", StringList(required))])
                  + [("additionalProperties", JBool(additionalProperties))])
  {
    assert Schemas.NewObject(m, [], required, additionalProperties) == Schemas.Object(m, [], required, additionalProperties);
    NoPropertiesSerialized(m, required, additionalProperties);
    NoPropertiesEntries(required, additionalProperties);
  }

  /** With no properties, the rendered `properties` array is empty. */
  lemma NoPropertiesSerialized(m: Metadata, required: seq<string>, additionalProperties: bool)
    ensures Schemas.Render(Schemas.Object(m, [], required, additionalProperties))
            == SchemaMetadata.JsonSerialize(m) + DropNulls(Schemas.ObjectEntries([], required, additionalProperties))
  {
    var s := Schemas.Object(m, [], required, additionalProperties);
    Schemas.ObjectSerialization(m, [], required, additionalProperties);
    assert Schemas.SerializeProperties(s, 0) == Success([]);
  }

  /** The filtered structural entries of an object without properties. */
  lemma NoPropertiesEntries(required: seq<string>, additionalProperties: bool)
    ensures DropNulls(Schemas.ObjectEntries([], required, additionalProperties))
            == [("type", JString("object"))]
               + (if required == [] then [] else [("required", StringList(required))])
               + [("additionalProperties", JBool(additionalProperties))]
  {
    var es := Schemas.ObjectEntries([], required, additionalProperties);
    DropNullsFour(es[0], es[1], es[2], es[3]);
  }

  /** The same object in the earlier generation: `properties` is always
      written, empty included, while `required` and `additionalProperties`
      appear exactly when they are not `null`. */
  lemma EmptyObjectEarlier(m: Metadata, required: Option<seq<string>>, additionalProperties: Option<bool>)
    ensures DomainSchema.Render(DomainSchema.NewObject(m, [], required, additionalProperties))
            == SchemaMetadata.JsonSerialize(m)
               + ([("type", JString("object")), ("properties", JObject([]))]
                  + Present("required", StringListValue(required))
                  + Present("additionalProperties", BoolValue(additionalProperties)))
  {
    assert DomainSchema.NewObject(m, [], required, additionalProperties)
           == DomainSchema.Object(m, [], required, additionalProperties);
    EarlierNoPropertiesRendered(m, required, additionalProperties);
    EarlierNoPropertiesEntries(required, additionalProperties);
  }

  /** With no properties, the earlier generation renders an empty `properties` array. */
  lemma EarlierNoPropertiesRendered(m: Metadata, required: Option<seq<string>>, additionalProperties: Option<bool>)
    ensures DomainSchema.Render(DomainSchema.Object(m, [], required, additionalProperties))
            == SchemaMetadata.JsonSerialize(m) + DropNulls(DomainSchema.ObjectEntries([], required, additionalProperties))
  {
    var d := DomainSchema.Object(m, [], required, additionalProperties);
    DomainSchema.ObjectRendering(m, [], required, additionalProperties);
    assert DomainSchema.RenderProperties(d, 0) == [];
  }

  /** The filtered structural entries of an earlier object without properties. */
  lemma EarlierNoPropertiesEntries(required: Option<seq<string>>, additionalProperties: Option<bool>)
    ensures DropNulls(DomainSchema.ObjectEntries([], required, additionalProperties))
            == [("type", JString("object")), ("properties", JObject([]))]
               + Present("required", StringListValue(required))
               + Present("additionalProperties", BoolValue(additionalProperties))
  {
    var es := DomainSchema.ObjectEntries([], required, additionalProperties);
    DropNullsFour(es[0], es[1], es[2], es[3]);
  }
}
