/** `SchemaMetadata`: the descriptive annotations (title, description and the
    deprecated / readOnly / writeOnly flags of section 9 of JSON Schema draft
    2020-12) that any schema node carries. Every field is optional. */
module SchemaMetadata {
  import opened Base
  import opened Json

  datatype Metadata = Metadata(
    title: Option<string>,
    description: Option<string>,
    deprecated: Option<bool>,
    readOnly: Option<bool>,
    writeOnly: Option<bool>)

  /** `new SchemaMetadata()`: every field defaults to `null`. */
  function Empty(): Metadata {
    Metadata(None, None, None, None, None)
  }

  /** The only keys metadata can render, in rendering order. */
  const MetadataKeys: seq<string> := ["title", "description", "deprecated", "readOnly", "writeOnly"]

  /** The array literal `jsonSerialize` filters. */
  function Entries(m: Metadata): seq<(string, Option<Json>)> {
    [ ("title", StringValue(m.title)),
      ("description", StringValue(m.description)),
      ("deprecated", BoolValue(m.deprecated)),
      ("readOnly", BoolValue(m.readOnly)),
      ("writeOnly", BoolValue(m.writeOnly)) ]
  }

  /** `jsonSerialize`: each non-null field under its own name, in the fixed order
      title, description, deprecated, readOnly, writeOnly; `null` fields are left
      out, while `false` and `""` are kept. */
  function JsonSerialize(m: Metadata): (r: Fields)
    ensures IsSubsequence(Keys(r), MetadataKeys)
    ensures DistinctKeys(r)
    ensures Get(r, "title") == StringValue(m.title)
    ensures Get(r, "description") == StringValue(m.description)
    ensures Get(r, "deprecated") == BoolValue(m.deprecated)
    ensures Get(r, "readOnly") == BoolValue(m.readOnly)
    ensures Get(r, "writeOnly") == BoolValue(m.writeOnly)
  {
    var es := Entries(m);
    assert Keys(es) == MetadataKeys;
    DropNullsOrder(es);
    DropNullsDistinct(es);
    GetAt(es, 0);
    GetAt(es, 1);
    GetAt(es, 2);
    GetAt(es, 3);
    GetAt(es, 4);
    DropNullsGet(es, "title");
    DropNullsGet(es, "description");
    DropNullsGet(es, "deprecated");
    DropNullsGet(es, "readOnly");
    DropNullsGet(es, "writeOnly");
    DropNulls(es)
  }

  /** Every rendered key is one of the five metadata names. */
  lemma KeysAreMetadataKeys(m: Metadata)
    ensures forall k :: k in Keys(JsonSerialize(m)) ==> k in MetadataKeys
  {
    SubsequenceMembers(Keys(JsonSerialize(m)), MetadataKeys);
  }

  /** A key is rendered exactly when its field is set. */
  lemma KeyPresence(m: Metadata)
    ensures "title" in Keys(JsonSerialize(m)) <==> m.title.Some?
    ensures "description" in Keys(JsonSerialize(m)) <==> m.description.Some?
    ensures "deprecated" in Keys(JsonSerialize(m)) <==> m.deprecated.Some?
    ensures "readOnly" in Keys(JsonSerialize(m)) <==> m.readOnly.Some?
    ensures "writeOnly" in Keys(JsonSerialize(m)) <==> m.writeOnly.Some?
  {
    var r := JsonSerialize(m);
    GetDefined(r, "title");
    GetDefined(r, "description");
    GetDefined(r, "deprecated");
    GetDefined(r, "readOnly");
    GetDefined(r, "writeOnly");
  }

  /** Default metadata renders as the empty array. */
  lemma EmptyRendersNothing()
    ensures JsonSerialize(Empty()) == []
  {
    KeysAreMetadataKeys(Empty());
    KeyPresence(Empty());
  }
}
