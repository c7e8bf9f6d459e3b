/** The stand-alone generator that reflects on a class by name: its type-name
    table, the bounds it reads from `@var int<min, max>` doc tags, the rule that
    decides which properties are required, and the shape of its output.

    Reflection, the doc-comment lexer and parser, and the debug output are
    outside the model: a class arrives as its list of reflected properties, and
    the doc-comment parser is a parameter that either yields the comment's
    nodes or fails. */
module Generator {
  import opened Base
  import opened Json

  /** A reflected native type: a single named type (`int`, `?string`, `Foo`)
      or a union / intersection type. */
  datatype ReflectionType =
    | Named(name: string, allowsNull: bool)
    | Composite(allowsNull: bool)

  /** A constant expression in a doc type. */
  datatype ConstExpr = IntegerConst(value: int) | OtherConst

  /** A doc-comment type: a generic type `base<args>`, a constant, or anything else. */
  datatype TypeNode =
    | Generic(base: string, args: seq<TypeNode>)
    | Const(expr: ConstExpr)
    | OtherType

  /** A top-level node of a parsed doc comment: a `@var` tag with its type, or
      anything else (other tags, text). */
  datatype DocNode = VarTag(varType: TypeNode) | OtherNode

  /** A reflected property: its name, its native type if declared, and its doc comment. */
  datatype Property = Property(name: string, nativeType: Option<ReflectionType>, docComment: Option<string>)

  /** The doc-comment parser: the nodes, or `None` when it throws. */
  type DocParser = string -> Option<seq<DocNode>>

  // ---------------------------------------------------------------------
  // mapPhpTypeToJsonType

  /** The JSON type name for a native type: `int`, `float` and `bool` have their
      own names, and every other type, a missing type and a union type alike,
      is a string. */
  function JsonTypeName(t: Option<ReflectionType>): (r: string)
    ensures r == "integer" <==> t.Some? && t.value.Named? && t.value.name == "int"
    ensures r == "number" <==> t.Some? && t.value.Named? && t.value.name == "float"
    ensures r == "boolean" <==> t.Some? && t.value.Named? && t.value.name == "bool"
    ensures r == "string" <==> !(t.Some? && t.value.Named? && t.value.name in ["int", "float", "bool"])
  {
    if !(t.Some? && t.value.Named?) then "string"
    else match t.value.name
      case "int" => "integer"
      case "float" => "number"
      case "bool" => "boolean"
      case "string" => "string"
      case _ => "string"
  }

  /** `mapPhpTypeToJsonType`: the one-entry schema `{type: ...}`. */
  function TypeSchema(t: Option<ReflectionType>): Fields {
    [("type", JString(JsonTypeName(t)))]
  }

  // ---------------------------------------------------------------------
  // applyTypeToSchema

  /** The integer an argument contributes, if it is an integer constant. */
  function IntConst(n: TypeNode): Option<int> {
    if n.Const? && n.expr.IntegerConst? then Some(n.expr.value) else None
  }

  /** The last integer constant of a list of arguments, if any. */
  function LastInt(args: seq<TypeNode>): Option<int> {
    if args == [] then None
    else match LastInt(args[1..])
      case Some(v) => Some(v)
      case None => IntConst(args[0])
  }

  /** `$schema[$key] = (int) $value` when the argument is an integer constant:
      the key then holds the value, every other key is untouched, and the keys
      keep their positions, `key` being appended if it was new. */
  function AssignBound(schema: Fields, key: string, c: Option<int>): (r: Fields)
    ensures forall k :: Get(r, k) == if k == key && c.Some? then Some(JInt(c.value)) else Get(schema, k)
    ensures Keys(schema) <= Keys(r)
    ensures forall k :: k in Keys(r) ==> k in Keys(schema) || k == key
  {
    match c
    case None => schema
    case Some(v) =>
      AssignBoundFacts(schema, key, v);
      SetKey(schema, key, JInt(v))
  }

  lemma AssignBoundFacts(schema: Fields, key: string, v: int)
    ensures forall k :: Get(SetKey(schema, key, JInt(v)), k) == if k == key then Some(JInt(v)) else Get(schema, k)
    ensures Keys(schema) <= Keys(SetKey(schema, key, JInt(v)))
    ensures forall k :: k in Keys(SetKey(schema, key, JInt(v))) ==> k in Keys(schema) || k == key
  {
    forall k ensures Get(SetKey(schema, key, JInt(v)), k) == if k == key then Some(JInt(v)) else Get(schema, k) {
      SetKeyGet(schema, key, JInt(v), k);
    }
    SetKeyKeys(schema, key, JInt(v));
  }

  /** The key an argument at index `i` is assigned to. */
  function BoundKey(i: nat): string {
    if i == 0 then "minimum" else "maximum"
  }

  /** The `foreach ($typeNode->genericTypes as $idx => $gt)` loop from index `i`:
      an integer constant at index 0 is assigned to `minimum`, one at any later
      index to `maximum`, so the last of them wins. Other keys are untouched and
      keep their positions; a new bound key is appended. */
  function ApplyArgs(args: seq<TypeNode>, i: nat, schema: Fields): (r: Fields)
    requires i <= |args|
    ensures forall k :: k != "minimum" && k != "maximum" ==> Get(r, k) == Get(schema, k)
    ensures Get(r, "minimum") == if i == 0 && |args| > 0 && IntConst(args[0]).Some? then Some(JInt(IntConst(args[0]).value))
                                  else Get(schema, "minimum")
    ensures Get(r, "maximum") == match LastInt(args[if i == 0 && |args| > 0 then 1 else i..])
                                  case Some(v) => Some(JInt(v))
                                  case None => Get(schema, "maximum")
    ensures Keys(schema) <= Keys(r)
    ensures forall k :: k in Keys(r) ==> k in Keys(schema) || k == "minimum" || k == "maximum"
    decreases |args| - i
  {
    if i == |args| then schema
    else
      var next := AssignBound(schema, BoundKey(i), IntConst(args[i]));
      assert i > 0 ==> args[i..] == [args[i]] + args[i + 1..];
      assert i > 0 ==> args[i..][1..] == args[i + 1..];
      ApplyArgs(args, i + 1, next)
  }

  /** `applyTypeToSchema`: only a generic `int<...>` or `integer<...>` changes
      the schema. */
  function ApplyTypeToSchema(n: TypeNode, schema: Fields): (r: Fields)
    ensures !(n.Generic? && n.base in ["int", "integer"]) ==> r == schema
    ensures forall k :: k != "minimum" && k != "maximum" ==> Get(r, k) == Get(schema, k)
    ensures n.Generic? && n.base in ["int", "integer"] ==>
              && Get(r, "minimum") == (if |n.args| > 0 && IntConst(n.args[0]).Some? then Some(JInt(IntConst(n.args[0]).value))
                                       else Get(schema, "minimum"))
              && Get(r, "maximum") == (if |n.args| > 0 && LastInt(n.args[1..]).Some? then Some(JInt(LastInt(n.args[1..]).value))
                                       else Get(schema, "maximum"))
    ensures Keys(schema) <= Keys(r)
    ensures forall k :: k in Keys(r) ==> k in Keys(schema) || k == "minimum" || k == "maximum"
  {
    if n.Generic? && n.base in ["int", "integer"] then
      assert n.args == [] ==> n.args[0..] == [];
      ApplyArgs(n.args, 0, schema)
    else schema
  }

  /** The minimum a single node sets: the integer constant at index 0 of an
      `@var int<...>` or `@var integer<...>` tag. */
  function NodeMinimum(n: DocNode): Option<int> {
    if n.VarTag? && n.varType.Generic? && n.varType.base in ["int", "integer"] && |n.varType.args| > 0
    then IntConst(n.varType.args[0]) else None
  }

  /** The maximum a single node sets: the last integer constant after index 0
      of such a tag. */
  function NodeMaximum(n: DocNode): Option<int> {
    if n.VarTag? && n.varType.Generic? && n.varType.base in ["int", "integer"] && |n.varType.args| > 0
    then LastInt(n.varType.args[1..]) else None
  }

  /** The minimum of the last node of a comment that sets one. */
  function LastMinimum(nodes: seq<DocNode>): Option<int> {
    if nodes == [] then None
    else match LastMinimum(nodes[1..])
      case Some(v) => Some(v)
      case None => NodeMinimum(nodes[0])
  }

  /** The maximum of the last node of a comment that sets one. */
  function LastMaximum(nodes: seq<DocNode>): Option<int> {
    if nodes == [] then None
    else match LastMaximum(nodes[1..])
      case Some(v) => Some(v)
      case None => NodeMaximum(nodes[0])
  }

  /** The loop over the parsed comment's nodes: each `@var` tag is applied in
      order, so each bound comes from the last tag that sets it, and a bound no
      tag sets keeps its value; no other key changes. */
  function ApplyTags(nodes: seq<DocNode>, schema: Fields): (r: Fields)
    ensures forall k :: k != "minimum" && k != "maximum" ==> Get(r, k) == Get(schema, k)
    ensures Get(r, "minimum") == match LastMinimum(nodes)
                                  case Some(v) => Some(JInt(v))
                                  case None => Get(schema, "minimum")
    ensures Get(r, "maximum") == match LastMaximum(nodes)
                                  case Some(v) => Some(JInt(v))
                                  case None => Get(schema, "maximum")
    ensures Keys(schema) <= Keys(r)
    ensures forall k :: k in Keys(r) ==> k in Keys(schema) || k == "minimum" || k == "maximum"
  {
    if nodes == [] then schema
    else
      var next := if nodes[0].VarTag? then ApplyTypeToSchema(nodes[0].varType, schema) else schema;
      ApplyTags(nodes[1..], next)
  }

  /** Tags are applied one after the other: the tags of two comments in a row
      act as the first comment's tags followed by the second's. */
  lemma {:induction false} ApplyTagsAppend(a: seq<DocNode>, b: seq<DocNode>, schema: Fields)
    ensures ApplyTags(a + b, schema) == ApplyTags(b, ApplyTags(a, schema))
    decreases |a|
  {
    if a == [] {
      assert a + b == b;
    } else {
      var next := if a[0].VarTag? then ApplyTypeToSchema(a[0].varType, schema) else schema;
      assert (a + b)[0] == a[0];
      assert (a + b)[1..] == a[1..] + b;
      ApplyTagsAppend(a[1..], b, next);
    }
  }

  /** `mapPropertyToSchema`: the type schema, refined by the `@var` tags of a
      non-empty doc comment; a comment the parser rejects changes nothing. The
      `type` entry always comes from the native type, and each bound from the
      last tag that sets it. */
  function MapPropertyToSchema(p: Property, parse: DocParser): (r: Fields)
    ensures Get(r, "type") == Some(JString(JsonTypeName(p.nativeType)))
    ensures ["type"] <= Keys(r)
    ensures forall k :: k in Keys(r) ==> k in ["type", "minimum", "maximum"]
    ensures p.docComment.None? || p.docComment == Some("") || parse(p.docComment.value).None? ==>
              r == TypeSchema(p.nativeType)
    ensures p.docComment.Some? && p.docComment.value != "" && parse(p.docComment.value).Some? ==>
              && r == ApplyTags(parse(p.docComment.value).value, TypeSchema(p.nativeType))
              && Get(r, "minimum") == IntValue(LastMinimum(parse(p.docComment.value).value))
              && Get(r, "maximum") == IntValue(LastMaximum(parse(p.docComment.value).value))
  {
    var base := TypeSchema(p.nativeType);
    var r :=
      if p.docComment.None? || p.docComment.value == "" then base
      else match parse(p.docComment.value)
        case None => base
        case Some(nodes) => ApplyTags(nodes, base);
    assert Keys(base) == ["type"];
    assert Get(base, "minimum") == None && Get(base, "maximum") == None;
    r
  }

  /** `@var int<1, 10>` on an `int` property gives minimum 1 and maximum 10;
      `@var int<min, 10>` sets only the maximum. */
  lemma RangeTagApplied(parse: DocParser, doc: string, open: string)
    requires doc != "" && open != ""
    requires parse(doc) == Some([VarTag(Generic("int", [Const(IntegerConst(1)), Const(IntegerConst(10))]))])
    requires parse(open) == Some([VarTag(Generic("int", [OtherType, Const(IntegerConst(10))]))])
    ensures var r := MapPropertyToSchema(Property("age", Some(Named("int", false)), Some(doc)), parse);
      && Get(r, "type") == Some(JString("integer"))
      && Get(r, "minimum") == Some(JInt(1))
      && Get(r, "maximum") == Some(JInt(10))
    ensures var r := MapPropertyToSchema(Property("age", Some(Named("int", false)), Some(open)), parse);
      && Get(r, "minimum") == None
      && Get(r, "maximum") == Some(JInt(10))
  {
    var base := TypeSchema(Some(Named("int", false)));
    var args := [Const(IntegerConst(1)), Const(IntegerConst(10))];
    assert args[1..] == [Const(IntegerConst(10))];
    assert LastInt(args[1..]) == Some(10);
    var n := VarTag(Generic("int", args));
    assert ApplyTags([n], base) == ApplyTags([], ApplyTypeToSchema(n.varType, base));
    var openArgs := [OtherType, Const(IntegerConst(10))];
    assert openArgs[1..] == [Const(IntegerConst(10))];
    assert LastInt(openArgs[1..]) == Some(10);
    var o := VarTag(Generic("int", openArgs));
    assert ApplyTags([o], base) == ApplyTags([], ApplyTypeToSchema(o.varType, base));
  }

  // ---------------------------------------------------------------------
  // generate

  /** A property is required when it declares a native type that does not allow `null`. */
  predicate IsRequired(p: Property) {
    p.nativeType.Some? && !p.nativeType.value.allowsNull
  }

  function PropertyNames(props: seq<Property>): seq<string> {
    seq(|props|, i requires 0 <= i < |props| => props[i].name)
  }

  /** The names of the required properties, in declaration order. */
  function RequiredNames(props: seq<Property>): seq<string> {
    if props == [] then []
    else (if IsRequired(props[0]) then [props[0].name] else []) + RequiredNames(props[1..])
  }

  /** The `properties` array: every property, in declaration order, under its own name. */
  function PropertySchemas(props: seq<Property>, parse: DocParser): (r: Fields)
    ensures Keys(r) == PropertyNames(props)
    ensures forall i :: 0 <= i < |props| ==> r[i].1 == JObject(MapPropertyToSchema(props[i], parse))
  {
    seq(|props|, i requires 0 <= i < |props| => (props[i].name, JObject(MapPropertyToSchema(props[i], parse))))
  }

  /** `generate`: always the same four keys in the same order; `required` is
      written even when empty, and `additionalProperties` is always `false`. */
  function Generate(props: seq<Property>, parse: DocParser): (r: Fields)
    ensures Keys(r) == ["type", "properties", "required", "additionalProperties"]
    ensures Get(r, "type") == Some(JString("object"))
    ensures Get(r, "properties") == Some(JObject(PropertySchemas(props, parse)))
    ensures Get(r, "required") == Some(StringList(RequiredNames(props)))
    ensures Get(r, "additionalProperties") == Some(JBool(false))
  {
    var r := [ ("type", JString("object")),
               ("properties", JObject(PropertySchemas(props, parse))),
               ("required", StringList(RequiredNames(props))),
               ("additionalProperties", JBool(false)) ];
    assert Keys(r) == ["type", "properties", "required", "additionalProperties"];
    GetAt(r, 0);
    GetAt(r, 1);
    GetAt(r, 2);
    GetAt(r, 3);
    r
  }

  /** `required` holds exactly the names of the properties with a declared,
      non-nullable type, and keeps their declaration order. */
  lemma {:induction false} RequiredExactly(props: seq<Property>)
    ensures forall i :: 0 <= i < |props| && IsRequired(props[i]) ==> props[i].name in RequiredNames(props)
    ensures forall x :: x in RequiredNames(props) ==> exists i :: 0 <= i < |props| && IsRequired(props[i]) && props[i].name == x
    ensures IsSubsequence(RequiredNames(props), PropertyNames(props))
  {
    if props != [] {
      RequiredExactly(props[1..]);
      var head := if IsRequired(props[0]) then [props[0].name] else [];
      var rest := RequiredNames(props[1..]);
      assert RequiredNames(props) == head + rest;
      forall i | 0 <= i < |props| && IsRequired(props[i]) ensures props[i].name in RequiredNames(props) {
        if i > 0 {
          assert props[i] == props[1..][i - 1];
        }
      }
      forall x | x in RequiredNames(props)
        ensures exists i :: 0 <= i < |props| && IsRequired(props[i]) && props[i].name == x
      {
        if x in rest {
          var i :| 0 <= i < |props[1..]| && IsRequired(props[1..][i]) && props[1..][i].name == x;
          assert props[i + 1] == props[1..][i];
        } else {
          assert IsRequired(props[0]) && props[0].name == x;
        }
      }
      assert PropertyNames(props) == [props[0].name] + PropertyNames(props[1..]);
      if IsRequired(props[0]) {
        assert RequiredNames(props) == [props[0].name] + rest;
        SubsequenceCons(props[0].name, rest, PropertyNames(props[1..]));
      } else {
        assert RequiredNames(props) == rest;
        SubsequenceSkip(props[0].name, rest, PropertyNames(props[1..]));
      }
    }
  }
}
