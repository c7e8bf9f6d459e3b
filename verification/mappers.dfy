/** Turning a static type into a schema: the integer type mapper and the
    registry that asks its mappers in order.

    A static type is reduced to what the mappers look at: whether it is an
    integer range (with its bounds, unbounded ends being `null`), whether the
    type analyser answers "yes" to "is this an integer?", and the type's
    description at "type only" verbosity, which is what error messages show. */
module TypeMappers {
  import opened Base
  import opened Json
  import opened Exceptions
  import SchemaMetadata
  import Schemas

  type Schema = Schemas.Schema

  datatype PhpType =
      /** `int<min, max>`; `None` stands for an open end (`min` / `max`). */
    | IntegerRange(min: Option<int>, max: Option<int>, description: string)
      /** Any other type that is certainly an integer (`int`, an integer constant). */
    | IntegerLike(description: string)
      /** Everything else, including types that are only maybe integers. */
    | Other(description: string)

  /** `$type->isInteger()->yes()`. */
  predicate IsInteger(t: PhpType) {
    t.IntegerRange? || t.IntegerLike?
  }

  /** The type analyser never builds an empty range: its bounds are ordered. */
  predicate WellFormed(t: PhpType) {
    t.IntegerRange? && t.min.Some? && t.max.Some? ==> t.min.value <= t.max.value
  }

  /** A type mapper: a schema, `null` when it does not handle the type, or a
      thrown exception. */
  type Mapper = PhpType -> Result<Option<Schema>, Exception>

  /** The mapper does not handle the type. */
  predicate Declines(m: Mapper, t: PhpType) {
    m(t) == Success(None)
  }

  // ---------------------------------------------------------------------
  // IntegerTypeMapper

  /** An integer range becomes an integer node with exactly the range's bounds;
      another integer type becomes an unconstrained integer node; anything else
      is declined. Nothing else is set: metadata is empty, and there is no
      default and no enum. The constructor's checks are not caught, so a range
      with disordered bounds would throw, but the type analyser never builds one. */
  function MapInteger(t: PhpType): (r: Result<Option<Schema>, Exception>)
    ensures r == Success(None) <==> !IsInteger(t)
    ensures t.IntegerRange? && WellFormed(t) ==>
              r == Success(Some(Schemas.Integer(SchemaMetadata.Empty(), t.min, t.max, None, None)))
    ensures t.IntegerLike? ==> r == Success(Some(Schemas.Integer(SchemaMetadata.Empty(), None, None, None, None)))
    ensures r.Failure? <==> !WellFormed(t)
    ensures r.Failure? ==> r.error.Constraint? && r.error.violation.constraint == "minimum"
  {
    if t.IntegerRange? then
      match Schemas.NewInteger(SchemaMetadata.Empty(), minimum := t.min, maximum := t.max)
      case Success(s) => Success(Some(s))
      case Failure(e) => Failure(Constraint(e))
    else if IsInteger(t) then
      match Schemas.NewInteger(SchemaMetadata.Empty())
      case Success(s) => Success(Some(s))
      case Failure(e) => Failure(Constraint(e))
    else Success(None)
  }

  /** The integer mapper of the older namespace: the same three cases in the
      same order. */
  function MapIntegerLegacy(t: PhpType): (r: Result<Option<Schema>, Exception>)
    ensures r == Success(None) <==> !IsInteger(t)
    ensures t.IntegerRange? && WellFormed(t) ==>
              r == Success(Some(Schemas.Integer(SchemaMetadata.Empty(), t.min, t.max, None, None)))
    ensures t.IntegerLike? ==> r == Success(Some(Schemas.Integer(SchemaMetadata.Empty(), None, None, None, None)))
  {
    if t.IntegerRange? then
      match Schemas.NewInteger(SchemaMetadata.Empty(), minimum := t.min, maximum := t.max)
      case Success(s) => Success(Some(s))
      case Failure(e) => Failure(Constraint(e))
    else if t.IntegerLike? then
      match Schemas.NewInteger(SchemaMetadata.Empty())
      case Success(s) => Success(Some(s))
      case Failure(e) => Failure(Constraint(e))
    else Success(None)
  }

  /** Both integer mappers answer alike on every type. */
  lemma LegacyMapperAgrees(t: PhpType)
    ensures MapIntegerLegacy(t) == MapInteger(t)
  {
  }

  /** A mapped integer type always renders with `type: "integer"`, and its
      bounds render as `minimum` / `maximum` exactly when the range has them. */
  lemma MappedIntegerRendering(t: PhpType)
    requires IsInteger(t) && WellFormed(t)
    ensures MapInteger(t).Success? && MapInteger(t).value.Some?
    ensures var r := Schemas.Render(MapInteger(t).value.value);
      && Get(r, "type") == Some(JString("integer"))
      && Get(r, "minimum") == (if t.IntegerRange? then IntValue(t.min) else None)
      && Get(r, "maximum") == (if t.IntegerRange? then IntValue(t.max) else None)
      && Get(r, "default") == None && Get(r, "enum") == None
  {
    if t.IntegerRange? {
      Schemas.IntegerRendering(SchemaMetadata.Empty(), t.min, t.max, None, None);
    } else {
      Schemas.IntegerRendering(SchemaMetadata.Empty(), None, None, None, None);
    }
  }

  /** `int<1, 10>` maps to an integer node with minimum 1 and maximum 10, and a
      string type is declined. */
  lemma MapIntegerExamples()
    ensures MapInteger(IntegerRange(Some(1), Some(10), "int<1, 10>"))
            == Success(Some(Schemas.Integer(SchemaMetadata.Empty(), Some(1), Some(10), None, None)))
    ensures MapInteger(IntegerLike("int")).Success?
    ensures MapInteger(Other("string")) == Success(None)
  {
  }

  // ---------------------------------------------------------------------
  // TypeMapperRegistry

  /** `i` is the first mapper that does not decline the type. */
  predicate FirstDecisive(mappers: seq<Mapper>, t: PhpType, i: int) {
    && 0 <= i < |mappers|
    && !Declines(mappers[i], t)
    && forall j :: 0 <= j < i ==> Declines(mappers[j], t)
  }

  /** `TypeMapperRegistry::map`: the mappers are asked in order and the first
      schema any of them returns is the result; an exception from a mapper is
      not caught; when every mapper declines, the registry throws
      `UnsupportedTypeException` naming the type. */
  function Registry(mappers: seq<Mapper>, t: PhpType): (r: Result<Schema, Exception>)
    ensures (forall i :: 0 <= i < |mappers| ==> Declines(mappers[i], t)) ==>
              r == Failure(Unsupported(NewUnsupportedType(t.description)))
    ensures forall i :: FirstDecisive(mappers, t, i) ==>
              (mappers[i](t).Success? ==> r == Success(mappers[i](t).value.value))
              && (mappers[i](t).Failure? ==> r == Failure(mappers[i](t).error))
    decreases |mappers|
  {
    if mappers == [] then Failure(Unsupported(NewUnsupportedType(t.description)))
    else
      var r := Registry(mappers[1..], t);
      assert forall i :: 1 <= i < |mappers| ==> mappers[i] == mappers[1..][i - 1];
      assert forall i :: FirstDecisive(mappers, t, i) && i > 0 ==> FirstDecisive(mappers[1..], t, i - 1);
      match mappers[0](t)
      case Failure(e) => Failure(e)
      case Success(Some(s)) => Success(s)
      case Success(None) => r
  }

  /** The registry used where a `TypeMapper` is expected: it never answers
      `null`, it either returns a schema or throws. */
  function RegistryMapper(mappers: seq<Mapper>, t: PhpType): (r: Result<Option<Schema>, Exception>)
    ensures r != Success(None)
    ensures r.Success? <==> Registry(mappers, t).Success?
    ensures r.Success? ==> r.value == Some(Registry(mappers, t).value)
    ensures r.Failure? ==> r.error == Registry(mappers, t).error
  {
    match Registry(mappers, t)
    case Success(s) => Success(Some(s))
    case Failure(e) => Failure(e)
  }

  /** Either every mapper declines or exactly one mapper is the first decisive one. */
  lemma {:induction false} DecisiveOrUnsupported(mappers: seq<Mapper>, t: PhpType)
    ensures (forall i :: 0 <= i < |mappers| ==> Declines(mappers[i], t))
            || (exists i :: FirstDecisive(mappers, t, i))
    ensures forall i, j :: FirstDecisive(mappers, t, i) && FirstDecisive(mappers, t, j) ==> i == j
    decreases |mappers|
  {
    if mappers != [] && Declines(mappers[0], t) {
      DecisiveOrUnsupported(mappers[1..], t);
      if exists i :: FirstDecisive(mappers[1..], t, i) {
        var i :| FirstDecisive(mappers[1..], t, i);
        assert FirstDecisive(mappers, t, i + 1);
      } else {
        forall i | 0 <= i < |mappers| ensures Declines(mappers[i], t) {
          if i > 0 {
            assert mappers[i] == mappers[1..][i - 1];
          }
        }
      }
    } else if mappers != [] {
      assert FirstDecisive(mappers, t, 0);
    }
  }

  /** A successful result is a schema one of the mappers returned. */
  lemma RegistryResultFromMapper(mappers: seq<Mapper>, t: PhpType)
    requires Registry(mappers, t).Success?
    ensures exists i :: 0 <= i < |mappers| && mappers[i](t) == Success(Some(Registry(mappers, t).value))
  {
    DecisiveOrUnsupported(mappers, t);
    if !(forall i :: 0 <= i < |mappers| ==> Declines(mappers[i], t)) {
      var i :| FirstDecisive(mappers, t, i);
      var answer := mappers[i](t);
      assert answer.Success? && answer.value.Some?;
      assert Registry(mappers, t) == Success(answer.value.value);
    }
  }

  /** Mappers after the first decisive one are never consulted: appending more
      mappers changes nothing once one of the list handles the type. */
  lemma {:induction false} LaterMappersIgnored(mappers: seq<Mapper>, more: seq<Mapper>, t: PhpType, i: int)
    requires FirstDecisive(mappers, t, i)
    ensures Registry(mappers + more, t) == Registry(mappers, t)
    decreases |mappers|
  {
    assert (mappers + more)[0] == mappers[0];
    if i > 0 {
      assert (mappers + more)[1..] == mappers[1..] + more;
      assert FirstDecisive(mappers[1..], t, i - 1) by {
        forall j | 0 <= j < i - 1 ensures Declines(mappers[1..][j], t) {
          assert mappers[1..][j] == mappers[j + 1];
        }
      }
      LaterMappersIgnored(mappers[1..], more, t, i - 1);
    }
  }

  /** With only the integer mapper, `int<1, 10>` gets its integer node. */
  lemma IntegerOnlyRegistryMapsRange()
    ensures Registry([MapInteger], IntegerRange(Some(1), Some(10), "int<1, 10>"))
            == Success(Schemas.Integer(SchemaMetadata.Empty(), Some(1), Some(10), None, None))
  {
    var t := IntegerRange(Some(1), Some(10), "int<1, 10>");
    assert MapInteger(t) == Success(Some(Schemas.Integer(SchemaMetadata.Empty(), Some(1), Some(10), None, None)));
    assert FirstDecisive([MapInteger], t, 0);
  }

  /** With only the integer mapper, a string type is reported as unsupported,
      the message naming it. */
  lemma IntegerOnlyRegistryRejectsString()
    ensures Registry([MapInteger], Other("string")) == Failure(Unsupported(NewUnsupportedType("string")))
  {
    var t := Other("string");
    assert MapInteger(t) == Success(None);
    assert Declines([MapInteger][0], t);
  }

  /** The message for the string type, spelled out. */
  lemma StringUnsupportedMessage()
    ensures NewUnsupportedType("string").message == "Type \"string\" is not supported yet."
  {
    var lit := "Type \"string\" is not supported yet.";
    var head := UnsupportedPrefix + "string";
    assert |head| == 12;
    assert head == "Type \"string";
    assert |lit| == 35;
    assert lit == "Type \"string" + "\" is not supported yet.";
  }
}
