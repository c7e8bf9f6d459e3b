/** The three class schema builders. Each walks the properties of a class in
    native declaration order, skips the names the static reflection does not
    know, maps each remaining property's readable type to a schema, and
    assembles an object node whose `required` list names every mapped property.

    They differ in three ways: only `Mapper\ClassSchemaBuilder` rejects
    anonymous classes and skips non-public properties; `Builder\ClassSchemaBuilder`
    and `Types\ObjectTypeMapper` catch `UnsupportedTypeException` and skip the
    property, while `Mapper\ClassSchemaBuilder` lets it escape. */
module ClassBuilders {
  import opened Base
  import opened Json
  import opened Exceptions
  import SchemaMetadata
  import Schemas
  import opened TypeMappers

  datatype Visibility = Public | Protected | Private

  /** One property as native reflection lists it: its name, whether the static
      reflection knows it (`hasProperty`), its visibility, whether it is declared
      with a default value, and its readable type. No builder reads `hasDefault`. */
  datatype Member = Member(name: string, known: bool, visibility: Visibility, hasDefault: bool, readableType: PhpType)

  /** A reflected class: whether it is anonymous, and its properties in declaration order. */
  datatype ClassInfo = ClassInfo(anonymous: bool, members: seq<Member>)

  /** What distinguishes the builders' loops: whether non-public properties
      are skipped, and whether `UnsupportedTypeException` is caught. */
  datatype Policy = Policy(publicOnly: bool, catchUnsupported: bool)

  const AnonymousMessage: string := "Anonymous classes are not supported for schema generation."

  function Names(members: seq<Member>): seq<string> {
    seq(|members|, i requires 0 <= i < |members| => members[i].name)
  }

  /** The loop reaches the mapping step for this property. */
  predicate Eligible(p: Policy, m: Member) {
    m.known && (!p.publicOnly || m.visibility == Public)
  }

  /** The exception leaves the loop instead of being caught. */
  predicate Escapes(p: Policy, e: Exception) {
    !(p.catchUnsupported && e.Unsupported?)
  }

  /** Mapping this property throws an exception that leaves the loop. */
  predicate EscapingFailure(p: Policy, mapper: Mapper, m: Member) {
    Eligible(p, m) && mapper(m.readableType).Failure? && Escapes(p, mapper(m.readableType).error)
  }

  /** The property ends up in the schema. */
  predicate Included(p: Policy, mapper: Mapper, m: Member) {
    Eligible(p, m) && mapper(m.readableType).Success? && mapper(m.readableType).value.Some?
  }

  /** `i` is the first property whose mapping throws an escaping exception. */
  predicate FirstEscaping(p: Policy, mapper: Mapper, members: seq<Member>, i: int) {
    && 0 <= i < |members|
    && EscapingFailure(p, mapper, members[i])
    && forall j :: 0 <= j < i ==> !EscapingFailure(p, mapper, members[j])
  }

  /** The `foreach` over the native properties: the `properties` array built so
      far (the `required` list is its key list). The first escaping exception,
      in declaration order, aborts the build. */
  function Collect(p: Policy, mapper: Mapper, members: seq<Member>): (r: Result<seq<(string, Schemas.Schema)>, Exception>)
    ensures r.Success? <==> forall i :: 0 <= i < |members| ==> !EscapingFailure(p, mapper, members[i])
    ensures r.Failure? ==> exists i :: FirstEscaping(p, mapper, members, i) && r.error == mapper(members[i].readableType).error
    decreases |members|
  {
    if members == [] then Success([])
    else
      var m := members[0];
      var rest := Collect(p, mapper, members[1..]);
      assert forall i :: 1 <= i < |members| ==> members[i] == members[1..][i - 1];
      assert forall i :: FirstEscaping(p, mapper, members[1..], i) && !EscapingFailure(p, mapper, m) ==>
                           FirstEscaping(p, mapper, members, i + 1);
      if !Eligible(p, m) then rest
      else match mapper(m.readableType)
        case Failure(e) =>
          if Escapes(p, e) then
            assert FirstEscaping(p, mapper, members, 0);
            Failure(e)
          else rest
        case Success(None) => rest
        case Success(Some(s)) =>
          var tail :- rest;
          Success([(m.name, s)] + tail)
  }

  /** The node every builder returns: empty metadata, the collected properties,
      their names as the `required` list, and `additionalProperties` false. */
  function Assemble(properties: seq<(string, Schemas.Schema)>): (s: Schemas.Schema)
    ensures s.Object? && s.metadata == SchemaMetadata.Empty() && !s.additionalProperties
    ensures s.properties == properties && s.required == Keys(properties)
  {
    Schemas.NewObject(SchemaMetadata.Empty(), properties, Keys(properties))
  }

  const PublicOnly: Policy := Policy(publicOnly := true, catchUnsupported := false)
  const CatchUnsupported: Policy := Policy(publicOnly := false, catchUnsupported := true)

  /** `Mapper\ClassSchemaBuilder::build`: anonymous classes are rejected before
      any property is looked at; only public properties are mapped; a `null`
      mapping skips the property; exceptions escape. */
  function BuildPublic(c: ClassInfo, mapper: Mapper): (r: Result<Schemas.Schema, Exception>)
    ensures c.anonymous ==> r == Failure(InvalidArgument(AnonymousMessage))
    ensures !c.anonymous ==> (r.Success? <==> Collect(PublicOnly, mapper, c.members).Success?)
    ensures r.Success? ==> r.value == Assemble(Collect(PublicOnly, mapper, c.members).value)
    ensures !c.anonymous && r.Failure? ==> r.error == Collect(PublicOnly, mapper, c.members).error
  {
    if c.anonymous then Failure(InvalidArgument(AnonymousMessage))
    else
      var properties :- Collect(PublicOnly, mapper, c.members);
      Success(Assemble(properties))
  }

  /** `Builder\ClassSchemaBuilder::build`: every known property is mapped
      through the registry, whatever its visibility; an unsupported type skips
      the property. Anonymous classes are not rejected. */
  function BuildWithRegistry(c: ClassInfo, mappers: seq<Mapper>): (r: Result<Schemas.Schema, Exception>)
    ensures r.Success? <==> Collect(CatchUnsupported, t => RegistryMapper(mappers, t), c.members).Success?
    ensures r.Success? ==> r.value == Assemble(Collect(CatchUnsupported, t => RegistryMapper(mappers, t), c.members).value)
    ensures r.Failure? ==> r.error == Collect(CatchUnsupported, t => RegistryMapper(mappers, t), c.members).error
  {
    var properties :- Collect(CatchUnsupported, t => RegistryMapper(mappers, t), c.members);
    Success(Assemble(properties))
  }

  /** `Types\ObjectTypeMapper::build`: every known property is mapped, whatever
      its visibility; a `null` mapping or an unsupported type skips the property. */
  function BuildObjectType(c: ClassInfo, mapper: Mapper): (r: Result<Schemas.Schema, Exception>)
    ensures r.Success? <==> Collect(CatchUnsupported, mapper, c.members).Success?
    ensures r.Success? ==> r.value == Assemble(Collect(CatchUnsupported, mapper, c.members).value)
    ensures r.Failure? ==> r.error == Collect(CatchUnsupported, mapper, c.members).error
  {
    var properties :- Collect(CatchUnsupported, mapper, c.members);
    Success(Assemble(properties))
  }

  // ---------------------------------------------------------------------
  // What the collected properties are

  /** The entry the loop adds for an included property. */
  predicate EntryOf(p: Policy, mapper: Mapper, members: seq<Member>, i: int, e: (string, Schemas.Schema)) {
    0 <= i < |members| && Included(p, mapper, members[i])
    && e == (members[i].name, mapper(members[i].readableType).value.value)
  }

  /** Soundness: each collected entry is an included property under its own
      name, with the schema its mapping returned. */
  lemma {:induction false} CollectSound(p: Policy, mapper: Mapper, members: seq<Member>, j: int)
    requires Collect(p, mapper, members).Success? && 0 <= j < |Collect(p, mapper, members).value|
    ensures exists i :: EntryOf(p, mapper, members, i, Collect(p, mapper, members).value[j])
    decreases |members|
  {
    var r := Collect(p, mapper, members).value;
    if members == [] {
      assert false;
    } else {
      var m := members[0];
      var rest := members[1..];
      assert members == [m] + rest;
      assert !EscapingFailure(p, mapper, m);
      assert forall i :: 0 <= i < |rest| ==> rest[i] == members[i + 1];
      assert Collect(p, mapper, rest).Success?;
      var tail := Collect(p, mapper, rest).value;
      if Included(p, mapper, m) {
        CollectIncluded(p, mapper, m, rest);
        assert r == [(m.name, mapper(m.readableType).value.value)] + tail;
        if j == 0 {
          assert EntryOf(p, mapper, members, 0, r[j]);
        } else {
          assert r[j] == tail[j - 1];
          CollectSound(p, mapper, rest, j - 1);
          var i :| EntryOf(p, mapper, rest, i, tail[j - 1]);
          assert EntryOf(p, mapper, members, i + 1, r[j]);
        }
      } else {
        CollectSkipped(p, mapper, m, rest);
        assert r == tail;
        CollectSound(p, mapper, rest, j);
        var i :| EntryOf(p, mapper, rest, i, tail[j]);
        assert EntryOf(p, mapper, members, i + 1, r[j]);
      }
    }
  }

  /** Completeness: every included property is collected under its own name,
      with the schema its mapping returned. */
  lemma {:induction false} CollectComplete(p: Policy, mapper: Mapper, members: seq<Member>)
    requires Collect(p, mapper, members).Success?
    ensures forall i :: 0 <= i < |members| && Included(p, mapper, members[i]) ==>
              (members[i].name, mapper(members[i].readableType).value.value) in Collect(p, mapper, members).value
    decreases |members|
  {
    if members != [] {
      var m := members[0];
      var r := Collect(p, mapper, members).value;
      CollectComplete(p, mapper, members[1..]);
      var tail := Collect(p, mapper, members[1..]).value;
      assert forall x :: x in tail ==> x in r;
      forall i | 0 <= i < |members| && Included(p, mapper, members[i])
        ensures (members[i].name, mapper(members[i].readableType).value.value) in r
      {
        if i > 0 {
          assert members[i] == members[1..][i - 1];
        }
      }
    }
  }

  /** The collected names keep declaration order and come from the class. */
  lemma {:induction false} CollectOrder(p: Policy, mapper: Mapper, members: seq<Member>)
    requires Collect(p, mapper, members).Success?
    ensures IsSubsequence(Keys(Collect(p, mapper, members).value), Names(members))
    decreases |members|
  {
    if members != [] {
      var m := members[0];
      var r := Collect(p, mapper, members).value;
      var tail := Collect(p, mapper, members[1..]).value;
      CollectOrder(p, mapper, members[1..]);
      assert Names(members) == [m.name] + Names(members[1..]);
      if Included(p, mapper, m) {
        assert Keys(r) == [m.name] + Keys(tail);
        SubsequenceCons(m.name, Keys(tail), Names(members[1..]));
      } else {
        SubsequenceSkip(m.name, Keys(tail), Names(members[1..]));
      }
    }
  }

  /** The `properties` keys are unique because a class cannot declare two
      properties with the same name. */
  lemma CollectDistinct(p: Policy, mapper: Mapper, members: seq<Member>)
    requires Distinct(Names(members))
    requires Collect(p, mapper, members).Success?
    ensures DistinctKeys(Collect(p, mapper, members).value)
  {
    CollectOrder(p, mapper, members);
    SubsequenceDistinct(Keys(Collect(p, mapper, members).value), Names(members));
  }

  /** No non-public property ever reaches the output of the public-only builder. */
  lemma PublicOnlyExcludesHidden(c: ClassInfo, mapper: Mapper)
    requires Distinct(Names(c.members))
    requires BuildPublic(c, mapper).Success?
    ensures forall i :: 0 <= i < |c.members| && c.members[i].visibility != Public ==>
              c.members[i].name !in Keys(BuildPublic(c, mapper).value.properties)
              && c.members[i].name !in BuildPublic(c, mapper).value.required
  {
    var props := Collect(PublicOnly, mapper, c.members).value;
    forall i | 0 <= i < |c.members| && c.members[i].visibility != Public
      ensures c.members[i].name !in Keys(props)
    {
      forall j | 0 <= j < |props| ensures Keys(props)[j] != c.members[i].name {
        CollectSound(PublicOnly, mapper, c.members, j);
        var k :| EntryOf(PublicOnly, mapper, c.members, k, props[j]);
        assert k != i;
        assert Names(c.members)[k] != Names(c.members)[i];
      }
    }
  }

  /** With the same mapping and no escaping exception, the builders that do not
      filter by visibility keep a superset of what the public-only builder keeps. */
  lemma PublicOnlyIsSubset(c: ClassInfo, mapper: Mapper)
    requires !c.anonymous
    requires BuildPublic(c, mapper).Success? && BuildObjectType(c, mapper).Success?
    ensures forall x :: x in BuildPublic(c, mapper).value.properties ==> x in BuildObjectType(c, mapper).value.properties
  {
    var pub := Collect(PublicOnly, mapper, c.members).value;
    CollectComplete(CatchUnsupported, mapper, c.members);
    forall x | x in pub ensures x in Collect(CatchUnsupported, mapper, c.members).value {
      var j :| 0 <= j < |pub| && pub[j] == x;
      CollectSound(PublicOnly, mapper, c.members, j);
      var i :| EntryOf(PublicOnly, mapper, c.members, i, pub[j]);
      assert Included(CatchUnsupported, mapper, c.members[i]);
    }
  }

  /** One step of the loop over an included property. */
  lemma CollectIncluded(p: Policy, mapper: Mapper, m: Member, rest: seq<Member>)
    requires Included(p, mapper, m) && Collect(p, mapper, rest).Success?
    ensures Collect(p, mapper, [m] + rest)
            == Success([(m.name, mapper(m.readableType).value.value)] + Collect(p, mapper, rest).value)
  {
    assert ([m] + rest)[1..] == rest;
  }

  /** One step of the loop over a skipped property. */
  lemma CollectSkipped(p: Policy, mapper: Mapper, m: Member, rest: seq<Member>)
    requires !Included(p, mapper, m) && !EscapingFailure(p, mapper, m)
    ensures Collect(p, mapper, [m] + rest) == Collect(p, mapper, rest)
  {
    assert ([m] + rest)[1..] == rest;
  }

  // ---------------------------------------------------------------------
  // Fixture classes

  /** A class with one public `int<1, 10>` property `rating`. */
  const RangeDto: ClassInfo := ClassInfo(false, [Member("rating", true, Public, false, IntegerRange(Some(1), Some(10), "int<1, 10>"))])

  /** A class with one integer property of each visibility. */
  const VisibilityDto: ClassInfo := ClassInfo(false, [
    Member("publicProperty", true, Public, false, IntegerLike("int")),
    Member("protectedProperty", true, Protected, false, IntegerLike("int")),
    Member("privateProperty", true, Private, false, IntegerLike("int"))])

  /** A class whose second property has a default value. */
  const DefaultValueDto: ClassInfo := ClassInfo(false, [
    Member("requiredInfo", true, Public, false, IntegerLike("int")),
    Member("optionalInfo", true, Public, true, IntegerLike("int"))])

  /** A mapper that answers every type with an unconstrained integer node. */
  function AlwaysInteger(t: PhpType): Result<Option<Schemas.Schema>, Exception> {
    Success(Some(Schemas.Integer(SchemaMetadata.Empty(), None, None, None, None)))
  }

  /** `rating` is both a property and a required name. */
  lemma RangeDtoBuilt()
    ensures BuildPublic(RangeDto, AlwaysInteger).Success?
    ensures "rating" in Keys(BuildPublic(RangeDto, AlwaysInteger).value.properties)
    ensures "rating" in BuildPublic(RangeDto, AlwaysInteger).value.required
  {
    var props := Collect(PublicOnly, AlwaysInteger, RangeDto.members).value;
    assert Included(PublicOnly, AlwaysInteger, RangeDto.members[0]);
    CollectComplete(PublicOnly, AlwaysInteger, RangeDto.members);
    var x := ("rating", Schemas.Integer(SchemaMetadata.Empty(), None, None, None, None));
    assert x in props;
    var j :| 0 <= j < |props| && props[j] == x;
    assert Keys(props)[j] == "rating";
  }

  /** Only the public property survives the public-only builder. */
  lemma VisibilityDtoPublicBuilt()
    ensures BuildPublic(VisibilityDto, MapInteger).Success?
    ensures BuildPublic(VisibilityDto, MapInteger).value.required == ["publicProperty"]
  {
    var ms := VisibilityDto.members;
    var s := Schemas.Integer(SchemaMetadata.Empty(), None, None, None, None);
    assert MapInteger(IntegerLike("int")) == Success(Some(s));
    assert ms == [ms[0]] + ([ms[1]] + ([ms[2]] + []));
    CollectSkipped(PublicOnly, MapInteger, ms[2], []);
    CollectSkipped(PublicOnly, MapInteger, ms[1], [ms[2]] + []);
    CollectIncluded(PublicOnly, MapInteger, ms[0], [ms[1]] + ([ms[2]] + []));
  }

  /** The visibility-blind builder keeps all three properties, in order. */
  lemma VisibilityDtoAllBuilt()
    ensures BuildObjectType(VisibilityDto, MapInteger).Success?
    ensures BuildObjectType(VisibilityDto, MapInteger).value.required
            == ["publicProperty", "protectedProperty", "privateProperty"]
  {
    var ms := VisibilityDto.members;
    var s := Schemas.Integer(SchemaMetadata.Empty(), None, None, None, None);
    assert MapInteger(IntegerLike("int")) == Success(Some(s));
    assert ms == [ms[0]] + ([ms[1]] + ([ms[2]] + []));
    CollectIncluded(CatchUnsupported, MapInteger, ms[2], []);
    CollectIncluded(CatchUnsupported, MapInteger, ms[1], [ms[2]] + []);
    CollectIncluded(CatchUnsupported, MapInteger, ms[0], [ms[1]] + ([ms[2]] + []));
  }

  /** A default value does not make a property optional: both properties of
      the fixture are required. */
  lemma DefaultValueIgnored()
    ensures BuildPublic(DefaultValueDto, MapInteger).Success?
    ensures BuildPublic(DefaultValueDto, MapInteger).value.required == ["requiredInfo", "optionalInfo"]
  {
    var ms := DefaultValueDto.members;
    var s := Schemas.Integer(SchemaMetadata.Empty(), None, None, None, None);
    assert MapInteger(IntegerLike("int")) == Success(Some(s));
    assert ms == [ms[0]] + ([ms[1]] + []);
    CollectIncluded(PublicOnly, MapInteger, ms[1], []);
    CollectIncluded(PublicOnly, MapInteger, ms[0], [ms[1]] + []);
  }

  /** A class with a string property before an integer property. */
  const MixedDto: ClassInfo := ClassInfo(false, [
    Member("name", true, Public, false, Other("string")),
    Member("id", true, Public, false, IntegerLike("int"))])

  /** Through a registry that only knows integers, the catching builder skips
      the string property and keeps the integer one, while the public-only
      builder lets the unsupported-type exception out. */
  lemma UnsupportedSkippedOrEscaping()
    ensures BuildWithRegistry(MixedDto, [MapInteger]).Success?
    ensures BuildWithRegistry(MixedDto, [MapInteger]).value.required == ["id"]
    ensures BuildPublic(MixedDto, t => RegistryMapper([MapInteger], t))
            == Failure(Unsupported(NewUnsupportedType("string")))
  {
    var ms := MixedDto.members;
    var mapper: Mapper := t => RegistryMapper([MapInteger], t);
    var s := Schemas.Integer(SchemaMetadata.Empty(), None, None, None, None);
    assert MapInteger(IntegerLike("int")) == Success(Some(s));
    assert FirstDecisive([MapInteger], IntegerLike("int"), 0);
    assert mapper(IntegerLike("int")) == Success(Some(s));
    assert Declines([MapInteger][0], Other("string"));
    assert mapper(Other("string")) == Failure(Unsupported(NewUnsupportedType("string")));
    assert ms == [ms[0]] + ([ms[1]] + []);
    CollectIncluded(CatchUnsupported, mapper, ms[1], []);
    CollectSkipped(CatchUnsupported, mapper, ms[0], [ms[1]] + []);
    assert FirstEscaping(PublicOnly, mapper, ms, 0);
  }
}
