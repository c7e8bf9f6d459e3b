# JSON Schema generation from PHP property types, in Dafny

This project models the pure core of a PHP library that turns statically known
property types into JSON Schema (draft 2020-12) documents:

- **The schema value model** (module `Schemas`, with `SchemaMetadata` and the
  error values in `Exceptions`): integer, object and raw schema nodes. The
  integer node has a validating constructor whose four checks run in a fixed
  order and report the first violation. Integer and object nodes render to
  an ordered key/value array from which `null` entries are dropped; a raw node
  renders its stored array unchanged, nulls included.
- **The earlier generation of the value model** (module `DomainSchema`):
  integer, string, object and `$ref` nodes. Its integer constructor checks
  the bounds only. Its object rendering always writes `properties`.
  Module `Generations` states how the two generations agree and differ.
- **The type-mapper chain** (module `TypeMappers`):
  - the integer mapper, which turns an integer range into `minimum`/`maximum`;
  - the registry, which asks its mappers in order, takes the first answer,
    and reports an unsupported type when every mapper declines.
- **The three class schema builders** (module `ClassBuilders`). Each walks a
  class's properties in declaration order, filters and maps them, and
  assembles an object node whose `required` list names every mapped property.
- **Two small pure fragments of otherwise impure code**:
  - the reflection-based generator (module `Generator`): its type-name table,
    its `@var int<min, max>` bound rule, its required rule and its output shape;
  - the directory writer's class-name-to-file-name mapping (module `SchemaFiles`).

Rendered output is a `Json` value whose objects are ordered association lists
(`Fields`, module `Json`). Key order is therefore part of every statement.
PHP's `array_filter(..., fn($v) => $v !== null)` is `DropNulls`,
`$a[$k] = $v` is `SetKey`, and `array_merge` is `Merge`. The overlap guard,
`array_intersect_key(...) !== []`, is `SharesKey`. A PHP exception is the
`Failure` side of a `Result`.

The two `IntegerTypeMapper` classes, in the old and the new namespace, are
`MapIntegerLegacy` and `MapInteger`. The two `SchemaMetadata` classes are
behaviourally identical (same fields, same filter, same order), so both
generations share the one `SchemaMetadata` module: their outputs are equal by
construction.

Two behaviours the repository anticipates are not implemented. The TODO at
src/Mapper/ClassSchemaBuilder.php:49-53 plans optionality by default value,
and the writer's unit test at tests/Unit/Controller/DirectorySchemaWriterTest.php:40-49
expects `App/../Secret` to be rejected. The code does neither: every builder
marks each mapped property required, and the writer maps any name. The model follows the
code, and `ClassBuilders.DefaultValueIgnored` and
`SchemaFiles.PathLikeNameKept` state what the code does.

## Model

| member | source | states |
|---|---|---|
| `SchemaMetadata.JsonSerialize` | src/Schema/SchemaMetadata.php:31-40 | Only a non-null field is rendered, under its own name and with its value unchanged (`false` and `""` are kept). The keys appear in the order title, description, deprecated, readOnly, writeOnly and are distinct. |
| `SchemaMetadata.KeysAreMetadataKeys` | src/Schema/SchemaMetadata.php:33-39 | Every rendered key is one of the five metadata names. |
| `SchemaMetadata.KeyPresence` | src/Domain/Schema/SchemaMetadata.php:25-31 | A metadata key is rendered if and only if its field is not null. |
| `SchemaMetadata.EmptyRendersNothing` | src/Schema/SchemaMetadata.php:20-39 | Default-constructed metadata renders as the empty array. |
| `Exceptions.NewInvalidSchemaConstraint` | src/Exception/InvalidSchemaConstraintException.php:16-22 | The constraint name and the context are stored as given (the context defaults to empty). The message starts with the fixed prefix, and the constraint and the reason can be read back out of it. |
| `Exceptions.ConstraintMessageRoundTrip` | src/Exception/InvalidSchemaConstraintException.php:21 | A constraint name without a quote and any reason are recovered from the formatted message. |
| `Exceptions.ParsedConstraintMessage` | src/Exception/InvalidSchemaConstraintException.php:21 | Any message the parser accepts is exactly the formatted message of the parts it returns. |
| `Exceptions.NewUnsupportedType` | src/Exception/UnsupportedTypeException.php:12-15 | The code defaults to 0 and the previous exception to none. The type name is embedded verbatim between the quotes and is recovered from the message. |
| `Exceptions.UnsupportedMessageInverse` | src/Exception/UnsupportedTypeException.php:14 | Any message that parses as an unsupported-type message is exactly the message for the name it yields. |
| `Schemas.EnumViolation` | src/Schema/IntegerSchema.php:67-82 | No violation is reported if and only if every enum value is within the set bounds. Otherwise the violation reported is for the first out-of-bounds value in list order, checking the lower bound before the upper. |
| `Schemas.NewInteger` | src/Schema/IntegerSchema.php:26-84 | Construction succeeds if and only if all four invariants hold, and then stores the arguments. The first violation, in source order, is the one raised: min above max (`minimum`), default below min, default above max, default not in enum (all `default`), then the first out-of-range enum value (`enum`). Each carries its context. |
| `Schemas.BoundariesAccepted` | tests/Unit/Schema/IntegerSchemaTest.php:93-130 | Equal boundaries are accepted: min equal to max, a default equal to the minimum or to the maximum, and an enum holding only that value. |
| `Schemas.MinAboveMaxMessage` | tests/Unit/Schema/IntegerSchemaTest.php:169-172 | Minimum 11 with maximum 10 fails on constraint `minimum` with message `Invalid schema constraint "minimum": Min cannot be greater than Max`. |
| `Schemas.NewObject` | src/Schema/ObjectSchema.php:24-29 | Construction never fails, stores its arguments unchanged, and does not check `required` against the properties. By default there are no properties and no required names, and additionalProperties is false. The rendering always has `type: object` and `additionalProperties`; it has `properties` exactly when there are some and `required` exactly when the list is non-empty. |
| `Schemas.NewRaw` | src/Schema/RawSchema.php:16-23 | Construction validates nothing, and the node renders back to exactly the array it was given, with no key added. |
| `Schemas.JsonSerialize` | src/Schema/RawSchema.php:20-23 | A raw node serializes to its stored array. |
| `Schemas.SerializeProperties` | src/Schema/ObjectSchema.php:39-42 | The rendered properties keep the count, the names and the insertion order of the properties. |
| `Schemas.SerializeNeverFails` | src/Schema/IntegerSchema.php:101-104 | The overlap `LogicException` is unreachable: serializing any node, nested properties included, succeeds. |
| `Schemas.Combine` | src/Schema/IntegerSchema.php:101-109 | The overlap guard throws `LogicException` with its fixed message exactly when a key occurs in both the metadata and the structure. Once it passes, a structure without repeated keys is appended after the metadata by the spread. |
| `Schemas.CombineRendering` | src/Schema/IntegerSchema.php:106-109 | Structural keys are never metadata keys, so the spread merge is metadata followed by the non-null structural entries. Nothing is overridden, and key order follows metadata then structure. |
| `Schemas.RenderedPropertyValues` | src/Schema/ObjectSchema.php:39-42 | Each rendered property value is the rendering of that property's own schema, under its name, in insertion order. |
| `Schemas.IntegerRendering` | src/Schema/IntegerSchema.php:90-110 | The output is the metadata entries, then `type: integer`, then minimum, maximum, default and enum, each present exactly when set and with its value unchanged (an empty enum list is kept). |
| `Schemas.ObjectRendering` | src/Schema/ObjectSchema.php:35-60 | The output is metadata, then `type: object`, `properties` (omitted when empty), `required` (omitted when empty), and `additionalProperties`, which is always present. |
| `Schemas.ObjectSerialization` | src/Schema/ObjectSchema.php:35-60 | Serializing an object renders its properties without failing, then yields the metadata entries followed by the non-null structural entries: the overlap guard never fires. |
| `DomainSchema.NewInteger` | src/Domain/Schema/IntegerSchema.php:11-31 | Construction succeeds if and only if the bounds are ordered and the default lies within them, and then stores the arguments. Failures come in source order with the three fixed messages. The enum is never checked. |
| `DomainSchema.NewString` | src/Domain/Schema/StringSchema.php:9-19 | Construction never fails and stores its arguments unchanged. The rendering has `type: string` and each length bound, pattern, format, default and enum exactly as given, a `null` one left out. |
| `DomainSchema.StringAcceptsAnything` | src/Domain/Schema/StringSchema.php:9-19 | A minimum length above the maximum length, and a default outside the enum, are both accepted and rendered as given. |
| `DomainSchema.NewObject` | src/Domain/Schema/ObjectSchema.php:13-19 | Construction never fails and stores its arguments unchanged. `properties` is always rendered, empty included, holding each property under its name, rendered by its own schema, in order; `required` and `additionalProperties` are rendered exactly when not null, and both default to null. |
| `DomainSchema.NewRef` | src/Domain/Schema/RefSchema.php:9-22 | Any string is accepted, the empty string included. The node renders as the single key `$ref` holding that string verbatim, with no metadata and no `type`. |
| `DomainSchema.Render` | src/Domain/Schema/IntegerSchema.php:36-48 | `jsonSerialize` of the four earlier node kinds: `array_merge` of the metadata and the filtered structural entries, or the bare `$ref` entry. It has no contract of its own; what it yields per kind is stated by `DomainSchema.IntegerRendering`, `DomainSchema.StringRendering`, `DomainSchema.ObjectRendering` and `DomainSchema.NewRef`. |
| `DomainSchema.RenderProperties` | src/Domain/Schema/ObjectSchema.php:30 | Every property is rendered by its own schema, under its own name, in insertion order. |
| `DomainSchema.MergeOverridesNothing` | src/Domain/Schema/IntegerSchema.php:38-47 | `array_merge` of metadata and structure never overrides a metadata key, because the two key sets are disjoint. |
| `DomainSchema.IntegerRendering` | src/Domain/Schema/IntegerSchema.php:36-48 | The output is metadata, then `type: integer`, minimum, maximum, default and enum, with nulls omitted. |
| `DomainSchema.StringRendering` | src/Domain/Schema/StringSchema.php:24-38 | The output is metadata, then `type: string`, minLength, maxLength, pattern, format, default and enum, with only nulls omitted. |
| `DomainSchema.ObjectRendering` | src/Domain/Schema/ObjectSchema.php:24-35 | The output is metadata, then `type: object` and `properties`, which is always present. `required` (even an empty list) and `additionalProperties` appear exactly when not null. |
| `Generations.CurrentIntegerAcceptedEarlier` | src/Domain/Schema/IntegerSchema.php:19-30 | Every argument combination the current integer constructor accepts, the earlier one accepts too. |
| `Generations.SameRejectionReason` | src/Schema/IntegerSchema.php:33-55 | When the earlier constructor rejects, the current one rejects with the same reason, prefixed by a constraint name, `minimum` or `default`. |
| `Generations.EnumCheckedOnlyNow` | src/Schema/IntegerSchema.php:58-65 | For any metadata, consistent bounds and a default within them, a default outside the enum is accepted by the earlier constructor (which stores it) and rejected by the current one with the default-not-in-enum error. |
| `Generations.IntegerRenderingAgrees` | src/Domain/Schema/IntegerSchema.php:36-48 | Both generations render the same integer node to the same array. |
| `Generations.EmptyObjectNow` | src/Schema/ObjectSchema.php:44-59 | A current object node with no properties, for any metadata, required list and additionalProperties, renders the metadata, then `type`, then `required` only when the list is non-empty, then `additionalProperties`; `properties` is left out. |
| `Generations.EmptyObjectEarlier` | src/Domain/Schema/ObjectSchema.php:24-35 | An earlier object node with no properties, for any metadata, required and additionalProperties, renders the metadata, then `type` and an empty `properties`, then `required` and `additionalProperties` each only when not null. |
| `TypeMappers.MapInteger` | src/Mapper/Types/IntegerTypeMapper.php:17-32 | A type is declined if and only if it is not an integer. A range is checked first and gives an integer node with exactly its bounds. Any other integer gives an unconstrained node. Nodes have empty metadata and no default or enum. The only possible failure is the `minimum` violation of disordered bounds. |
| `TypeMappers.MapIntegerLegacy` | src/Mapper/IntegerTypeMapper.php:15-30 | The same three cases, in the same order: a range gives its bounds, another integer gives an unconstrained node, anything else is declined. |
| `TypeMappers.LegacyMapperAgrees` | src/Mapper/IntegerTypeMapper.php:15-30 | The old-namespace mapper answers exactly like the new one on every type. |
| `TypeMappers.MappedIntegerRendering` | src/Mapper/Types/IntegerTypeMapper.php:20-28 | A mapped integer renders `type: integer`, and `minimum`/`maximum` exactly when the range has them, with no default and no enum. |
| `TypeMappers.MapIntegerExamples` | tests/Unit/Mapper/IntegerTypeMapperTest.php:31-48 | `int<1, 10>` gives minimum 1 and maximum 10, and `string` is declined. |
| `TypeMappers.Registry` | src/Mapper/TypeMapperRegistry.php:23-33 | When every mapper declines, the result is `UnsupportedType` naming the type. Otherwise the result is the first non-declining mapper's schema, or its exception. |
| `TypeMappers.RegistryMapper` | src/Mapper/TypeMapperRegistry.php:23-29 | Used as a mapper, the registry never answers null. |
| `TypeMappers.DecisiveOrUnsupported` | src/Mapper/TypeMapperRegistry.php:25-32 | Either every mapper declines or there is exactly one first decisive mapper. |
| `TypeMappers.RegistryResultFromMapper` | src/Mapper/TypeMapperRegistry.php:27-29 | A successful registry result is exactly some mapper's output. |
| `TypeMappers.LaterMappersIgnored` | src/Mapper/TypeMapperRegistry.php:27-29 | Mappers after the first decisive one are never consulted: appending more mappers changes nothing. |
| `TypeMappers.IntegerOnlyRegistryMapsRange` | src/Mapper/TypeMapperRegistry.php:25-30 | With only the integer mapper registered, `int<1, 10>` gets its integer node. |
| `TypeMappers.IntegerOnlyRegistryRejectsString` | src/Mapper/TypeMapperRegistry.php:32 | With only the integer mapper registered, `string` is reported as unsupported. |
| `TypeMappers.StringUnsupportedMessage` | tests/Unit/Mapper/TypeMapperRegistryTest.php:39-42 | The message is exactly `Type "string" is not supported yet.`. |
| `ClassBuilders.Collect` | src/Mapper/ClassSchemaBuilder.php:31-54 | The property loop succeeds if and only if no property raises an exception the builder lets escape. On failure, the error is the first such exception in declaration order. |
| `ClassBuilders.Assemble` | src/Mapper/ClassSchemaBuilder.php:57-61 | The result has empty metadata and additionalProperties false, and its `required` list equals the key list of `properties`, in order. |
| `ClassBuilders.BuildPublic` | src/Mapper/ClassSchemaBuilder.php:20-62 | An anonymous class is rejected with InvalidArgument before any property is looked at. Otherwise the build succeeds exactly when the public-only loop does and assembles what it collected; a failed build carries the loop's exception unchanged, which is the first mapper exception in declaration order. |
| `ClassBuilders.BuildWithRegistry` | src/Builder/ClassSchemaBuilder.php:20-52 | There is no anonymous check and no visibility filter. Properties are mapped through the registry, an unsupported type is caught and skipped, and the rest is assembled. Any other exception escapes unchanged as the build's error. |
| `ClassBuilders.BuildObjectType` | src/Mapper/Types/ObjectTypeMapper.php:20-58 | There is no anonymous check and no visibility filter. A null mapping or an unsupported type skips the property, and the rest is assembled. Any other exception escapes unchanged as the build's error. |
| `ClassBuilders.CollectSound` | src/Mapper/ClassSchemaBuilder.php:44-54 | Each collected entry is an included property (known, visible to the policy, mapped to a schema) under its own name, with the schema its mapping returned. |
| `ClassBuilders.CollectComplete` | src/Builder/ClassSchemaBuilder.php:30-44 | Every included property is collected. Unknown names, null mappings and caught unsupported types are the only omissions. |
| `ClassBuilders.CollectOrder` | src/Mapper/ClassSchemaBuilder.php:31-36 | Collected names keep declaration order and come from the class. |
| `ClassBuilders.CollectDistinct` | src/Mapper/Types/ObjectTypeMapper.php:40-57 | With distinct property names, the `properties` keys, and hence `required`, are distinct. |
| `ClassBuilders.PublicOnlyExcludesHidden` | src/Mapper/ClassSchemaBuilder.php:40-42 | A non-public property never appears in `properties` or `required`. |
| `ClassBuilders.PublicOnlyIsSubset` | src/Mapper/Types/ObjectTypeMapper.php:20-35 | With the same mapping, the visibility-blind builder keeps every property the public-only builder keeps. |
| `ClassBuilders.RangeDtoBuilt` | tests/Unit/Mapper/ClassSchemaBuilderTest.php:35-37 | The mapped `rating` property is both a property and a required name. |
| `ClassBuilders.VisibilityDtoPublicBuilt` | tests/Integration/Fixtures/Visibility/VisibilityDto.php:9-14 | Only the public property survives the public-only builder. |
| `ClassBuilders.VisibilityDtoAllBuilt` | tests/Integration/Fixtures/Visibility/VisibilityDto.php:9-14 | The visibility-blind builder keeps all three properties, in declaration order. |
| `ClassBuilders.DefaultValueIgnored` | tests/Integration/Fixtures/Optional/DefaultValueDto.php:9-12 | A property with a default value is still required. |
| `ClassBuilders.UnsupportedSkippedOrEscaping` | src/Builder/ClassSchemaBuilder.php:41-44 | Through an integer-only registry, the catching builder skips a string property, while the public-only builder fails with the unsupported-type exception. |
| `Generator.JsonTypeName` | src/SchemaGenerator.php:137-150 | `int` maps to integer, `float` to number and `bool` to boolean. Every other named type, a missing type and a non-named type map to string. |
| `Generator.AssignBound` | src/SchemaGenerator.php:123-125 | An integer constant is stored under its key, which is appended if new. Every other key is untouched. |
| `Generator.ApplyArgs` | src/SchemaGenerator.php:118-129 | An integer constant at index 0 sets `minimum`, and one at any later index sets `maximum`, so the last one wins. Other keys are unchanged. |
| `Generator.ApplyTypeToSchema` | src/SchemaGenerator.php:111-132 | Only a generic `int<...>`/`integer<...>` changes the schema, and only its `minimum`/`maximum`. |
| `Generator.ApplyTags` | src/SchemaGenerator.php:96-102 | Each bound comes from the last tag that sets it (`LastMinimum`/`LastMaximum`, read independently of the loop); a bound no tag sets keeps its value; no other key changes, and no key other than the bounds is added. |
| `Generator.ApplyTagsAppend` | src/SchemaGenerator.php:96-102 | The tags are applied one at a time: applying `a + b` is applying `a`, then `b` to the result. |
| `Generator.MapPropertyToSchema` | src/SchemaGenerator.php:86-109 | `type` always comes from the native type, and the only other keys are the bounds. A missing or empty doc comment, or one the parser rejects, leaves the type schema untouched. A comment the parser accepts gives the type schema with the parsed tags applied: `minimum` and `maximum` are those of the last tag that sets each, and absent otherwise. |
| `Generator.RangeTagApplied` | src/SchemaGenerator.php:114-131 | `@var int<1, 10>` gives minimum 1 and maximum 10; `@var int<min, 10>` gives only maximum 10. |
| `Generator.PropertySchemas` | src/SchemaGenerator.php:63-68 | Every reflected property appears in `properties`, under its own name, in declaration order, with no filtering. |
| `Generator.Generate` | src/SchemaGenerator.php:75-80 | The output always has exactly `type`, `properties`, `required` (even when empty) and `additionalProperties: false`, in that order. |
| `Generator.RequiredExactly` | src/SchemaGenerator.php:70-72 | `required` holds exactly the properties with a declared, non-nullable type, in declaration order. |
| `SchemaFiles.TrimSeparators` | src/Controller/DirectorySchemaWriter.php:21 | `ltrim` removes exactly the leading backslashes: the result is a suffix of the name that does not start with a backslash. |
| `SchemaFiles.SeparatorsToDots` | src/Controller/DirectorySchemaWriter.php:21 | Every backslash becomes a dot, and every other character is kept in place. |
| `SchemaFiles.SchemaFileName` | src/Controller/DirectorySchemaWriter.php:21 | The file name is the class name with its leading backslashes trimmed, every remaining backslash turned into `.`, and `.json` appended. So it has no backslash, and every other character, `/` and `.` included, is kept in place. |
| `SchemaFiles.FileNameRoundTrip` | src/Controller/DirectorySchemaWriter.php:21 | A class name without a leading backslash and without dots is recovered from its file name. |
| `SchemaFiles.LeadingSeparatorsIgnored` | src/Controller/DirectorySchemaWriter.php:21 | A leading backslash does not change the file name. |
| `SchemaFiles.SeparatorAndDotCollide` | src/Controller/DirectorySchemaWriter.php:21 | `A\B` and `A.B` are written to the same file, so the mapping is not injective. |
| `SchemaFiles.NamespacedClassFile` | tests/Unit/Controller/DirectorySchemaWriterTest.php:34-36 | `App\Dto\User` is written to `App.Dto.User.json`. |
| `SchemaFiles.FullyQualifiedClassFile` | src/Controller/DirectorySchemaWriter.php:21 | `\App\Dto\User`, with its leading backslash, is written to the same `App.Dto.User.json`. |
| `SchemaFiles.PathLikeNameKept` | src/Controller/DirectorySchemaWriter.php:21 | `App/../Secret` is written to `App/../Secret.json`: this code rejects nothing. |

## Left out

- Reflection and the static analyser are abstracted:
  - a class is its anonymous flag and its list of properties (name, known to the static reflection, visibility, default-value flag, type);
  - a static type is `PhpType`: an integer range, another certain integer, or anything else, with its description.
- PHPStan collectors, rules and the transport DTOs are host-engine plumbing, serialization and foreign runtime calls.
- The generator's reflection bootstrap and autoloading are not modelled. The doc-comment lexer and parser become a parameter (`DocParser`) that returns the comment's nodes or fails.
- The generator's `echo` debug output is I/O.
- The `(int)` cast of an integer constant's text is not modelled: a constant arrives as its integer value.
- Directory creation, file writing and JSON text encoding are I/O. Output is a value tree with ordered keys. The text encoding is not modelled: `json_encode` writes an empty PHP array as `[]` and does its own escaping.
- The `previous` exception of an unsupported-type error is kept as an optional string, since no modelled code reads it.
- Optionality by default value is not modelled, because no builder implements it; every mapped property is required.
- Rejecting invalid class names in the writer is not modelled, because the writer's code performs no such check.
- Interfaces (`Schema`, `TypeMapper`, the builder and writer interfaces) have no behaviour. They become the datatypes and the `Mapper` function type.
- Repeated keys: a PHP array cannot hold the same string key twice, but the association lists that model `Object.properties`, `Raw.data` and a class's member list can. The model does not exclude repeats by construction; the lemmas that depend on distinct names (`ClassBuilders.CollectDistinct`, `ClassBuilders.PublicOnlyExcludesHidden`) require them explicitly, as PHP guarantees for declared properties.
- PHP arrays with string keys are ordered association lists. The generator assigns `$properties[$name]` and the builders assign `$properties[$name]`; both are modelled as appends. This matches PHP whenever the class's property names are distinct, which PHP guarantees for declared properties.
- `TypeMappers.MapInteger`: a range whose lower bound exceeds its upper bound fails with the constructor's `minimum` violation. The static analyser never builds such a range, so `WellFormed` excludes it from the success statements rather than from the inputs.
- `TypeMappers.MapIntegerLegacy`: its contract omits the failure statements of `MapInteger`. `TypeMappers.LegacyMapperAgrees` carries them over.
