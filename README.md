# vcloud-rest-openapi, modelled in Dafny

This project models the parts of vcloud-rest-openapi that turn VMware vCloud
documentation into OpenAPI documents (3.1.0 from the Cloud-API generator,
3.0.2 from the REST-API generator), and proves properties of that
model. There are two generators:

- **Cloud-API generator** (TypeScript, `transformer-cloudapi`).
  - `defs.ts` normalises the legacy Swagger 2 definitions a page script binds to `defs`. Each definition is rewritten as an OpenAPI component schema by the per-shape correctors.
  - `paths.ts` reads the route articles of the page into a map from route to its path parameters.
- **REST-API generator** (Rust, `transformer` and `transformer-rest-api`).
  - XSD readers under `parsers/doc/etc`: annotations, built-in datatypes, simple types, group references, sequence elements, fields, complex types, object types, types and whole schema documents, each with its conversion to an OpenAPI schema.
  - Readers of the HTML documentation pages: definition lists (`detail_page.rs`), operations, queries, types and the landing table of operations.
  - `paths.rs`, which assembles the path map from the operation pages.
  - Four post-passes over the component-schema map:
    - `query_parameters` adds the shared query-parameter schemas;
    - `query_superclass` and `metadata_superclass` add `oneOf` superclasses with a `_type` discriminator;
    - `stub_ovf` adds stand-ins for three OVF schemas.

The model follows the form of the source:

- Parsers and conversions that are chains of expressions are `function`s over datatypes.
  - Results are `Result` values carrying the source's error variants, checked in the source's order.
- Loops are `method`s with `while` loops. Each method is proved equal to a specification function: the `try_fold` over `dt`/`dd` entries, the loops over definitions, route articles, XSD children, operation pages and map values.
- The post-passes mutate the caller's `IndexMap`. That map is a field of the class `ComponentSchemas.Components`, and each post-pass is a method with `modifies` on it.
- An `IndexMap` (and a JavaScript object with string keys) is a sequence of key/value pairs.
  - A key keeps the position of its first insertion. For a JavaScript
    object this holds for keys that are not array indices; the model takes
    `defs` and `properties` in their enumeration order.
  - Inserting an existing key replaces its value in place.

Libraries outside the source are parameters of the model:

- HTML to Markdown (`html2md`), `inner_html`/`text()` of `scraper`, and the media-type and element extractors of operation examples enter as functions (`md`, `innerText`, `mediaTypeOf`, `elementOf`).
- The page structure that CSS selectors pick out enters as datatypes: `DetailPage.Document`, the `dt`/`dd` children, the route articles and their tables.

## Model

| member | source | states |
|---|---|---|
| Annotation.Merge | transformer/src/parsers/doc/etc/annotation.rs:20-29 | the first annotation's description, required flag and content type win when present; deprecated and removed are or-ed |
| Annotation.MergeAssociative | transformer/src/parsers/doc/etc/annotation.rs:21-29 | merging is associative |
| Annotation.MergeUnitIdempotent | transformer/src/parsers/doc/etc/annotation.rs:21-29 | the empty annotation is a unit on both sides and merging an annotation with itself changes nothing |
| Annotation.DescriptionOf | transformer/src/parsers/doc/etc/annotation.rs:36-56 | a child gives a description exactly when it is an XML Schema `documentation` with `lang="en"` or no attributes whose first child is text, and the description is that text |
| Annotation.RequiredOf | transformer/src/parsers/doc/etc/annotation.rs:59-82 | a child gives a required flag exactly when it is a namespaced `documentation` with `source="required"` whose trimmed first text is `true` or `false`, and the flag says which |
| Annotation.ContentTypeElement | transformer/src/parsers/doc/etc/annotation.rs:123-134 | a child gives a content type exactly when it is a namespaced `content-type` element with a first text child, and the content type is that text trimmed |
| Annotation.ContentTypeOf | transformer/src/parsers/doc/etc/annotation.rs:113-138 | a child gives a content type exactly when it is an `appinfo` with some `content-type` child that has text, and it is the first such child's |
| Annotation.FromChildren | transformer/src/parsers/doc/etc/annotation.rs:35-146 | each of description, required, deprecated, removed and content type is present exactly when some child contributes it; the description is `md` of the first child's and the content type the first child's; the reader never sets `modifiable` |
| Annotation.RequiredIsFirstValid | transformer/src/parsers/doc/etc/annotation.rs:59-82 | the required flag is that of the first child stating a valid one; children with other text are skipped |
| Annotation.DescriptionIsFirst | transformer/src/parsers/doc/etc/annotation.rs:36-56 | the description is the first one a child gives, converted by `md` |
| Annotation.ContentTypeIsFirst | transformer/src/parsers/doc/etc/annotation.rs:113-138 | the content type is the first one an `appinfo` child gives |
| Annotation.AppinfoAnnotation | transformer/src/parsers/doc/etc/annotation.rs:162-172 | only an XML Schema `appinfo` node yields an annotation |
| Annotation.FromNode | transformer/src/parsers/doc/etc/annotation.rs:152-184 | reading fails exactly when the node is not an XML Schema `annotation` |
| Annotation.FromNodeAppinfo | transformer/src/parsers/doc/etc/annotation.rs:160-180 | with an `appinfo` child, the first one's annotation is merged in front of the direct children's |
| Annotation.FromNodeNoAppinfo | transformer/src/parsers/doc/etc/annotation.rs:174-176 | without an `appinfo` child the annotation is the direct children's |
| Annotation.FirstAnnotation | transformer/src/parsers/doc/etc/complex_type.rs:47-51 | the first annotation among the children exists exactly when some child is an XML Schema `annotation` |
| Annotation.NamespaceValueIgnored | transformer/src/parsers/doc/etc/annotation.rs:62-111 | the required, deprecated, removed and content-type readers ask only that a namespace be present, never which |
| Annotation.FromNodeModifiable | transformer/src/parsers/doc/etc/annotation.rs:139-145 | a read annotation never carries `modifiable` |
| PrimitiveType.Parse | transformer/src/parsers/doc/etc/primitive_type.rs:28-43 | a name parses only to the type whose name it is, and any other input fails with `NoMatch` of that input |
| PrimitiveType.ParseToken | transformer/src/parsers/doc/etc/primitive_type.rs:29-40 | each of the eleven types' names parses back to that type |
| PrimitiveType.ParseIffToken | transformer/src/parsers/doc/etc/primitive_type.rs:29-41 | parsing succeeds exactly for the eleven names in the table |
| PrimitiveType.NotInTable | transformer/src/parsers/doc/etc/primitive_type.rs:29-41 | matching is case-sensitive, and `xs:decimal`, `xs:float`, `xs:short` and `xs:normalizedString` are not in this table |
| RestPrimitiveType.Parse | transformer-rest-api/src/parsers/doc/etc/primitive_type.rs:32-51 | a name parses only to the type whose name it is, and any other input fails with `NoMatch` of that input |
| RestPrimitiveType.ParseToken | transformer-rest-api/src/parsers/doc/etc/primitive_type.rs:33-48 | each of the fifteen types' names parses back to that type |
| RestPrimitiveType.ParseIffToken | transformer-rest-api/src/parsers/doc/etc/primitive_type.rs:33-49 | parsing succeeds exactly for the fifteen names in the table |
| RestPrimitiveType.ParseI64 | transformer-rest-api/src/parsers/doc/etc/primitive_type.rs:115 | a parsed integer lies in the 64-bit signed range and comes from an optional sign followed by at least one digit |
| RestPrimitiveType.ParseShowInt | transformer-rest-api/src/parsers/doc/etc/primitive_type.rs:115-120 | every 64-bit integer written in decimal parses back to itself |
| RestPrimitiveType.ToType | transformer-rest-api/src/parsers/doc/etc/primitive_type.rs:62-146 | string-like types become strings that keep the enumeration and pattern, `int`/`integer`/`long`/`short` become integers, `double`/`float` numbers and `boolean` a boolean; an integer has no maximum and at most as many values as the enumeration |
| RestPrimitiveType.ToTypeFormats | transformer-rest-api/src/parsers/doc/etc/primitive_type.rs:64-143 | `anyURI` has format `uri`, `base64Binary` `byte`, `dateTime` `date-time`, `int` `int32`, `long` `int64`, `double` and `float` their number formats, and the other types none |
| RestPrimitiveType.IntegerRestrictions | transformer-rest-api/src/parsers/doc/etc/primitive_type.rs:113-143 | an integer's minimum is present exactly when `minInclusive` parses as a 64-bit integer, is that integer, and every enumeration entry written as a 64-bit integer is kept |
| RestPrimitiveType.IntegerEnumerationOrder | transformer-rest-api/src/parsers/doc/etc/primitive_type.rs:116-120 | the integer enumeration keeps the entries that parse, in the order written |
| SimpleType.Decider | transformer/src/parsers/doc/etc/simple_type.rs:38-123 | only an XML Schema `list` or `restriction` child decides the simple type |
| SimpleType.ParseParent | transformer/src/parsers/doc/etc/simple_type.rs:55-117 | the parent parses exactly when its name is a primitive type's, and otherwise fails with that name's `NoMatch` |
| SimpleType.Parse | transformer/src/parsers/doc/etc/simple_type.rs:22-128 | a node other than an XML Schema `simpleType` is `NotTypeNode`, as is one without a `list` or `restriction` child; the name is the namespace, `_` and the `name` attribute; the annotation is the first among the children |
| SimpleType.ParseDecidingChild | transformer/src/parsers/doc/etc/simple_type.rs:38-124 | the first deciding child wins: a list fails exactly when `itemType` is missing and has no facets; a restriction fails exactly when `base` is missing, and takes its first `pattern`, its first `minInclusive` and every `enumeration` in document order |
| SimpleType.EnumerationOrder | transformer/src/parsers/doc/etc/simple_type.rs:97-110 | the enumeration values keep document order |
| SimpleType.StrToSimpleTypeOrReference | transformer/src/parsers/doc/etc/simple_type.rs:131-153 | a built-in name becomes an unrestricted simple type of that primitive; any other name becomes a reference with its first `:` replaced by `_`, or, without `:`, prefixed by the namespace and `_` |
| SimpleType.ToSchema | transformer/src/parsers/doc/etc/simple_type.rs:155-193 | the schema is titled with the type's name and takes the annotation's description and deprecation; a list is an array of the restricted primitive's type, anything else that type itself |
| SimpleType.StringEnumerationSchema | transformer/src/parsers/doc/etc/simple_type.rs:97-170 | a string restriction's schema lists every enumeration value in document order and is titled with the type's name |
| GroupRef.Parse | transformer/src/parsers/doc/etc/group_ref.rs:21-37 | a node other than an XML Schema `group` is `NotGroupNode`, a group without `ref` is `MissingRefAttribute`, and otherwise the reference is the `ref` attribute verbatim |
| GroupRef.AttributeGroupIsNotGroup | transformer/src/parsers/doc/etc/group_ref.rs:28-35 | an `attributeGroup` node is not a group reference |
| SequenceElement.ElementOccurrences | transformer/src/parsers/doc/etc/sequence_element.rs:59-72 | an element is an array exactly when `maxOccurs` is `unbounded`, and optional exactly when it is not and `minOccurs` is `0` |
| SequenceElement.Parse | transformer/src/parsers/doc/etc/sequence_element.rs:36-84 | a node other than an XML Schema `element` is `NotSequenceElementNode`; a missing `name` is `MissingName`, and a name without `type` is `MissingType`; the property name is `name` with its first character lower-cased, the type is `type` verbatim and the annotation is the first among the children |
| SequenceElement.OccurrencesTable | transformer/src/parsers/doc/etc/sequence_element.rs:59-72 | `unbounded` wins over `minOccurs="0"`, `minOccurs="0"` alone is optional, and with neither attribute the element occurs once |
| Field.FieldType | transformer/src/parsers/doc/etc/field.rs:59-70 | the first child that reads as a simple type wins; without one the `type` attribute is read as a built-in type or a reference; with neither the field fails |
| Field.AttributeOccurrences | transformer/src/parsers/doc/etc/field.rs:116-119 | an attribute is never an array, and occurs once exactly when `use` is `required` |
| Field.Parse | transformer/src/parsers/doc/etc/field.rs:40-130 | a node other than an XML Schema `element` or `attribute` is `NotFieldNode`; a missing name is `MissingName`, and a missing type `MissingType`; an element's name gets its first character lower-cased and its occurrences come from `minOccurs`/`maxOccurs`, while an attribute's name is kept and its occurrences come from `use` |
| Field.TypeOrReference | transformer/src/parsers/doc/etc/field.rs:135-147 | a reference points into `#/components/schemas/`, and a simple type becomes its primitive's OpenAPI type |
| Field.ToSchema | transformer/src/parsers/doc/etc/field.rs:133-157 | the schema is never nullable and has no title, is read-only exactly when the annotation says not modifiable, and takes the annotation's deprecation and description |
| Field.SchemaShape | transformer/src/parsers/doc/etc/field.rs:158-189 | an array wraps the type or the reference as its items; otherwise a type stands alone and a reference becomes a one-member `allOf` |
| Field.ParsedFieldsNotReadOnly | transformer/src/parsers/doc/etc/field.rs:152-153 | no field read from XML is read-only, because the annotation reader never sets `modifiable` |
| ComplexType.ParseSpec | transformer/src/parsers/doc/etc/complex_type.rs:34-120 | a node other than an XML Schema `complexType` is `NotComplexTypeNode`; without `name` it is `MissingName`; without an annotation among the children it is `MissingAnnotation`; otherwise the name is kept and the annotation is the first one |
| ComplexType.Parse | transformer/src/parsers/doc/etc/complex_type.rs:34-120 | the checks and the loop over the children yield exactly the specified type |
| ComplexType.CollectChildren | transformer/src/parsers/doc/etc/complex_type.rs:54-110 | the loop over the children gathers the elements of every `sequence` and `complexContent` child in document order and ends with the parent of the last extension |
| ComplexType.ChildContribution | transformer/src/parsers/doc/etc/complex_type.rs:55-109 | one child contributes the elements of a `sequence`, or those and the parent of a `complexContent`, and nothing otherwise |
| ComplexType.CollectContent | transformer/src/parsers/doc/etc/complex_type.rs:71-106 | each `extension` of a `complexContent` sets the parent to its `base`, even when absent, and contributes its own elements followed by those of its `sequence` children |
| ComplexType.CollectSequences | transformer/src/parsers/doc/etc/complex_type.rs:84-102 | the elements of an extension's `sequence` children, in order |
| ComplexType.TypeElementsAppend | transformer/src/parsers/doc/etc/complex_type.rs:54-110 | elements are gathered in document order: those of `a + b` are those of `a` followed by those of `b` |
| ComplexType.NoContentNoParent | transformer/src/parsers/doc/etc/complex_type.rs:53-70 | without a `complexContent` child the type has no parent |
| ComplexType.LastExtensionWins | transformer/src/parsers/doc/etc/complex_type.rs:80 | a later extension replaces the parent an earlier one set |
| ComplexType.PropertyPairs | transformer/src/parsers/doc/etc/complex_type.rs:127-136 | one property entry per element, named by the element, in order |
| ComplexType.Names | transformer/src/parsers/doc/etc/complex_type.rs:138 | the required names are the element names, in order |
| ComplexType.ToSchema | transformer/src/parsers/doc/etc/complex_type.rs:123-167 | the schema is titled with the type's name and takes the annotation's description and deprecation; without a parent it is the object itself, and with one it is an `allOf` whose first member references the parent |
| ComplexType.ObjectOfSchema | transformer/src/parsers/doc/etc/complex_type.rs:125-165 | the object lists every element name as required, allows nothing else, and maps each name to the schema of its last element of that name; with distinct names the properties are exactly the elements in order; under a parent the object has default data |
| ObjectType.ValueField | transformer/src/parsers/doc/etc/object_type.rs:145-160 | exactly a built-in parent gives a field, named `value`, occurring once, of that type and annotated as required |
| ObjectType.References | transformer/src/parsers/doc/etc/object_type.rs:162-165 | only references stay among the parents, and every reference stays |
| ObjectType.FoldAnnotations | transformer/src/parsers/doc/etc/object_type.rs:167-173 | the merged annotation is absent exactly when there are no annotations |
| ObjectType.FoldAnnotationsAppend | transformer/src/parsers/doc/etc/object_type.rs:167-173 | folding `a + b` merges the fold of `a` in front of the fold of `b` |
| ObjectType.FoldAnnotationsFlags | transformer/src/parsers/doc/etc/object_type.rs:167-173 | the merged annotation is deprecated, or removed, exactly when one of the annotations is, and its description is the first one given |
| ObjectType.ParseSpec | transformer/src/parsers/doc/etc/object_type.rs:27-184 | a node other than an XML Schema `complexType`, `group` or `attributeGroup` is `NotTypeNode`; without `name` it is `MissingName`; the name is the namespace, `_` and `name`; only references remain as parents |
| ObjectType.Parse | transformer/src/parsers/doc/etc/object_type.rs:27-184 | the checks and the loops over the children yield exactly the specified type |
| ObjectType.CollectChildren | transformer/src/parsers/doc/etc/object_type.rs:51-143 | the loop over the children gathers, in document order, the annotations, fields and parents that each child contributes |
| ObjectType.ChildContribution | transformer/src/parsers/doc/etc/object_type.rs:52-141 | a `sequence` contributes its fields and group references; a `complexContent` or `simpleContent` contributes its annotations and what its extensions add; any other child contributes nothing |
| ObjectType.CollectExtensions | transformer/src/parsers/doc/etc/object_type.rs:80-138 | the loop over a content's children gathers what each extension adds, in order |
| ObjectType.ExtensionContribution | transformer/src/parsers/doc/etc/object_type.rs:88-136 | an extension adds its `base` as a parent when present, then its own group references, then those of its sequences; its fields are its own followed by those of its sequences |
| ObjectType.CollectExtensionSequences | transformer/src/parsers/doc/etc/object_type.rs:106-135 | the loop over an extension's children gathers the fields and group references of its `sequence` children, in order |
| ObjectType.FieldsOrder | transformer/src/parsers/doc/etc/object_type.rs:46-160 | fields keep document order: the direct children's first, then each child's in turn, then one `value` field per built-in parent |
| ObjectType.BuiltInParentGivesValue | transformer/src/parsers/doc/etc/object_type.rs:145-160 | every built-in parent yields a required `value` field among the fields |
| ObjectType.DirectFieldsKept | transformer/src/parsers/doc/etc/object_type.rs:44-50 | every field written directly among the type's children is among its fields |
| ObjectType.RequiredNames | transformer/src/parsers/doc/etc/object_type.rs:202-216 | a name is required exactly when some field of that name is annotated as required; RequiredNamesAppend and RequiredNamesSingle give the order |
| ObjectType.RequiredNamesAppend | transformer/src/parsers/doc/etc/object_type.rs:202-216 | the required names of a concatenation are those of its parts, one after the other, so they keep field order |
| ObjectType.RequiredNamesSingle | transformer/src/parsers/doc/etc/object_type.rs:202-216 | a single field is listed exactly when its annotation says `required` is true |
| ObjectType.ObjectKind | transformer/src/parsers/doc/etc/object_type.rs:189-218 | the object allows no other properties |
| ObjectType.ParentMember | transformer/src/parsers/doc/etc/object_type.rs:232-241 | a referenced parent becomes a reference into `#/components/schemas/` |
| ObjectType.ToSchema | transformer/src/parsers/doc/etc/object_type.rs:187-255 | the schema is titled with the type's name and takes the merged annotation's description and deprecation; without parents it is the object; with parents it is an `allOf` of one member per parent, in order, followed by the object with default data |
| ObjectType.ParsedSchema | transformer/src/parsers/doc/etc/object_type.rs:162-241 | a parsed type's `allOf` holds only prefixed references before the object, and every field annotated as required, `value` fields included, is listed as required |
| XsdType.Parse | transformer/src/parsers/doc/etc/type.rs:39-48 | an object type node parses as an object type exactly when it is named, with the namespaced name; only a node that is no object node is read as a simple type; every other object error stands |
| XsdType.KindFollowsNode | transformer/src/parsers/doc/etc/type.rs:39-48 | a simple type node is never read as an object type, and an object type node never as a simple type |
| XsdType.ToSchema | transformer/src/parsers/doc/etc/type.rs:50-57 | the schema carries the type's title and description; a simple type gives a typed schema, an object type an `allOf` exactly when it has parents |
| XsdType.ParsedTitle | transformer/src/parsers/doc/etc/type.rs:39-57 | every named type read from a document is published under the namespaced title |
| XsdSchema.IncludeLocation | transformer/src/parsers/doc/etc/schema.rs:58-68 | an `include` child with a `schemaLocation` yields that location, and no other child yields one |
| XsdSchema.Types | transformer/src/parsers/doc/etc/schema.rs:55 | every child that reads as a type contributes that type, and every type comes from such a child; TypesSnoc gives the order |
| XsdSchema.Includes | transformer/src/parsers/doc/etc/schema.rs:56-69 | every location comes from an `include` child, and every `include` child's location is listed; IncludesSnoc gives the order |
| XsdSchema.TypesSnoc | transformer/src/parsers/doc/etc/schema.rs:55 | one more child appends its type, if it reads as one, at the end, so types keep document order |
| XsdSchema.IncludesSnoc | transformer/src/parsers/doc/etc/schema.rs:56-69 | one more child appends its location, if it is an `include` naming one, at the end, so locations keep document order |
| XsdSchema.Parse | transformer/src/parsers/doc/etc/schema.rs:44-74 | a node other than an XML Schema `schema` is `NotSchemaNode`; a schema node yields its included locations and its types |
| XsdSchema.IncludeIsNoType | transformer/src/parsers/doc/etc/schema.rs:55-68 | an `include` child never reads as a type |
| XsdSchema.ToSchemas | transformer/src/parsers/doc/etc/schema.rs:76-80 | one schema per type, in order: the i-th is the i-th type's schema, titled as that type |
| CloudApiDefs.RefString | transformer-cloudapi/defs.ts:17-18 | a reference under `#/definitions/` is moved under `#/components/schemas/`; any other string is kept |
| CloudApiDefs.RefStringIdempotent | transformer-cloudapi/defs.ts:17-18 | correcting a reference twice is correcting it once |
| CloudApiDefs.Description | transformer-cloudapi/defs.ts:27 | the trimmed description is no longer than the input and neither starts nor ends with white space |
| CloudApiDefs.OptDescription | transformer-cloudapi/defs.ts:22-27 | a description is kept, trimmed, exactly when present |
| CloudApiDefs.OptDescriptionIdempotent | transformer-cloudapi/defs.ts:27 | trimming a description twice is trimming it once |
| CloudApiDefs.RefCorrector | transformer-cloudapi/defs.ts:20-25 | a reference keeps only its corrected `$ref` and its trimmed description |
| CloudApiDefs.BooleanCorrector | transformer-cloudapi/defs.ts:35-41 | a boolean keeps only its type, trimmed description and default |
| CloudApiDefs.IntegerCorrector | transformer-cloudapi/defs.ts:53-65 | an integer keeps its format only when `int32` or `int64`, plus description, bounds, default and `readOnly`, and nothing else |
| CloudApiDefs.NumberCorrector | transformer-cloudapi/defs.ts:75-85 | a number keeps its format only when `double`, plus description and bounds, and nothing else |
| CloudApiDefs.StringCorrector | transformer-cloudapi/defs.ts:100-116 | a string keeps its format only when `date-time` or `uri`; its `example` becomes the one-element `examples`; description, default, lengths, `readOnly` and pattern are kept and nothing else |
| CloudApiDefs.ItemsCorrector | transformer-cloudapi/defs.ts:136-140 | array items with a `$ref` keep only the corrected reference; any other items become a plain string |
| CloudApiDefs.ArrayCorrector | transformer-cloudapi/defs.ts:131-143 | an array without `items` aborts (the `in` test on an undefined value throws); otherwise it keeps its type, trimmed description, corrected items and item counts only |
| CloudApiDefs.DeepObjectCorrector | transformer-cloudapi/defs.ts:155-167 | a map object keeps its type and description; string values stay plain strings, any other value is corrected as an array, aborting when that array has no items |
| CloudApiDefs.EnumCorrector | transformer-cloudapi/defs.ts:231-238 | an enumeration always becomes a string enumeration with its values, description and default |
| CloudApiDefs.PropertyCorrector | transformer-cloudapi/defs.ts:187-206 | a property is dispatched on `$ref`, then `enum`, then its type; it aborts with `Unexpected object type` exactly when it has none of these |
| CloudApiDefs.PropertyEntry | transformer-cloudapi/defs.ts:187-207 | a property entry keeps its key and is corrected, failing exactly when its value fails |
| CloudApiDefs.ObjectCorrector | transformer-cloudapi/defs.ts:180-222 | an object always gets `type: object`, keeps its trimmed description, `required` and `discriminator`, and its properties corrected one by one; it aborts exactly when a property does |
| CloudApiDefs.AllOfMember | transformer-cloudapi/defs.ts:246-250 | an `allOf` member with a `$ref` keeps only the corrected reference, any other member is corrected as an object |
| CloudApiDefs.AllOfCorrector | transformer-cloudapi/defs.ts:245-254 | an `allOf` keeps its members, one for one and in order, each corrected, and its trimmed description; it aborts exactly when a member does |
| CloudApiDefs.Correct | transformer-cloudapi/defs.ts:269-275 | a definition is corrected as an enumeration when it has `enum`, else as an `allOf` when it has one, else as an object |
| CloudApiDefs.CorrectEntry | transformer-cloudapi/defs.ts:268-276 | a definition entry keeps its key and is corrected, failing exactly when its value fails |
| CloudApiDefs.NormalizeSpec | transformer-cloudapi/defs.ts:256-278 | a page script that binds no `defs` aborts; otherwise the normalisation succeeds exactly when every definition corrects |
| CloudApiDefs.NormalizeDefs | transformer-cloudapi/defs.ts:260-278 | the loop over the definitions yields the specified normalisation, stopping at the first definition that throws |
| CloudApiDefs.CorrectDefinition | transformer-cloudapi/defs.ts:269-275 | the corrector chosen for one definition is the specified one |
| CloudApiDefs.NormalizeStops | transformer-cloudapi/defs.ts:268-276 | the first definition that throws ends the normalisation with its error |
| CloudApiDefs.NormalizeCompletes | transformer-cloudapi/defs.ts:266-278 | when every definition corrects, the result holds every corrected definition in order |
| CloudApiDefs.NormalizeKeys | transformer-cloudapi/defs.ts:266-278 | with distinct keys the normalised definitions have exactly the original keys, each with its corrected value |
| CloudApiDefs.NormalizeFirstError | transformer-cloudapi/defs.ts:268-276 | a failed normalisation carries the error of some definition |
| CloudApiDefs.CorrectPropertiesKeys | transformer-cloudapi/defs.ts:185-215 | with distinct keys the corrected properties have exactly the original keys, each corrected |
| CloudApiDefs.CorrectPropertiesUnique | transformer-cloudapi/defs.ts:208-214 | spreading the corrected properties keeps their keys distinct |
| CloudApiDefs.StringCorrectorIdempotent | transformer-cloudapi/defs.ts:100-116 | correcting a string twice is correcting it once exactly when it has no `example` (the second pass drops the `examples` the first created) |
| CloudApiDefs.ItemsCorrectorIdempotent | transformer-cloudapi/defs.ts:136-140 | correcting items twice is correcting them once |
| CloudApiDefs.ArrayCorrectorIdempotent | transformer-cloudapi/defs.ts:131-143 | correcting an array twice is correcting it once |
| CloudApiDefs.DeepObjectCorrectorIdempotent | transformer-cloudapi/defs.ts:155-167 | correcting a map object twice is correcting it once |
| CloudApiDefs.RefCorrectorIdempotent | transformer-cloudapi/defs.ts:20-25 | correcting a reference twice is correcting it once |
| CloudApiDefs.EnumCorrectorIdempotent | transformer-cloudapi/defs.ts:231-238 | correcting an enumeration twice is correcting it once |
| CloudApiDefs.BooleanCorrectorIdempotent | transformer-cloudapi/defs.ts:35-41 | correcting a boolean twice is correcting it once |
| CloudApiDefs.IntegerCorrectorIdempotent | transformer-cloudapi/defs.ts:53-65 | correcting an integer twice is correcting it once |
| CloudApiDefs.NumberCorrectorIdempotent | transformer-cloudapi/defs.ts:75-85 | correcting a number twice is correcting it once |
| CloudApiDefs.PropertyCorrectorIdempotent | transformer-cloudapi/defs.ts:187-206 | correcting a property without `example` twice is correcting it once |
| CloudApiDefs.CorrectPropertiesIdempotent | transformer-cloudapi/defs.ts:185-215 | correcting properties that carry no `example` twice is correcting them once |
| CloudApiDefs.ObjectCorrectorIdempotent | transformer-cloudapi/defs.ts:180-222 | correcting an object twice is correcting it once when its properties carry no `example` |
| CloudApiDefs.AllOfCorrectorIdempotent | transformer-cloudapi/defs.ts:245-254 | correcting an `allOf` twice is correcting it once when no member property carries an `example` |
| CloudApiDefs.CorrectIdempotent | transformer-cloudapi/defs.ts:269-275 | correcting a definition twice is correcting it once when no property carries an `example` |
| CloudApiDefs.NormalizeIdempotent | transformer-cloudapi/defs.ts:256-278 | normalising normalised definitions changes nothing, when keys are distinct and no property carries an `example` |
| CloudApiPaths.BodyRows | transformer-cloudapi/paths.ts:38 | the rows after the header row, in order |
| CloudApiPaths.RowParameter | transformer-cloudapi/paths.ts:41-56 | a row gives a parameter exactly when it has both a first cell and a `.type` cell; the parameter is a required path parameter, named by the first `*`-separated piece of the first cell, typed by the trimmed, lower-cased type text |
| CloudApiPaths.TableParameters | transformer-cloudapi/paths.ts:35-58 | only a table whose preceding element reads "Path parameters" contributes, with the parameters of its body rows |
| CloudApiPaths.ArticleEntry | transformer-cloudapi/paths.ts:19-60 | an article contributes an entry exactly when it shows a route, mapping the route to its parameters |
| CloudApiPaths.CollectRows | transformer-cloudapi/paths.ts:38-57 | the loop over a table's rows appends exactly that table's parameters |
| CloudApiPaths.Paths | transformer-cloudapi/paths.ts:3-63 | the loops over articles and tables assign, route by route, the specified entries |
| CloudApiPaths.LastArticleWins | transformer-cloudapi/paths.ts:17-61 | a route is present exactly when some article shows it, and it holds the parameters of the last such article, without merging |
| CloudApiPaths.ParameterOrder | transformer-cloudapi/paths.ts:33-59 | parameters keep table order, then row order |
| CloudApiPaths.ParametersArePath | transformer-cloudapi/paths.ts:51-56 | every parameter is a required path parameter whose name holds no `*` |
| DetailPage.Filter | transformer/src/parsers/doc/detail_page.rs:23-33 | every value listed under the key is returned, and only values listed under the key |
| DetailPage.Find | transformer/src/parsers/doc/detail_page.rs:19-21 | nothing is found exactly when no entry has the key; otherwise the value of the first entry with the key |
| DetailPage.FindIsFirstOfFilter | transformer/src/parsers/doc/detail_page.rs:19-33 | `find` is the first element of `filter` |
| DetailPage.FilterNonEmpty | transformer/src/parsers/doc/detail_page.rs:23-33 | `filter` yields something exactly when some entry has the key |
| DetailPage.FilterAppend | transformer/src/parsers/doc/detail_page.rs:23-33 | filtering a concatenated list filters each part in turn |
| DetailPage.Entries | transformer/src/parsers/doc/detail_page.rs:40-43 | the selected entries are exactly the `dt` and `dd` children of the element |
| DetailPage.EntriesInOrder | transformer/src/parsers/doc/detail_page.rs:40-43 | one more child is selected, at the end, exactly when it is a `dt` or a `dd`, so the entries keep document order |
| DetailPage.Preamble | transformer/src/parsers/doc/detail_page.rs:83-90 | the text before the first `<dl>`, trimmed, and absent exactly when that is empty |
| DetailPage.ParseDefinitionList | transformer/src/parsers/doc/detail_page.rs:39-56 | the loop over the `dt`/`dd` children yields the specified fold |
| DetailPage.FoldSnoc | transformer/src/parsers/doc/detail_page.rs:44-54 | one more entry either keeps an earlier failure or takes one step of the fold |
| DetailPage.FoldStops | transformer/src/parsers/doc/detail_page.rs:44-54 | the fold ends with the first failure |
| DetailPage.LastTitleWins | transformer/src/parsers/doc/detail_page.rs:46-51 | of two titles in a row the second is paired with the next value, and the first is dropped |
| DetailPage.TitledEntryAdds | transformer/src/parsers/doc/detail_page.rs:48-51 | a `dd` after a title adds the pair of that title and its value and clears the title |
| DetailPage.TrailingTitleAddsNothing | transformer/src/parsers/doc/detail_page.rs:47 | a `dt` only sets the pending title |
| DetailPage.UntitledEntryFails | transformer/src/parsers/doc/detail_page.rs:52 | a `dd` without a pending title is `UnexpectedEntry` |
| DetailPage.ValueKinds | transformer/src/parsers/doc/detail_page.rs:80-99 | a value is plain text exactly when the element has no `dl` child; plain text is the preamble, empty when there is none; a sublist keeps the preamble as it is |
| DetailPage.AsText | transformer/src/parsers/doc/detail_page.rs:107-112 | plain text gives its text, a sublist its preamble |
| DetailPage.AsSublist | transformer/src/parsers/doc/detail_page.rs:114-119 | exactly a value with a sublist gives it |
| DetailPage.TextToMarkdown | transformer/src/parsers/doc/detail_page.rs:103-105 | present exactly when the value has text, and then the Markdown rendering of that text, trimmed |
| DetailPage.ToInnerText | transformer/src/parsers/doc/detail_page.rs:121-128 | present exactly when the value has text, and then the inner text of that text |
| DetailPage.MarkdownOf | transformer/src/parsers/doc/detail_page.rs:19-105 | present exactly when the key is found and its first value has text, and then that text converted by `md` and trimmed |
| DetailPage.ParsedTextPresent | transformer/src/parsers/doc/detail_page.rs:80-119 | a parsed plain-text value always has text and never a sublist |
| DetailPage.ParseDetailPage | transformer/src/parsers/doc/detail_page.rs:152-203 | a missing title, heading or list is reported, in that order; otherwise the page holds the title text, the heading text and the parsed list |
| Operation.ParseMethod | transformer/src/parsers/doc/operation.rs:27-39 | a method token reads back to a method written as that token; any other token is `UnknownMethodError` carrying it, and no method is written as it |
| Operation.ParseMethodName | transformer/src/parsers/doc/operation.rs:27-39 | every method reads back from its token |
| Operation.HtmlToMimes | transformer/src/parsers/doc/operation.rs:83-87 | exactly the pieces between `<br>` that are neither empty nor `None`, in order and with repeats, as the filter of the split |
| Operation.SingleMime | transformer/src/parsers/doc/operation.rs:83-87 | one media type without `<br>` reads as itself |
| Operation.MatchingValue | transformer/src/parsers/doc/operation.rs:139-146 | absent exactly when no example's media type equals the declared one ignoring ASCII case; otherwise the value of such an example |
| Operation.MergeMimes | transformer/src/parsers/doc/operation.rs:132-157 | one pair per declared media type, in order, paired with the matching example's element or with the empty string |
| Operation.MergeWithoutExamples | transformer/src/parsers/doc/operation.rs:132-157 | without examples every declared media type is paired with the empty string |
| Operation.ExamplesMimes | transformer/src/parsers/doc/operation.rs:112-130 | present exactly when `Examples` is found with a sublist; then the distinct pairs are exactly those an entry keyed `Request` or `Response` (the key asked for) gives when both its media type and its element can be read from its text, kept in order of first occurrence |
| Operation.DeclaredMimes | transformer/src/parsers/doc/operation.rs:186-212 | present exactly when the section and its inner key have text; then exactly the distinct `<br>`-separated pieces of that text that are neither empty nor `None`, in order of first occurrence |
| Operation.Contents | transformer/src/parsers/doc/operation.rs:186-217 | empty unless both the declared media types and the examples are present; then one pair per declared media type, in order, with the element of the first example whose media type matches it ignoring case, or `""` |
| Operation.QueryFoldSnoc | transformer/src/parsers/doc/operation.rs:237-251 | the fold over one more entry takes one step |
| Operation.CollectQueryParameters | transformer/src/parsers/doc/operation.rs:234-253 | the loop over the query-parameter sublist yields the parameters of the specified fold |
| Operation.ParameterThenDocumentation | transformer/src/parsers/doc/operation.rs:239-248 | `Parameter` then `Documentation` emits one parameter of that name, without description exactly when the documentation is empty |
| Operation.OrphanDocumentationIgnored | transformer/src/parsers/doc/operation.rs:249 | `Documentation` without a pending name changes nothing |
| Operation.ParameterNamesFromEntries | transformer/src/parsers/doc/operation.rs:237-251 | every emitted parameter, and the pending name, comes from a `Parameter` entry |
| Operation.QueryParameters | transformer/src/parsers/doc/operation.rs:230-254 | none without a `Query parameters` sublist; otherwise the parameters the `Parameter`/`Documentation` fold completes over the sublist's text entries |
| Operation.Tag | transformer/src/parsers/doc/operation.rs:178-184 | `extension` exactly for paths under `/admin/extension`, `admin` exactly for the other paths under `/admin`, `user` exactly for the rest |
| Operation.Deprecated | transformer/src/parsers/doc/operation.rs:228 | deprecated exactly when some entry is `Deprecated:` |
| Operation.FromDetailPage | transformer/src/parsers/doc/operation.rs:159-269 | each error holds exactly when the earlier checks pass and its own fails, in the order method missing, method unknown, no space in the heading, no description; success exactly when all pass, with the method the first word, the path after the first space, and every other field the one its section gives |
| Operation.ParseOperation | transformer/src/parsers/doc/operation.rs:75-81 | a page error is reported as such; otherwise the operation of the parsed page |
| Operation.ContentKey | transformer/src/parsers/doc/operation.rs:279-306 | the bare media type as versioned JSON, ending in `;version=` and the API version |
| Operation.ContentLookup | transformer/src/parsers/doc/operation.rs:271-340 | a content entry is present only for a mapped media type, and the element mapping wins over the type mapping |
| Operation.ContentKeysVersioned | transformer/src/parsers/doc/operation.rs:271-317 | every content key is the versioned form of one of the media types |
| Operation.ToOpenApi | transformer/src/parsers/doc/operation.rs:319-402 | the operation keeps its description, tag and deprecation; a request body, always required, exactly when the request content is not empty; one `2XX` response described by the output section or `success`; one security requirement, basic or bearer, with an empty scope list; one optional form query parameter per query parameter, referring to its `query-parameter_` schema |
| Query.SplitAtFirst | transformer/src/parsers/doc/query.rs:52 | splitting on `>` gives a second piece exactly when the text holds `>`, and that piece runs from the first `>` to the next |
| Query.RecordResult | transformer/src/parsers/doc/query.rs:51-52 | present exactly when the text ends in `</a>)` and holds a `>` before it; then the second piece between `>`, which holds no `>` |
| Query.RecordResultOfLink | transformer/src/parsers/doc/query.rs:51-52 | the record result of a link `tag>Name</a>)` is `Name` |
| Query.FromDetailPage | transformer/src/parsers/doc/query.rs:32-61 | a missing type name, description or record result is reported, in that order; otherwise the query holds the type name verbatim, the Markdown description and the record result |
| Query.TypeName | transformer/src/parsers/doc/query.rs:36-41 | present exactly when `Type Name:` is found with text, and then that text |
| Query.RecordResultOf | transformer/src/parsers/doc/query.rs:47-54 | a record result comes only from the text of the first `Record Result:` entry, and when that text exists the result is the record result read from it |
| Query.ParseQuery | transformer/src/parsers/doc/query.rs:24-30 | a page error is reported as such; otherwise the query of the parsed page |
| DocType.TrimmedPieces | transformer/src/parsers/doc/type.rs:49 | one piece per comma-separated part, each trimmed |
| DocType.PiecesHaveNoComma | transformer/src/parsers/doc/type.rs:49 | no element name holds a comma |
| DocType.Elements | transformer/src/parsers/doc/type.rs:44-50 | the trimmed pieces without repeats: distinct, each a piece, and every piece present; ElementsOrder gives the order |
| DocType.ElementsOrder | transformer/src/parsers/doc/type.rs:44-50 | the elements are listed in the order in which they first occur among the pieces |
| DocType.TrimKeepsFree | transformer/src/parsers/doc/type.rs:49 | trimming never introduces a separator |
| DocType.SingleElement | transformer/src/parsers/doc/type.rs:44-50 | a text without comma is the one trimmed element |
| DocType.Name | transformer/src/parsers/doc/type.rs:72-78 | the type name, prefixed exactly when the namespace is one of the four known ones, with that namespace's prefix |
| DocType.PrefixesDistinct | transformer/src/parsers/doc/type.rs:72-78 | different known namespaces have different prefixes, each ending in `_` |
| DocType.InnerTextOf | transformer/src/parsers/doc/type.rs:51-71 | empty when the key is missing or its first value has no text; otherwise the inner text of that value |
| DocType.FromDetailPage | transformer/src/parsers/doc/type.rs:39-89 | the page is `CannotFindElementsError` exactly when neither `Element:` nor, only when that is missing, `Elements:` gives text; otherwise the type is the heading, the name its prefixed form, the elements those of that text, namespace and parent the inner texts, the description the text or empty, and the media types present exactly when listed |
| DocType.ParseDocType | transformer/src/parsers/doc/type.rs:31-37 | a page error is reported as such; otherwise the type of the parsed page |
| LandingOperations.Method | transformer/src/parsers/doc/landing_gen_operations.rs:15-21 | the first word of the route, and `Failed to get method` exactly when there is none |
| LandingOperations.Path | transformer/src/parsers/doc/landing_gen_operations.rs:23-29 | the second word of the route, and `Failed to get path` exactly when there is none |
| LandingOperations.LaterWordsIgnored | transformer/src/parsers/doc/landing_gen_operations.rs:14-30 | the method and path are the first two words, whatever follows them |
| LandingOperations.FirstTwoWords | transformer/src/parsers/doc/landing_gen_operations.rs:15-29 | a route `m p rest` splits into `m`, `p` and the words of `rest` |
| LandingOperations.SplitWord | transformer/src/parsers/doc/landing_gen_operations.rs:17-18 | a word followed by a space is the first word |
| RestPaths.PathParameterNames | transformer/src/paths.rs:17-50 | each name captured by `\{([^}]+)}` is non-empty and holds no `}` |
| RestPaths.NoBraceNoParameter | transformer/src/paths.rs:45-47 | a route without `{` has no path parameters |
| RestPaths.ParameterAfterText | transformer/src/paths.rs:45-50 | a `{name}` segment after text without braces yields `name` before the parameters of the rest |
| RestPaths.PathParameters | transformer/src/paths.rs:43-70 | one required parameter per captured name, in order |
| RestPaths.SetSlot | transformer/src/paths.rs:81-86 | the method's slot is set; the parameters and the other slots are unchanged |
| RestPaths.BuildPaths | transformer/src/paths.rs:28-89 | the loop over the parsed pages yields the specified path map, or the error of the first page that fails to convert |
| RestPaths.AddOperation | transformer/src/paths.rs:39-87 | one operation is skipped unless its path starts with `/`; otherwise its path item is created if missing and its method's slot is set |
| RestPaths.FirstFailure | transformer/src/paths.rs:37-38 | the first page that fails to convert decides the error |
| RestPaths.TryMapAll | transformer/src/paths.rs:30-38 | when every page converts, the operations are those of the pages, in order |
| RestPaths.StepKeepsParameters | transformer/src/paths.rs:42-87 | adding an operation keeps every path item's parameters those of its route |
| RestPaths.FoldKeepsParameters | transformer/src/paths.rs:42-87 | a route's parameters are those of the route itself; later operations on it never change them |
| RestPaths.FoldRoutes | transformer/src/paths.rs:39-43 | the routes are exactly the operation paths starting with `/` |
| RestPaths.StepRoutes | transformer/src/paths.rs:39-43 | one operation adds at most its own path, and only when it starts with `/` |
| RestPaths.LastOperation | transformer/src/paths.rs:30-88 | the last operation on the route with the method, when there is one, and none exactly when no operation has both |
| RestPaths.FoldSlots | transformer/src/paths.rs:30-88 | each slot holds the rendering of the last operation on its route with its method, and is empty when there is none |
| RestPaths.FreshItemSlots | transformer/src/paths.rs:39-43 | a route not yet in the map has no earlier operations |
| RestPaths.StepOtherRoute | transformer/src/paths.rs:39-87 | an operation on another route, or skipped, leaves a route's item unchanged |
| RestPaths.StepSameRoute | transformer/src/paths.rs:42-87 | an operation on a route sets its method's slot and keeps the other slots, which are empty for a new route |
| ComponentSchemas.SubclassOf | transformer/src/schema_tweaks/metadata_superclass.rs:9-17 | a key is selected exactly when it is `vcloud_` followed by a name with the given start and end other than the excluded one, and then yields the key and that name |
| ComponentSchemas.Subclasses | transformer-rest-api/src/schema_tweaks/query_superclass.rs:8-22 | every selected pair names a key of the map and its `vcloud_`-stripped name, which has the given start and end and is not excluded; every selectable key is selected; SubclassesSnoc gives the map order |
| ComponentSchemas.SubclassesSnoc | transformer-rest-api/src/schema_tweaks/query_superclass.rs:8-22 | one more map entry appends its subclass pair, when selected, at the end, so subclasses keep map order |
| ComponentSchemas.Superclass | transformer/src/schema_tweaks/metadata_superclass.rs:20-43 | the superclass is a `oneOf` of one reference per subclass, in order, with a `_type` discriminator and otherwise default data |
| ComponentSchemas.SuperclassMapping | transformer-rest-api/src/schema_tweaks/query_superclass.rs:35-42 | the discriminator maps exactly the subclass names, each to the reference of its own `vcloud_` schema |
| ComponentSchemas.WithObject | transformer/src/schema_tweaks/metadata_superclass.rs:51-64 | rewriting an inline object's properties keeps its schema data and its `additionalProperties` |
| ComponentSchemas.FirstObjectIndex | transformer/src/schema_tweaks/metadata_superclass.rs:51-57 | the position of the first inline object of an `allOf`, and none exactly when there is no inline object |
| ComponentSchemas.UpdateFirstObject | transformer-rest-api/src/schema_tweaks/query_superclass.rs:69-106 | only the first inline object of an `allOf` is rewritten; the other members are unchanged, and nothing changes without one |
| ComponentSchemas.UpdateFirstObjectAgain | transformer-rest-api/src/schema_tweaks/query_superclass.rs:69-75 | after the rewrite the same member is still the first inline object |
| ComponentSchemas.InsertPresent | transformer/src/schema_tweaks/metadata_superclass.rs:79 | inserting the value a key already has changes nothing |
| ComponentSchemas.GetMapValues | transformer/src/schema_tweaks/metadata_superclass.rs:45-67 | looking up a key after rewriting every value gives the rewritten value |
| MetadataSuperclass.RetypeTypedValue | transformer/src/schema_tweaks/metadata_superclass.rs:58-64 | an inline `typedValue` property becomes `allOf` the superclass alone, keeping its schema data; every other property and the key order are unchanged, and nothing changes without an inline `typedValue` |
| MetadataSuperclass.RewriteTypedValue | transformer/src/schema_tweaks/metadata_superclass.rs:45-67 | only an inline `allOf` schema is touched: it keeps its data, and its first inline object member has `typedValue` retyped |
| MetadataSuperclass.RetypeIdempotent | transformer/src/schema_tweaks/metadata_superclass.rs:58-64 | retyping twice is retyping once |
| MetadataSuperclass.RewriteIdempotent | transformer/src/schema_tweaks/metadata_superclass.rs:45-67 | rewriting a schema twice is rewriting it once |
| MetadataSuperclass.TagBase | transformer/src/schema_tweaks/metadata_superclass.rs:69-91 | tagging keeps the base an inline object with its schema data |
| MetadataSuperclass.TypeEnumeration | transformer/src/schema_tweaks/metadata_superclass.rs:79-86 | the `_type` property is a string enumeration of the type names, in order, with default data |
| MetadataSuperclass.AddMetadataSuperclass | transformer/src/schema_tweaks/metadata_superclass.rs:6-92 | the caller's map becomes the specified one: the superclass inserted, every value rewritten, the base tagged |
| MetadataSuperclass.RewriteAll | transformer/src/schema_tweaks/metadata_superclass.rs:45-67 | the loop over the values rewrites each of them in place and keeps the keys and their order |
| MetadataSuperclass.TypeRequiredOnce | transformer/src/schema_tweaks/metadata_superclass.rs:88-90 | `_type` ends up required exactly once when it was listed at most once, and is appended only when missing |
| MetadataSuperclass.TypePropertyIfAbsent | transformer/src/schema_tweaks/metadata_superclass.rs:79-87 | an existing `_type` property is kept, otherwise the enumeration is added; other properties are untouched |
| MetadataSuperclass.SuperclassInserted | transformer/src/schema_tweaks/metadata_superclass.rs:20-43 | afterwards the superclass of the metadata value types sits under `MetadataTypedValue` |
| MetadataSuperclass.TagBaseOther | transformer/src/schema_tweaks/metadata_superclass.rs:69-77 | tagging touches no entry other than the base |
| MetadataSuperclass.OtherEntriesRewritten | transformer/src/schema_tweaks/metadata_superclass.rs:45-67 | every other entry holds its old value with `typedValue` retyped |
| MetadataSuperclass.BaseTagged | transformer/src/schema_tweaks/metadata_superclass.rs:45-91 | the base type is tagged when it is an inline object, and otherwise only rewritten like the rest |
| QuerySuperclass.TypeEnumeration | transformer-rest-api/src/schema_tweaks/query_superclass.rs:53-61 | the `_type` property is a string enumeration of the record type names, in order, with default data |
| QuerySuperclass.AddContainerLists | transformer-rest-api/src/schema_tweaks/query_superclass.rs:76-105 | `record`, an array of the superclass, and `reference`, an array of `vcloud_ReferenceType`, are added only when absent; other properties are untouched |
| QuerySuperclass.AddQuerySuperclass | transformer-rest-api/src/schema_tweaks/query_superclass.rs:7-108 | the caller's map becomes the specified one: the superclass inserted, the base tagged, the container extended |
| QuerySuperclass.TagBase | transformer-rest-api/src/schema_tweaks/query_superclass.rs:48-62 | the step that tags the base leaves the map tagged as specified |
| QuerySuperclass.AddListsToContainer | transformer-rest-api/src/schema_tweaks/query_superclass.rs:64-107 | the step that extends the container leaves the map extended as specified |
| QuerySuperclass.TagBaseOther | transformer-rest-api/src/schema_tweaks/query_superclass.rs:48-62 | tagging touches no entry other than the base |
| QuerySuperclass.ExtendContainerOther | transformer-rest-api/src/schema_tweaks/query_superclass.rs:64-107 | extending touches no entry other than the container |
| QuerySuperclass.SuperclassInserted | transformer-rest-api/src/schema_tweaks/query_superclass.rs:24-46 | afterwards the superclass of the record types sits under `QueryResultRecordType`, and every entry other than it, the base and the container is unchanged |
| QuerySuperclass.BaseTagged | transformer-rest-api/src/schema_tweaks/query_superclass.rs:48-62 | an inline-object base gains the `_type` enumeration unless it has that property and keeps its data, required list and other properties; a base of another shape, or none, is left as it was |
| QuerySuperclass.ContainerExtended | transformer-rest-api/src/schema_tweaks/query_superclass.rs:64-107 | in an `allOf` container the first inline object gains the two lists; any other container shape, or none, is left as it was |
| StubOvf.Wrapping | transformer/src/schema_tweaks/stub_ovf.rs:9-33 | an object with default data whose only property is the given inline schema and which requires nothing |
| StubOvf.AddStubs | transformer/src/schema_tweaks/stub_ovf.rs:4-98 | the caller's map becomes the specified one: the three stubs inserted in order |
| StubOvf.StubsInserted | transformer/src/schema_tweaks/stub_ovf.rs:4-98 | afterwards `ovf_Section_Type`, `ovf_Item` and `ovf_RASD_Type` hold the stub, whatever they held before, and every other key keeps its value |
| StubOvf.StubShape | transformer/src/schema_tweaks/stub_ovf.rs:5-35 | the stub's only property `info` is an inline object whose only property `value` is a plain string |
| StubOvf.StubOvfIdempotent | transformer/src/schema_tweaks/stub_ovf.rs:4-98 | stubbing twice is stubbing once |
| QueryParameterSchemas.QueryTypeNames | transformer/src/schema_tweaks/query_parameters.rs:114 | one enumeration value per query, its name, in input order |
| QueryParameterSchemas.Entries | transformer/src/schema_tweaks/query_parameters.rs:7-122 | thirteen entries are added |
| QueryParameterSchemas.AddQueryParameters | transformer/src/schema_tweaks/query_parameters.rs:6-123 | the caller's map becomes the specified one: the thirteen entries inserted in order |
| QueryParameterSchemas.ParameterNames | transformer/src/schema_tweaks/query_parameters.rs:8-118 | the parameters are `force`, `recursive`, `fields`, `filter`, `filterEncoded`, `format`, `links`, `offset`, `page`, `pageSize`, `sortAsc`, `sortDesc` and `type`, in that order |
| QueryParameterSchemas.EntryKeysDistinct | transformer/src/schema_tweaks/query_parameters.rs:8-121 | the thirteen keys are distinct |
| QueryParameterSchemas.LastValueAt | transformer/src/schema_tweaks/query_parameters.rs:7-122 | with distinct keys each entry is the last one for its key |
| QueryParameterSchemas.ParameterAdded | transformer/src/schema_tweaks/query_parameters.rs:7-122 | afterwards each `query-parameter_` key holds its parameter's schema |
| QueryParameterSchemas.OtherKeysUntouched | transformer/src/schema_tweaks/query_parameters.rs:7-122 | every other key keeps its value |
| QueryParameterSchemas.ExactlyThirteenAdded | transformer/src/schema_tweaks/query_parameters.rs:7-122 | on a map without those keys the entries are appended in order, thirteen more |
| QueryParameterSchemas.TypeEnumeratesQueries | transformer/src/schema_tweaks/query_parameters.rs:109-118 | `type` enumerates the query names in input order |
| QueryParameterSchemas.FormatEnumeration | transformer/src/schema_tweaks/query_parameters.rs:44-56 | `format` enumerates `references`, `records` and `idrecords` |
| QueryParameterSchemas.PagingBounds | transformer/src/schema_tweaks/query_parameters.rs:64-94 | `offset` is at least 0, `page` at least 1, `pageSize` between 1 and 128 |
| QueryParameterSchemas.FlagsAreBoolean | transformer/src/schema_tweaks/query_parameters.rs:9-63 | `force`, `recursive`, `filterEncoded` and `links` are booleans |
| QueryParameterSchemas.FreeTextParameters | transformer/src/schema_tweaks/query_parameters.rs:23-108 | `fields`, `filter`, `sortAsc` and `sortDesc` are plain strings |

## Left out

- JavaScript lists integer-like keys (array indices) of an object first, in numeric order, before its other keys in insertion order. The model keeps insertion order for every key, so for `Object.entries` (defs.ts:186 and 268) and the object spread (defs.ts:208-212) it holds only for definitions and properties whose names are not array indices.
- Reading the zip archive, the HTML text and the files, sorting the file names, and writing the output. `RestPaths.BuildPaths` takes the parsed pages already in name order. The regular-expression rewrites that `DetailPage::try_from` applies to the raw HTML before parsing (`detail_page.rs:156-166`) operate on text the model never sees.
- CSS-selector compilation errors (`SelectorParseError`). The selectors are constants, so these never happen.
- HTML parsing, `html2md` and `scraper` text extraction. They are parameters, as described above.
- The `unhtml` extraction of the landing table (`landing_gen_operations.rs:3-42`). A `RawOperation` is given directly.
- The page evaluation in `defs.ts`:
  - Running the page script in a `vm` context is out; its `defs` binding is a parameter, and a missing `defs` is the `MissingDefs` error.
  - The `?? ""` fallback on the script text makes its `undefined` check dead code.
- CloudApiDefs.NumberCorrector: numbers (`minimum`, `maximum`, `minLength`, `maxItems` and so on) are `real` values copied as they are. JavaScript's floating-point semantics play no part in the correctors.
- RestPrimitiveType.ToType: for `xs:double` and `xs:float` the schema keeps only the number format. The `minimum` and `enumeration` read by `str::parse::<f64>` (`primitive_type.rs:93-112`) are not modelled, because parsing floating-point numbers is out of scope. Integer bounds and enumerations are modelled, with 64-bit range checks.
- Strings.AsciiLowercase: `toLowerCase` in `paths.ts` is modelled as ASCII lower-casing. Unicode case mapping is not modelled.
- ComplexType.ToSchema: `complex_type.rs:144` wraps the description in `Some(..)`, which type-checks only against an `Annotation` whose description is a plain `String`. The model's annotation carries an optional description, as `annotation.rs` builds it, and the schema takes that option as it is.
- ComplexType.ToSchema: `Schema::from(&SequenceElement)` is not part of this model. The schema of each sequence element is a parameter (`elementSchema`).
- Field.ToSchema: the tests in `field.rs` expect `readOnly: true` for fields marked as not modifiable. The annotation reader shown never sets `modifiable`, so `Field.ParsedFieldsNotReadOnly` proves that parsed fields are never read-only. The mapping from `modifiable` to `readOnly` is still modelled.
- QuerySuperclass.TypeEnumeration: `query_superclass.rs:57` collects the names as a `Vec<String>`, which does not match the `Vec<Option<String>>` type of the `enumeration` field it fills. The model follows `metadata_superclass.rs:83`, which wraps each name in `Some`.
- The XSD readers pass a target namespace down to the type and schema readers, and it prefixes every type name. The namespace is a parameter of `XsdType.Parse` and `XsdSchema.Parse`. How the caller derives it from the file name is not part of this model.
- Idempotence of the `defs.ts` normalisation does not hold in general. The correctors are sometimes described as idempotent, but a string property with an `example` gets `examples` on the first pass, and the second pass drops them. `CloudApiDefs.StringCorrectorIdempotent` proves idempotence holds exactly when there is no `example`. The idempotence lemmas for objects, `allOf`s, definitions and the whole normalisation assume that, and that property keys are distinct.
- `paths.ts` is sometimes described as merging articles that share a route. The code assigns `pathItems[route]`, so the last article with a route wins and only its parameters remain. The model follows the code (`CloudApiPaths.LastArticleWins`).
- `query.rs:52` takes the piece between the first and the second `>`, not everything after the first `>`. The model follows the code (`Query.RecordResult`).
