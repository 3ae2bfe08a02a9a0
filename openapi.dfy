/** The part of the OpenAPI 3.0 object model (section 4.7 of the OpenAPI
    Specification 3.0: Schema, Reference, Discriminator, Media Type,
    Operation, Parameter and Path Item objects) that the generators build,
    following the shapes of the `openapiv3` crate. */
module OpenApi {
  import opened Wrappers
  import opened IndexMaps

  /** The prefix every component-schema reference carries. */
  const ComponentsPrefix: string := "#/components/schemas/"

  function ComponentRef(name: string): (r: string)
    ensures |r| == |ComponentsPrefix| + |name|
    ensures r[..|ComponentsPrefix|] == ComponentsPrefix && r[|ComponentsPrefix|..] == name
  {
    ComponentsPrefix + name
  }

  /** `ReferenceOr<T>`. */
  datatype RefOr<+T> = Ref(reference: string) | Item(item: T)

  datatype Discriminator = Discriminator(propertyName: string, mapping: IndexMap<string, string>)

  /** `SchemaData`: only the members the generators set. */
  datatype SchemaData = SchemaData(
    nullable: bool,
    readOnly: bool,
    deprecated: bool,
    title: Option<string>,
    description: Option<string>,
    discriminator: Option<Discriminator>)

  /** `SchemaData::default()`. */
  const DefaultData: SchemaData := SchemaData(false, false, false, None, None, None)

  datatype StringFormat = NoStringFormat | DateTimeFormat | ByteFormat | UnknownFormat(format: string)
  datatype NumberFormat = NoNumberFormat | FloatFormat | DoubleFormat
  datatype IntegerFormat = NoIntegerFormat | Int32Format | Int64Format

  datatype Type =
    | StringType(format: StringFormat, pattern: Option<string>, enumeration: seq<Option<string>>)
    | NumberType(numberFormat: NumberFormat)
    | IntegerType(integerFormat: IntegerFormat, minimum: Option<int>, maximum: Option<int>, integers: seq<int>)
    | ObjectType(properties: IndexMap<string, RefOr<Schema>>, required: seq<string>, additionalProperties: Option<bool>)
    | ArrayType(items: RefOr<Schema>)
    | BooleanType

  datatype SchemaKind =
    | TypeKind(schemaType: Type)
    | OneOf(oneOf: seq<RefOr<Schema>>)
    | AllOf(allOf: seq<RefOr<Schema>>)

  datatype Schema = Schema(data: SchemaData, kind: SchemaKind)

  /** `StringType::default()`. */
  const PlainString: Type := StringType(NoStringFormat, None, [])

  /** `ObjectType::default()` with the given properties. */
  function PlainObject(properties: IndexMap<string, RefOr<Schema>>): (r: Type)
    ensures r.ObjectType? && r.properties == properties && r.required == [] && r.additionalProperties.None?
  {
    ObjectType(properties, [], None)
  }

  /** A schema with default data and the given type. */
  function Bare(t: Type): (r: Schema)
    ensures r.data == DefaultData && r.kind == TypeKind(t)
  {
    Schema(DefaultData, TypeKind(t))
  }

  /** The component-schema map: `IndexMap<String, ReferenceOr<Schema>>`. */
  type Schemas = IndexMap<string, RefOr<Schema>>
}
