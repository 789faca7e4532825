/**
 * The data model of the table-schema compiler: the annotated field
 * descriptions it reads, the errors it reports, and the create-table
 * request it produces (the DynamoDB CreateTable input, with its wire
 * codes "S"/"N"/"B", "HASH"/"RANGE" and "ALL"/"KEYS_ONLY"/"INCLUDE").
 */
module Schema {
  import opened Wrappers

  /** Go's int64, the type of capacity units. */
  newtype int64 = x: int | -0x8000_0000_0000_0000 <= x < 0x8000_0000_0000_0000

  /** The Go type of a field, reduced to what decides its attribute type. */
  datatype NativeType =
    | GoString     // string
    | GoTime       // time.Time
    | GoInteger    // int, int8 .. int64, uint .. uint64
    | GoFloat      // float32, float64
    | GoBytes      // []byte
    | GoOther      // anything else: bool, structs, maps, ...

  /** The three attribute types of the storage engine. */
  datatype AttrKind = StringKind | NumberKind | BinaryKind

  /** Role of an attribute in a key schema. */
  datatype KeyRole = Hash | Range

  /** Global secondary index (the `index` tag) or local one (the `localIndex` tag). */
  datatype IndexKind = Global | Local

  /** One parsed `index:"name,role"` or `localIndex:"name,role"` tag entry. */
  datatype Membership = Membership(index: string, kind: IndexKind, role: KeyRole)

  /**
   * One entry of a struct declaration, with its tags already parsed.
   * `tagName` is the name part of the `dynamo` tag ("" when absent,
   * "-" to ignore the field); `primary` is its `hash`/`range` part.
   * `Embedded` is an anonymous embedded struct whose fields are promoted;
   * `ignored` when the embedding itself is tagged `dynamo:"-"`.
   */
  datatype FieldDecl =
    | Field(goName: string, tagName: string, goType: NativeType,
            primary: Option<KeyRole>, memberships: seq<Membership>)
    | Embedded(ignored: bool, fields: seq<FieldDecl>)

  /** A field after flattening: its attribute name and its key metadata. */
  datatype KeyField = KeyField(name: string, goType: NativeType,
                               primary: Option<KeyRole>, memberships: seq<Membership>)

  /** The three projection types an index may have. */
  datatype ProjectionType = AllProjection | KeysOnlyProjection | IncludeProjection

  /** Which key schema an error is about. */
  datatype SchemaName = TableKey | IndexKey(name: string)

  /** Why a table definition cannot be built. */
  datatype BuildError =
    | AmbiguousName(name: string)
    | UnsupportedKeyType(field: string)
    | ConflictingTypes(attribute: string)
    | MissingHashKey(schema: SchemaName)
    | MultipleHashKeys(schema: SchemaName)
    | MultipleRangeKeys(schema: SchemaName)
    | MissingRangeKey(index: string)
    | ForeignLocalHashKey(index: string)
    | MixedIndexKind(index: string)
    | UnknownIndex(index: string)
    | NotGlobalIndex(index: string)
    | IncludeWithoutAttributes(index: string)
    | AttributesWithoutInclude(index: string)
    | NonPositiveUnits

  // ---- the create-table request, as the storage engine receives it ----

  datatype AttributeDefinition = AttributeDefinition(attributeName: string, attributeType: string)

  datatype KeySchemaElement = KeySchemaElement(attributeName: string, keyType: string)

  datatype Projection = Projection(projectionType: string, nonKeyAttributes: seq<string>)

  datatype ProvisionedThroughput =
    ProvisionedThroughput(readCapacityUnits: int64, writeCapacityUnits: int64)

  datatype GlobalSecondaryIndex = GlobalSecondaryIndex(
    indexName: string,
    keySchema: seq<KeySchemaElement>,
    projection: Projection,
    provisionedThroughput: ProvisionedThroughput)

  datatype LocalSecondaryIndex = LocalSecondaryIndex(
    indexName: string,
    keySchema: seq<KeySchemaElement>,
    projection: Projection)

  datatype CreateTableInput = CreateTableInput(
    attributeDefinitions: seq<AttributeDefinition>,
    globalSecondaryIndexes: seq<GlobalSecondaryIndex>,
    keySchema: seq<KeySchemaElement>,
    localSecondaryIndexes: seq<LocalSecondaryIndex>,
    provisionedThroughput: ProvisionedThroughput,
    tableName: string)

  // ---- wire codes ----

  function KindCode(k: AttrKind): string {
    match k
    case StringKind => "S"
    case NumberKind => "N"
    case BinaryKind => "B"
  }

  function RoleCode(r: KeyRole): string {
    match r
    case Hash => "HASH"
    case Range => "RANGE"
  }

  function ProjectionCode(p: ProjectionType): string {
    match p
    case AllProjection => "ALL"
    case KeysOnlyProjection => "KEYS_ONLY"
    case IncludeProjection => "INCLUDE"
  }

  /** The attribute type a Go type is stored as; None for a type that cannot be a key. */
  function KindOf(t: NativeType): Option<AttrKind> {
    match t
    case GoString => Some(StringKind)
    case GoTime => Some(StringKind)
    case GoInteger => Some(NumberKind)
    case GoFloat => Some(NumberKind)
    case GoBytes => Some(BinaryKind)
    case GoOther => None
  }

  /** A key schema in the engine's order: the hash element, then the range element if any. */
  function KeySchemaOf(hash: string, range: Option<string>): (ks: seq<KeySchemaElement>)
    ensures 1 <= |ks| <= 2
    ensures ks[0] == KeySchemaElement(hash, "HASH")
    ensures |ks| == 2 <==> range.Some?
    ensures |ks| == 2 ==> ks[1] == KeySchemaElement(range.value, "RANGE")
  {
    [KeySchemaElement(hash, RoleCode(Hash))]
      + (if range.Some? then [KeySchemaElement(range.value, RoleCode(Range))] else [])
  }

  /** The first error sticks: later errors do not replace it. */
  function FirstError(current: Option<BuildError>, e: BuildError): Option<BuildError> {
    if current.Some? then current else Some(e)
  }
}
