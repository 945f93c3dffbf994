/**
  The entities of the Variant codec (lib/datamodel/variant.js): the closed
  DataType enumeration, the array shape, the dynamically typed JavaScript
  values a Variant can carry, and the Variant record itself.
*/
module DataTypes {
  import opened Wrappers

  /** The built-in DataType enumeration, ordinals 0 to 25 (OPC UA Part 6, section 5.1.2). */
  datatype DataType =
    | Null | Boolean | SByte | Byte | Int16 | UInt16 | Int32 | UInt32 | Int64 | UInt64
    | Float | Double | String | DateTime | Guid | ByteString | XmlElement | NodeId
    | ExpandedNodeId | StatusCode | QualifiedName | LocalizedText | ExtensionObject
    | DataValue | Variant | DiagnosticInfo

  const DataTypeCount: nat := 26

  /** `dataType.value`: the ordinal the enumeration assigns. */
  function Ordinal(dt: DataType): (n: nat)
    ensures n < DataTypeCount
  {
    match dt
    case Null => 0 case Boolean => 1 case SByte => 2 case Byte => 3
    case Int16 => 4 case UInt16 => 5 case Int32 => 6 case UInt32 => 7
    case Int64 => 8 case UInt64 => 9 case Float => 10 case Double => 11
    case String => 12 case DateTime => 13 case Guid => 14 case ByteString => 15
    case XmlElement => 16 case NodeId => 17 case ExpandedNodeId => 18
    case StatusCode => 19 case QualifiedName => 20 case LocalizedText => 21
    case ExtensionObject => 22 case DataValue => 23 case Variant => 24
    case DiagnosticInfo => 25
  }

  /** `DataType.get(n)`: the DataType with ordinal `n`, or None (undefined) for an ordinal outside 0..25. */
  function FromOrdinal(n: nat): (r: Option<DataType>)
    ensures r.Some? <==> n < DataTypeCount
    ensures r.Some? ==> Ordinal(r.value) == n
  {
    match n
    case 0 => Some(Null) case 1 => Some(Boolean) case 2 => Some(SByte) case 3 => Some(Byte)
    case 4 => Some(Int16) case 5 => Some(UInt16) case 6 => Some(Int32) case 7 => Some(UInt32)
    case 8 => Some(Int64) case 9 => Some(UInt64) case 10 => Some(Float) case 11 => Some(Double)
    case 12 => Some(String) case 13 => Some(DateTime) case 14 => Some(Guid)
    case 15 => Some(ByteString) case 16 => Some(XmlElement) case 17 => Some(NodeId)
    case 18 => Some(ExpandedNodeId) case 19 => Some(StatusCode) case 20 => Some(QualifiedName)
    case 21 => Some(LocalizedText) case 22 => Some(ExtensionObject) case 23 => Some(DataValue)
    case 24 => Some(DataType.Variant) case 25 => Some(DiagnosticInfo)
    case _ => None
  }

  /** Looking up the ordinal of a DataType gives that DataType back. */
  lemma OrdinalRoundTrip(dt: DataType)
    ensures FromOrdinal(Ordinal(dt)) == Some(dt)
  {
  }

  /** The three values of VariantArrayType (Scalar 0, Array 1, Matrix 2). */
  datatype VariantArrayType = Scalar | Array | Matrix

  /**
    The JavaScript values that reach the codec, in the kinds the code tells
    apart: null, booleans, integer-valued numbers, strings, enumeration items
    (objects with `key` and `value`), instances of a schema class built by the
    coercion step (LocalizedText or QualifiedName), and arrays.
  */
  datatype Value =
    | NullValue
    | BoolValue(b: bool)
    | NumberValue(n: int)
    | StringValue(s: string)
    | EnumItem(key: string, ordinal: int)
    | SchemaObject(schema: DataType, source: Value)
    | ArrayValue(items: seq<Value>)

  /** The fields of a Variant object: `dataType`, `arrayType` and `value`. */
  datatype Variant = Variant(dataType: DataType, arrayType: VariantArrayType, value: Value)

  /** The errors the codec raises (each a thrown Error or a failed assertion in the source). */
  datatype CodecError =
    | InvalidVariant                  // a value outside its DataType's range
    | NotAnArray                      // an Array variant whose value is not an array
    | MatrixNotImplemented            // construct_hook: "Not implemented Yet"
    | MatrixValidityUndefined         // isValidMatrixVariant is not defined in variant.js
    | NotFinite                       // a UInt32 coercion that parses to NaN
    | NullSchemaAccess                // reading `_schema` of a null value
    | NoEncoder(dataType: DataType)   // "Cannot find encode function for dataType"
    | NoDecoder(dataType: DataType)   // "Variant.decode : cannot find decoder for type"
    | UnknownDataType(ordinal: nat)   // a tag whose low six bits name no DataType
    | EndOfStream                     // a tag byte or array length read past the end
    | ElementDecodeFailed(elementType: DataType) // a per-type decoder that fails
    | ArrayTooLong                    // a length that does not fit the 4-byte count
}
