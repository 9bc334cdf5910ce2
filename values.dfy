// The Go values (`interface{}`) that flow through the core: condition
// values, statement arguments and resource field values.
module Values {
  /** The element type of a Go slice or array, as far as the core tells them apart. */
  datatype ElemType =
    | EBool | EFloat64 | EFloat32 | EInt64 | EInt32 | EString | EBytes
    | EInt | EUint32 | EUint64 | ENetIP | ENetIPNet
    | EOther(name: string)

  /** reflect.Slice or reflect.Array. */
  datatype Container = GoSlice | GoArray

  /** The driver.Valuer a slice is wrapped in before it is sent to openGauss. */
  datatype Encoder =
    | BoolArray | Float64Array | Float32Array | Int64Array | Int32Array
    | StringArray | ByteaArray | IntArray | Uint32Array | Uint64Array
    | IPArray | IPNetArray | GenericArray

  datatype Value =
    | Nil
    | Str(s: string)
    | Int(i: int)                   // a Go `int`
    | Bool(b: bool)
    | Timestamp(t: int)             // a time.Time
    | List(container: Container, elem: ElemType, items: seq<Value>)
    | Fill(op: string, operand: Value)   // db.FillValue{Operator, Value}
    | NetipAddr(addr: string)       // netip.Addr, by its String() text
    | NetipPrefix(prefix: string)   // netip.Prefix, by its String() text
    | NetIP(ip: string)             // net.IP, by its String() text
    | NetIPNet(net: string)         // net.IPNet, by its String() text
    | Encoded(encoder: Encoder, inner: Value)
    | Other(typeName: string)       // any other Go value
}
