// What the core learns about a Go struct through package reflect: each
// field's name, its `db` tag and its type.
module GoTypes {
  import opened Wrappers

  /** reflect.Kind, as far as the core distinguishes kinds. */
  datatype Kind =
    | KInt8 | KInt16 | KInt32 | KInt64 | KInt
    | KUint8 | KUint16 | KUint32 | KUint64 | KUint
    | KFloat32 | KFloat64 | KBool | KString
    | KStruct | KSlice | KArray | KPtr | KMap | KInterface | KFunc | KChan

  /** A reflect.Type: its String() text, its kind, its element type
      (slices, arrays, pointers) and its fields (structs). */
  datatype GoType = GoType(name: string, kind: Kind, elem: Option<GoType>, fields: seq<StructField>)

  /** A struct field. `tag` is the value of its `db` struct tag. */
  datatype StructField = StructField(name: string, tag: string, typ: GoType)

  /** The struct a resource pointer points to. */
  datatype GoStruct = GoStruct(name: string, fields: seq<StructField>)

  /** The kind of the element type; a type without one has none of the element kinds. */
  function ElemKind(t: GoType): Kind
  {
    if t.elem.Some? then t.elem.value.kind else KInterface
  }

  function ElemName(t: GoType): string
  {
    if t.elem.Some? then t.elem.value.name else ""
  }
}
