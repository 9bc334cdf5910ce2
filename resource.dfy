// db/resource.go: the resource type name and the column map of a resource.
module Resources {
  import opened Wrappers
  import opened Strs
  import opened Values
  import opened GoTypes
  import opened Tags

  const IDField: string := "id"
  const CreateTimeField: string := "create_time"
  const MaxBatchSize: nat := 65535

  type ResourceType = string

  /** ResourceDBType: the snake-case name of the resource's struct. */
  function ResourceDBType(r: GoStruct): (t: ResourceType)
    ensures NoUpper(t)
  {
    ToSnake(r.name)
  }

  /** A resource pointer as ResourceToMap sees it: a struct with a value per
      field, or something else. */
  datatype Instance =
    | StructPtr(typ: GoStruct, values: seq<Value>)
    | NotStructPtr(kindName: string)

  predicate Reserved(column: string) { column == IDField || column == CreateTimeField }

  /** Whether ResourceToMap copies the field into the map. */
  predicate Mapped(f: StructField)
  {
    f.name != EmbedResource && !TagHas(f.tag, "-") && !Reserved(ToSnake(f.name))
  }

  /** The map built from the first |fs| fields, later fields overwriting earlier ones. */
  function ColumnMap(fs: seq<StructField>, vs: seq<Value>): map<string, Value>
    requires |fs| == |vs|
  {
    if fs == [] then map[]
    else
      var m := ColumnMap(fs[..|fs| - 1], vs[..|vs| - 1]);
      var f := fs[|fs| - 1];
      if Mapped(f) then m[ToSnake(f.name) := vs[|vs| - 1]] else m
  }

  /** ResourceToMap: the resource's columns (without ResourceBase, `-` fields,
      id and create_time) mapped to their values. */
  method ResourceToMap(r: Instance) returns (res: Result<map<string, Value>>)
    requires r.StructPtr? ==> |r.values| == |r.typ.fields|
    ensures r.NotStructPtr? <==> res.Err?
    ensures r.StructPtr? ==> res == Ok(ColumnMap(r.typ.fields, r.values))
  {
    if !r.StructPtr? {
      return Err("need structure pointer but get " + r.kindName);
    }
    var fs, vs := r.typ.fields, r.values;
    var m: map<string, Value> := map[];
    for i := 0 to |fs|
      invariant m == ColumnMap(fs[..i], vs[..i])
    {
      assert fs[..i + 1][..i] == fs[..i] && vs[..i + 1][..i] == vs[..i];
      var n := fs[i].name;
      if n == EmbedResource {
        continue;
      }
      var skip := TagContains(fs[i].tag, "-");
      if skip {
        continue;
      }
      n := ToSnake(n);
      if n == IDField || n == CreateTimeField {
        continue;
      }
      m := m[n := vs[i]];
    }
    assert fs[..|fs|] == fs && vs[..|vs|] == vs;
    return Ok(m);
  }

  /** A key is in the map exactly when some mapped field has it as its snake name. */
  lemma {:induction false} ColumnMapKeys(fs: seq<StructField>, vs: seq<Value>, k: string)
    requires |fs| == |vs|
    ensures k in ColumnMap(fs, vs) <==> exists i :: 0 <= i < |fs| && Mapped(fs[i]) && ToSnake(fs[i].name) == k
  {
    if fs != [] {
      var n := |fs| - 1;
      ColumnMapKeys(fs[..n], vs[..n], k);
      if k in ColumnMap(fs[..n], vs[..n]) {
        var i :| 0 <= i < n && Mapped(fs[..n][i]) && ToSnake(fs[..n][i].name) == k;
        assert fs[i] == fs[..n][i];
      }
      if exists i :: 0 <= i < |fs| && Mapped(fs[i]) && ToSnake(fs[i].name) == k {
        var i :| 0 <= i < |fs| && Mapped(fs[i]) && ToSnake(fs[i].name) == k;
        if i < n { assert fs[..n][i] == fs[i]; }
      }
    }
  }

  /** The value under a key is the value of the last mapped field with that snake name. */
  lemma {:induction false} ColumnMapLastWins(fs: seq<StructField>, vs: seq<Value>, i: nat)
    requires |fs| == |vs| && i < |fs| && Mapped(fs[i])
    requires forall j :: i < j < |fs| && Mapped(fs[j]) ==> ToSnake(fs[j].name) != ToSnake(fs[i].name)
    ensures ToSnake(fs[i].name) in ColumnMap(fs, vs)
    ensures ColumnMap(fs, vs)[ToSnake(fs[i].name)] == vs[i]
  {
    var n := |fs| - 1;
    if i < n {
      forall j | i < j < n && Mapped(fs[..n][j])
        ensures ToSnake(fs[..n][j].name) != ToSnake(fs[..n][i].name)
      {
        assert fs[..n][j] == fs[j];
      }
      ColumnMapLastWins(fs[..n], vs[..n], i);
    }
  }

  /** A resource as the insert builders see it: the id they may set, its
      creation time, whether it is a pointer to a struct, and the value of
      the struct field behind each column name (reflection on the
      upper-camel form of the name). */
  class Resource {
    var id: string
    const dbType: ResourceType
    const creationTimestamp: Value
    const isStructPtr: bool
    const column: string -> Value

    constructor (id: string, dbType: ResourceType, creationTimestamp: Value, isStructPtr: bool, column: string -> Value)
      ensures this.id == id && this.dbType == dbType && this.creationTimestamp == creationTimestamp
      ensures this.isStructPtr == isStructPtr && this.column == column
    {
      this.id := id;
      this.dbType := dbType;
      this.creationTimestamp := creationTimestamp;
      this.isStructPtr := isStructPtr;
      this.column := column;
    }

    method SetID(newID: string)
      modifies this
      ensures id == newID
    {
      id := newID;
    }
  }
}
