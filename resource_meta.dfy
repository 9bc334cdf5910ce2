// db/resource_meta.go: column datatypes, resource descriptors derived from
// struct shapes, and the registry of resource types.
module Meta {
  import opened Wrappers
  import opened Strs
  import opened GoTypes
  import opened Tags
  import opened Resources

  datatype Datatype =
    | SmallInt | BigInt | SuperInt | Float32 | Bool | String | Time | IP | IPNet
    | SmallIntArray | BigIntArray | SuperIntArray | Float32Array | StringArray | IPSlice | IPNetSlice

  /** postgresqlTypeMap: the column type a datatype is stored as. */
  function PostgresqlType(t: Datatype): (s: string)
    ensures |s| > 2
    ensures IsArrayType(t) <==> s[|s| - 2..] == "[]"
  {
    match t
    case Bool => "boolean"
    case SmallInt => "integer"
    case BigInt => "bigint"
    case SuperInt => "numeric"
    case Float32 => "float4"
    case String => "text"
    case Time => "timestamp with time zone"
    case IP => "inet"
    case IPNet => "inet"
    case SmallIntArray => "integer[]"
    case BigIntArray => "bigint[]"
    case SuperIntArray => "numeric[]"
    case Float32Array => "float4[]"
    case StringArray => "text[]"
    case IPSlice => "inet[]"
    case IPNetSlice => "inet[]"
  }

  /** The datatypes whose columns get a GIN index instead of a plain one. */
  predicate IsArrayType(t: Datatype)
  {
    t in {StringArray, IPSlice, IPNetSlice, SmallIntArray, BigIntArray, SuperIntArray, Float32Array}
  }

  datatype Check = NoCheck | Positive

  datatype ResourceField = ResourceField(Name: string, Type: Datatype, Unique: bool, Check: Check, NotNull: bool, Index: bool)

  datatype ResourceDescriptor = ResourceDescriptor(
    Typ: ResourceType,
    Fields: seq<ResourceField>,
    Pks: seq<ResourceType>,
    Uks: seq<ResourceType>,
    Owners: seq<ResourceType>,
    Refers: seq<ResourceType>,
    IsRelationship: bool,
    Idxes: seq<string>)

  datatype ResourceRelationship = ResourceRelationship(Typ: ResourceType, Owner: ResourceType, Refer: ResourceType)

  // ------------------------------------------------------------ parseField

  const SmallKinds: set<Kind> := {KInt8, KInt16, KUint8, KUint16, KInt32}
  const BigKinds: set<Kind> := {KInt, KUint32, KInt64}
  const SuperKinds: set<Kind> := {KUint, KUint64}

  function Column(name: string, t: Datatype): ResourceField
  {
    ResourceField(name, t, false, NoCheck, false, false)
  }

  /** parseField: the datatype of a Go field type, or an error for an unsupported one. */
  function ParseField(name: string, t: GoType): (r: Result<ResourceField>)
    ensures r.Ok? ==> r.value == Column(name, r.value.Type)
  {
    var k := t.kind;
    if k in SmallKinds then Ok(Column(name, SmallInt))
    else if k in BigKinds then Ok(Column(name, BigInt))
    else if k in SuperKinds then Ok(Column(name, SuperInt))
    else if k == KFloat32 then Ok(Column(name, Float32))
    else if k == KString then Ok(Column(name, String))
    else if k == KBool then Ok(Column(name, Bool))
    else if k == KStruct then
      if t.name == "time.Time" then Ok(Column(name, Time))
      else if t.name == "net.IPNet" then Ok(Column(name, IPNet))
      else Err("type of field " + name + " isn't supported:" + t.name)
    else if k == KArray || k == KSlice then
      if t.name == "net.IP" then Ok(Column(name, IP))
      else
        var ek := ElemKind(t);
        if ek in SmallKinds then Ok(Column(name, SmallIntArray))
        else if ek in BigKinds then Ok(Column(name, BigIntArray))
        else if ek in SuperKinds then Ok(Column(name, SuperIntArray))
        else if ek == KFloat32 then Ok(Column(name, Float32Array))
        else if ek == KString then Ok(Column(name, StringArray))
        else if ElemName(t) == "net.IP" then Ok(Column(name, IPSlice))
        else if ElemName(t) == "net.IPNet" then Ok(Column(name, IPNetSlice))
        else Err("type of field " + name + " isn't supported")
    else Err("type of field " + name + " isn't supported:" + t.name)
  }

  /** The array datatype holding elements of a scalar datatype. */
  function ArrayOf(t: Datatype): Datatype
  {
    match t
    case SmallInt => SmallIntArray
    case BigInt => BigIntArray
    case SuperInt => SuperIntArray
    case Float32 => Float32Array
    case String => StringArray
    case IP => IPSlice
    case IPNet => IPNetSlice
    case _ => t
  }

  /** A slice or array of a numeric or string element maps to the array
      version of the element's own datatype. */
  lemma ArrayMirrorsElement(name: string, t: GoType)
    requires t.kind in {KArray, KSlice} && t.name != "net.IP" && t.elem.Some?
    requires t.elem.value.kind in SmallKinds + BigKinds + SuperKinds + {KFloat32, KString}
    ensures ParseField(name, t).Ok? && ParseField(name, t.elem.value).Ok?
    ensures ParseField(name, t).value.Type == ArrayOf(ParseField(name, t.elem.value).value.Type)
  {
  }

  /** The seven array datatypes come exactly from slice and array fields other than net.IP. */
  lemma ArrayTypeFromSequence(name: string, t: GoType)
    requires ParseField(name, t).Ok?
    ensures IsArrayType(ParseField(name, t).value.Type) <==> (t.kind in {KArray, KSlice} && t.name != "net.IP")
  {
  }

  /** float64 and every map, pointer, interface, function or channel field is unsupported. */
  lemma UnsupportedKinds(name: string, t: GoType)
    requires t.kind in {KFloat64, KMap, KPtr, KInterface, KFunc, KChan}
    ensures ParseField(name, t).Err?
  {
  }

  /** parseResourceField: parseField, then the suk, positive and not null options. */
  function ParseResourceField(tag: string, name: string, t: GoType): (r: Result<ResourceField>)
    ensures r.Ok? <==> ParseField(name, t).Ok?
    ensures r.Ok? ==> r.value.Name == name && r.value.Type == ParseField(name, t).value.Type
    ensures r.Ok? ==> r.value.Unique == TagHas(tag, "suk") && r.value.NotNull == TagHas(tag, "not null")
    ensures r.Ok? ==> (r.value.Check == Positive <==> TagHas(tag, "positive"))
    ensures r.Ok? ==> !r.value.Index
  {
    match ParseField(name, t)
    case Err(e) => Err("!!!! warning, field " + name + " parse failed " + e)
    case Ok(f) =>
      var f1 := f.(Unique := TagHas(tag, "suk"));
      var f2 := if TagHas(tag, "positive") then f1.(Check := Positive) else f1;
      Ok(if TagHas(tag, "not null") then f2.(NotNull := true) else f2)
  }

  // ------------------------------------------------------------ genDescriptor

  /** The lists genDescriptor accumulates, and fieldSet. */
  datatype Acc = Acc(
    fields: seq<ResourceField>,
    pks: seq<ResourceType>,
    uks: seq<ResourceType>,
    owners: seq<ResourceType>,
    refers: seq<ResourceType>,
    fieldSet: set<string>)

  const BaseFields: seq<ResourceField> := [Column(IDField, String), Column(CreateTimeField, Time)]

  const InitAcc: Acc := Acc(BaseFields, [IDField], [], [], [], {})

  /** One non-skipped field: an owner, a referenced type or a column (a field
      that does not parse is left out), then its pk or uk option. */
  function Classify(acc: Acc, tag: string, name: string, t: GoType, dupName: string): Result<Acc>
  {
    match Placed(acc, tag, name, t, dupName)
    case Err(e) => Err(e)
    case Ok(a) => Ok(Keyed(a, tag, name))
  }

  /** Where the field goes: owners, refers or, as a new column, fields. */
  function Placed(acc: Acc, tag: string, name: string, t: GoType, dupName: string): Result<Acc>
  {
    if TagHas(tag, "ownby") then Ok(acc.(owners := acc.owners + [name]))
    else if TagHas(tag, "referto") then Ok(acc.(refers := acc.refers + [name]))
    else match ParseResourceField(tag, name, t)
      case Err(_) => Ok(acc)
      case Ok(f) =>
        if f.Name in acc.fieldSet then Err("!!! field " + dupName + " is duplicate")
        else Ok(acc.(fields := acc.fields + [f], fieldSet := acc.fieldSet + {f.Name}))
  }

  /** The pk option wins over uk. */
  function Keyed(a: Acc, tag: string, name: string): Acc
  {
    if TagHas(tag, "pk") then a.(pks := a.pks + [name])
    else if TagHas(tag, "uk") then a.(uks := a.uks + [name])
    else a
  }

  /** The fields of an embedded struct; a nested embed ends the scan. */
  function EmbedScan(acc: Acc, efs: seq<StructField>): Result<Acc>
    decreases |efs|
  {
    if efs == [] then Ok(acc)
    else
      var ef := efs[0];
      var name := ToSnake(ef.name);
      if Reserved(name) then Err("id or createTime field has exists in resource base")
      else if TagHas(ef.tag, "-") then EmbedScan(acc, efs[1..])
      else if TagHas(ef.tag, "embed") then Ok(acc)
      else match Classify(acc, ef.tag, name, ef.typ, name)
        case Err(e) => Err(e)
        case Ok(a) => EmbedScan(a, efs[1..])
  }

  /** The struct fields an `embed` field stands for. */
  function EmbeddedFields(t: GoType): Result<seq<StructField>>
  {
    if t.kind != KPtr && t.kind != KStruct then Err("embed only support [structure or pointer] but get " + t.name)
    else if t.kind == KStruct then Ok(t.fields)
    else if t.elem.Some? && t.elem.value.kind == KStruct then Ok(t.elem.value.fields)
    else Err("embed only support [structure or pointer] but get " + t.name)
  }

  function ScanField(acc: Acc, f: StructField): Result<Acc>
  {
    if f.name == EmbedResource then Ok(acc)
    else
      var name := ToSnake(f.name);
      if Reserved(name) then Err("id or createTime field has exists in resource base")
      else if TagHas(f.tag, "-") then Ok(acc)
      else if TagHas(f.tag, "embed") then
        match EmbeddedFields(f.typ)
        case Err(e) => Err(e)
        case Ok(efs) => EmbedScan(acc, efs)
      else Classify(acc, f.tag, name, f.typ, f.name)
  }

  function Scan(acc: Acc, fs: seq<StructField>): Result<Acc>
    decreases |fs|
  {
    if fs == [] then Ok(acc)
    else match ScanField(acc, fs[0])
      case Err(e) => Err(e)
      case Ok(a) => Scan(a, fs[1..])
  }

  function Describe(r: GoStruct, a: Acc): ResourceDescriptor
  {
    ResourceDescriptor(ResourceDBType(r), a.fields, a.pks, a.uks, a.owners, a.refers,
      |a.fields| == 1 && |a.owners| == 1 && |a.refers| == 1, [])
  }

  /** genDescriptor, as a function of the struct's shape. */
  function GenDescriptorSpec(r: GoStruct): Result<ResourceDescriptor>
  {
    match Scan(InitAcc, r.fields)
    case Err(e) => Err(e)
    case Ok(a) => Ok(Describe(r, a))
  }

  /** Classify, step by step as genDescriptor's loop bodies do it. */
  method ClassifyField(acc: Acc, tag: string, name: string, t: GoType, dupName: string) returns (res: Result<Acc>)
    ensures res == Classify(acc, tag, name, t, dupName)
  {
    var a := acc;
    var ownby := TagContains(tag, "ownby");
    var referto := TagContains(tag, "referto");
    if ownby {
      a := a.(owners := a.owners + [name]);
    } else if referto {
      a := a.(refers := a.refers + [name]);
    } else {
      var parsed := ParseResourceField(tag, name, t);
      if parsed.Ok? {
        var newField := parsed.value;
        if newField.Name in a.fieldSet {
          return Err("!!! field " + dupName + " is duplicate");
        }
        a := a.(fields := a.fields + [newField], fieldSet := a.fieldSet + {newField.Name});
      }
    }
    var pk := TagContains(tag, "pk");
    var uk := TagContains(tag, "uk");
    if pk {
      a := a.(pks := a.pks + [name]);
    } else if uk {
      a := a.(uks := a.uks + [name]);
    }
    return Ok(a);
  }

  /** The inner loop of genDescriptor over the fields of an embedded struct. */
  method ScanEmbedded(acc0: Acc, efs: seq<StructField>) returns (res: Result<Acc>)
    ensures res == EmbedScan(acc0, efs)
  {
    var acc := acc0;
    var j := 0;
    while j < |efs|
      invariant 0 <= j <= |efs|
      invariant EmbedScan(acc, efs[j..]) == EmbedScan(acc0, efs)
    {
      var embedField := efs[j];
      assert efs[j..][1..] == efs[j + 1..];
      var embedFieldName := ToSnake(embedField.name);
      if embedFieldName == IDField || embedFieldName == CreateTimeField {
        return Err("id or createTime field has exists in resource base");
      }
      var skip := TagContains(embedField.tag, "-");
      if skip {
        j := j + 1;
        continue;
      }
      var nested := TagContains(embedField.tag, "embed");
      if nested {
        return Ok(acc);
      }
      var step := ClassifyField(acc, embedField.tag, embedFieldName, embedField.typ, embedFieldName);
      if step.Err? {
        return Err(step.error);
      }
      acc := step.value;
      j := j + 1;
    }
    return Ok(acc);
  }

  /** genDescriptor: the descriptor of a resource struct. */
  method GenDescriptor(r: GoStruct) returns (res: Result<ResourceDescriptor>)
    ensures res == GenDescriptorSpec(r)
  {
    var acc := InitAcc;
    var fs := r.fields;
    var i := 0;
    while i < |fs|
      invariant 0 <= i <= |fs|
      invariant Scan(acc, fs[i..]) == Scan(InitAcc, fs)
    {
      var field := fs[i];
      assert fs[i..][1..] == fs[i + 1..];
      if field.name == EmbedResource {
        i := i + 1;
        continue;
      }
      var fieldName := ToSnake(field.name);
      if fieldName == IDField || fieldName == CreateTimeField {
        return Err("id or createTime field has exists in resource base");
      }
      var skip := TagContains(field.tag, "-");
      if skip {
        i := i + 1;
        continue;
      }
      var embed := TagContains(field.tag, "embed");
      var step: Result<Acc>;
      if embed {
        var embedded := EmbeddedFields(field.typ);
        if embedded.Err? {
          return Err(embedded.error);
        }
        step := ScanEmbedded(acc, embedded.value);
      } else {
        step := ClassifyField(acc, field.tag, fieldName, field.typ, field.name);
      }
      if step.Err? {
        return Err(step.error);
      }
      acc := step.value;
      i := i + 1;
    }
    return Ok(Describe(r, acc));
  }

  // ------------------------------------------------------------ descriptor properties

  /** What every partial result of genDescriptor satisfies: the two base
      columns first, id as the first primary key, fieldSet holding the names
      of the added columns, none of them reserved, and all names distinct. */
  ghost predicate Wf(acc: Acc)
  {
    |acc.fields| >= 2 && acc.fields[..2] == BaseFields &&
    |acc.pks| >= 1 && acc.pks[0] == IDField &&
    acc.fieldSet == (set k | 2 <= k < |acc.fields| :: acc.fields[k].Name) &&
    (forall k :: 2 <= k < |acc.fields| ==> !Reserved(acc.fields[k].Name)) &&
    (forall a, b :: 0 <= a < b < |acc.fields| ==> acc.fields[a].Name != acc.fields[b].Name)
  }

  lemma InitWf()
    ensures Wf(InitAcc)
  {
    assert InitAcc.fields[..2] == BaseFields;
  }

  lemma AddColumnWf(acc: Acc, f: ResourceField)
    requires Wf(acc) && f.Name !in acc.fieldSet && !Reserved(f.Name)
    ensures Wf(acc.(fields := acc.fields + [f], fieldSet := acc.fieldSet + {f.Name}))
  {
    var fs := acc.fields + [f];
    assert fs[..2] == acc.fields[..2];
    var s1 := set k | 2 <= k < |fs| :: fs[k].Name;
    var s0 := set k | 2 <= k < |acc.fields| :: acc.fields[k].Name;
    forall x | x in s1 ensures x in s0 + {f.Name} {
      var k :| 2 <= k < |fs| && fs[k].Name == x;
      if k < |acc.fields| { assert acc.fields[k].Name == x; }
    }
    forall x | x in s0 + {f.Name} ensures x in s1 {
      if x == f.Name {
        assert fs[|acc.fields|].Name == f.Name;
      } else {
        var k :| 2 <= k < |acc.fields| && acc.fields[k].Name == x;
        assert fs[k].Name == x;
      }
    }
    assert s1 == s0 + {f.Name};
    forall a | 0 <= a < |acc.fields| ensures acc.fields[a].Name != f.Name {
      if a >= 2 {
        assert acc.fields[a].Name in acc.fieldSet;
      } else {
        assert acc.fields[a] == BaseFields[a];
      }
    }
  }

  lemma ClassifyWf(acc: Acc, tag: string, name: string, t: GoType, dupName: string)
    requires Wf(acc) && !Reserved(name)
    ensures Classify(acc, tag, name, t, dupName).Ok? ==> Wf(Classify(acc, tag, name, t, dupName).value)
  {
    PlacedWf(acc, tag, name, t, dupName);
    var placed := Placed(acc, tag, name, t, dupName);
    if placed.Ok? {
      KeyedWf(placed.value, tag, name);
    }
  }

  lemma PlacedWf(acc: Acc, tag: string, name: string, t: GoType, dupName: string)
    requires Wf(acc) && !Reserved(name)
    ensures Placed(acc, tag, name, t, dupName).Ok? ==> Wf(Placed(acc, tag, name, t, dupName).value)
  {
    if !TagHas(tag, "ownby") && !TagHas(tag, "referto") {
      var p := ParseResourceField(tag, name, t);
      if p.Ok? && p.value.Name !in acc.fieldSet {
        AddColumnWf(acc, p.value);
      }
    }
  }

  lemma KeyedWf(a: Acc, tag: string, name: string)
    requires Wf(a)
    ensures Wf(Keyed(a, tag, name))
  {
  }

  lemma {:induction false} EmbedScanWf(acc: Acc, efs: seq<StructField>)
    requires Wf(acc)
    ensures EmbedScan(acc, efs).Ok? ==> Wf(EmbedScan(acc, efs).value)
    decreases |efs|
  {
    if efs != [] {
      var ef := efs[0];
      var name := ToSnake(ef.name);
      if !Reserved(name) && !TagHas(ef.tag, "-") && !TagHas(ef.tag, "embed") {
        ClassifyWf(acc, ef.tag, name, ef.typ, name);
        var c := Classify(acc, ef.tag, name, ef.typ, name);
        if c.Ok? { EmbedScanWf(c.value, efs[1..]); }
      } else if !Reserved(name) && TagHas(ef.tag, "-") {
        EmbedScanWf(acc, efs[1..]);
      }
    }
  }

  lemma ScanFieldWf(acc: Acc, f: StructField)
    requires Wf(acc)
    ensures ScanField(acc, f).Ok? ==> Wf(ScanField(acc, f).value)
  {
    if f.name != EmbedResource {
      var name := ToSnake(f.name);
      if !Reserved(name) && !TagHas(f.tag, "-") {
        if TagHas(f.tag, "embed") {
          var e := EmbeddedFields(f.typ);
          if e.Ok? { EmbedScanWf(acc, e.value); }
        } else {
          ClassifyWf(acc, f.tag, name, f.typ, f.name);
        }
      }
    }
  }

  lemma {:induction false} ScanWf(acc: Acc, fs: seq<StructField>)
    requires Wf(acc)
    ensures Scan(acc, fs).Ok? ==> Wf(Scan(acc, fs).value)
    decreases |fs|
  {
    if fs != [] {
      ScanFieldWf(acc, fs[0]);
      var a := ScanField(acc, fs[0]);
      if a.Ok? { ScanWf(a.value, fs[1..]); }
    }
  }

  /** Every descriptor starts with the id and create_time columns, has id as
      its first primary key, is named after its struct, and has distinct
      column names. */
  lemma GenDescriptorShape(r: GoStruct)
    requires GenDescriptorSpec(r).Ok?
    ensures var d := GenDescriptorSpec(r).value;
      d.Typ == ResourceDBType(r) &&
      |d.Fields| >= 2 && d.Fields[0] == Column(IDField, String) && d.Fields[1] == Column(CreateTimeField, Time) &&
      |d.Pks| >= 1 && d.Pks[0] == IDField &&
      (forall a, b :: 0 <= a < b < |d.Fields| ==> d.Fields[a].Name != d.Fields[b].Name)
  {
    InitWf();
    ScanWf(InitAcc, r.fields);
    var a := Scan(InitAcc, r.fields).value;
    assert a.fields[0] == a.fields[..2][0] && a.fields[1] == a.fields[..2][1];
  }

  /** As written, IsRelationship needs exactly one column, but every
      descriptor has at least the two base columns: it is never set. */
  lemma RelationshipNeverDetected(r: GoStruct)
    requires GenDescriptorSpec(r).Ok?
    ensures !GenDescriptorSpec(r).value.IsRelationship
  {
    GenDescriptorShape(r);
  }

  /** A top-level field (other than ResourceBase) whose snake name is id or
      create_time makes genDescriptor fail, whatever its tag says. */
  lemma {:induction false} ReservedNameRejected(acc: Acc, fs: seq<StructField>, i: nat)
    requires i < |fs| && fs[i].name != EmbedResource && Reserved(ToSnake(fs[i].name))
    ensures Scan(acc, fs).Err?
    decreases i
  {
    if i > 0 {
      var a := ScanField(acc, fs[0]);
      if a.Ok? {
        assert fs[1..][i - 1] == fs[i];
        ReservedNameRejected(a.value, fs[1..], i - 1);
      }
    }
  }

  /** `efs[j]` is named id or create_time, and no nested embed before it ends the scan. */
  predicate ReservedAt(efs: seq<StructField>, j: int)
  {
    0 <= j < |efs| && Reserved(ToSnake(efs[j].name)) &&
    forall k :: 0 <= k < j ==> !TagHas(efs[k].tag, "embed") || TagHas(efs[k].tag, "-")
  }

  /** Dropping the first field keeps a later reserved field reachable. */
  lemma ReservedAtTail(efs: seq<StructField>, j: nat)
    requires ReservedAt(efs, j) && j > 0
    ensures ReservedAt(efs[1..], j - 1)
    ensures !TagHas(efs[0].tag, "embed") || TagHas(efs[0].tag, "-")
  {
    assert efs[1..][j - 1] == efs[j];
    forall k | 0 <= k < j - 1 ensures !TagHas(efs[1..][k].tag, "embed") || TagHas(efs[1..][k].tag, "-") {
      assert efs[1..][k] == efs[k + 1];
    }
  }

  /** Inside an embedded struct, a field whose snake name is id or
      create_time makes the scan fail, whatever its tag says. */
  lemma {:induction false} EmbeddedReservedRejected(acc: Acc, efs: seq<StructField>, j: nat)
    requires ReservedAt(efs, j)
    ensures EmbedScan(acc, efs).Err?
    decreases j
  {
    if j > 0 {
      ReservedAtTail(efs, j);
      if !Reserved(ToSnake(efs[0].name)) {
        var next := EmbedScanNext(acc, efs);
        if next.Some? {
          EmbeddedReservedRejected(next.value, efs[1..], j - 1);
        }
      }
    }
  }

  /** One step of the embedded scan past a field that neither is reserved
      nor ends the scan: it fails there, or goes on with a new accumulator. */
  lemma EmbedScanNext(acc: Acc, efs: seq<StructField>) returns (next: Option<Acc>)
    requires efs != [] && !Reserved(ToSnake(efs[0].name))
    requires !TagHas(efs[0].tag, "embed") || TagHas(efs[0].tag, "-")
    ensures next.None? ==> EmbedScan(acc, efs).Err?
    ensures next.Some? ==> EmbedScan(acc, efs) == EmbedScan(next.value, efs[1..])
  {
    var ef := efs[0];
    var name := ToSnake(ef.name);
    if TagHas(ef.tag, "-") {
      next := Some(acc);
    } else {
      var c := Classify(acc, ef.tag, name, ef.typ, name);
      next := if c.Ok? then Some(c.value) else None;
    }
  }

  /** A top-level `embed` field whose struct has a reserved field that the scan reaches. */
  predicate EmbedsReserved(f: StructField, j: int)
  {
    f.name != EmbedResource && !Reserved(ToSnake(f.name)) && !TagHas(f.tag, "-") && TagHas(f.tag, "embed") &&
    EmbeddedFields(f.typ).Ok? && ReservedAt(EmbeddedFields(f.typ).value, j)
  }

  /** An id or create_time field inside an embedded struct makes genDescriptor fail too. */
  lemma {:induction false} EmbeddedReservedNameRejected(acc: Acc, fs: seq<StructField>, i: nat, j: nat)
    requires i < |fs| && EmbedsReserved(fs[i], j)
    ensures Scan(acc, fs).Err?
    decreases i
  {
    if i == 0 {
      EmbeddedReservedRejected(acc, EmbeddedFields(fs[0].typ).value, j);
    } else {
      var a := ScanField(acc, fs[0]);
      if a.Ok? {
        assert fs[1..][i - 1] == fs[i];
        EmbeddedReservedNameRejected(a.value, fs[1..], i - 1, j);
      }
    }
  }

  /** A field that genDescriptor skips: ResourceBase, or a `-` field with an allowed name. */
  predicate Skipped(f: StructField)
  {
    f.name == EmbedResource || (!Reserved(ToSnake(f.name)) && TagHas(f.tag, "-"))
  }

  /** Skipped fields make no difference, wherever they stand. */
  lemma {:induction false} SkippedFieldIgnored(acc: Acc, a: seq<StructField>, f: StructField, b: seq<StructField>)
    requires Skipped(f)
    ensures Scan(acc, a + [f] + b) == Scan(acc, a + b)
    decreases |a|
  {
    if a == [] {
      assert [f] + b == a + [f] + b && (a + [f] + b)[1..] == b;
      assert a + b == b;
    } else {
      assert (a + [f] + b)[0] == a[0] && (a + [f] + b)[1..] == a[1..] + [f] + b;
      assert (a + b)[0] == a[0] && (a + b)[1..] == a[1..] + b;
      var s := ScanField(acc, a[0]);
      if s.Ok? { SkippedFieldIgnored(s.value, a[1..], f, b); }
    }
  }

  /** genDescriptor is undisturbed by a skipped field added to the struct. */
  lemma GenDescriptorIgnoresSkipped(r: GoStruct, k: nat, f: StructField)
    requires k <= |r.fields| && Skipped(f)
    ensures GenDescriptorSpec(GoStruct(r.name, r.fields[..k] + [f] + r.fields[k..])) == GenDescriptorSpec(r)
  {
    SkippedFieldIgnored(InitAcc, r.fields[..k], f, r.fields[k..]);
    assert r.fields[..k] + r.fields[k..] == r.fields;
  }

  /** A plain field (no `-`, embed, ownby or referto option, an allowed name) whose type does not parse. */
  predicate Unparsable(f: StructField)
  {
    !Reserved(ToSnake(f.name)) && !TagHas(f.tag, "-") && !TagHas(f.tag, "embed") &&
    !TagHas(f.tag, "ownby") && !TagHas(f.tag, "referto") &&
    ParseResourceField(f.tag, ToSnake(f.name), f.typ).Err?
  }

  /** A field that does not parse gets no column, but its pk or uk option is still
      recorded; the scan goes on, at the top level and inside an embedded struct alike. */
  lemma UnparsableFieldKeyed(acc: Acc, f: StructField, rest: seq<StructField>)
    requires Unparsable(f)
    ensures Keyed(acc, f.tag, ToSnake(f.name)).fields == acc.fields
    ensures Keyed(acc, f.tag, ToSnake(f.name)).fieldSet == acc.fieldSet
    ensures TagHas(f.tag, "pk") ==> Keyed(acc, f.tag, ToSnake(f.name)).pks == acc.pks + [ToSnake(f.name)]
    ensures !TagHas(f.tag, "pk") && TagHas(f.tag, "uk") ==>
      Keyed(acc, f.tag, ToSnake(f.name)).uks == acc.uks + [ToSnake(f.name)]
    ensures EmbedScan(acc, [f] + rest) == EmbedScan(Keyed(acc, f.tag, ToSnake(f.name)), rest)
    ensures f.name != EmbedResource ==>
      Scan(acc, [f] + rest) == Scan(Keyed(acc, f.tag, ToSnake(f.name)), rest)
  {
    assert ([f] + rest)[0] == f && ([f] + rest)[1..] == rest;
  }

  /** GetRelationship: the relationship a descriptor describes, if any. */
  function GetRelationship(d: ResourceDescriptor): (r: Option<ResourceRelationship>)
    requires d.IsRelationship ==> |d.Owners| > 0 && |d.Refers| > 0
    ensures r.Some? <==> d.IsRelationship
    ensures r.Some? ==> r.value == ResourceRelationship(d.Typ, d.Owners[0], d.Refers[0])
  {
    if d.IsRelationship then Some(ResourceRelationship(d.Typ, d.Owners[0], d.Refers[0])) else None
  }

  // ------------------------------------------------------------ the registry

  /** The types a descriptor's owner and reference columns point to. */
  function Deps(d: ResourceDescriptor): seq<ResourceType>
  {
    d.Owners + d.Refers
  }

  class ResourceMeta {
    var resources: seq<ResourceType>
    var descriptors: map<ResourceType, ResourceDescriptor>
    var goTypes: map<ResourceType, GoStruct>

    /** Registered types are listed once each, in registration order, both
        maps hold exactly the listed types, each descriptor is filed under
        its own type, and every type a descriptor depends on was registered
        before it. */
    ghost predicate Valid()
      reads this
    {
      (forall i, j :: 0 <= i < j < |resources| ==> resources[i] != resources[j]) &&
      (forall t :: t in descriptors <==> t in resources) &&
      (forall t :: t in goTypes <==> t in resources) &&
      (forall t :: t in descriptors ==> descriptors[t].Typ == t) &&
      (forall i :: 0 <= i < |resources| ==>
        forall m :: m in Deps(descriptors[resources[i]]) ==> m in resources[..i])
    }

    constructor ()
      ensures Valid()
      ensures resources == [] && descriptors == map[] && goTypes == map[]
    {
      resources := [];
      descriptors := map[];
      goTypes := map[];
    }

    /** Has: whether a descriptor is filed under the type. */
    function Has(typ: ResourceType): (b: bool)
      reads this
      ensures Valid() ==> (b <==> typ in resources)
    {
      typ in descriptors
    }

    function GetGoType(typ: ResourceType): (r: Result<GoStruct>)
      reads this
      ensures r.Ok? <==> typ in goTypes
      ensures r.Ok? ==> r.value == goTypes[typ]
    {
      if typ !in goTypes then Err("model " + typ + " is unknown") else Ok(goTypes[typ])
    }

    function GetDescriptor(typ: ResourceType): (r: Result<ResourceDescriptor>)
      reads this
      ensures r.Ok? <==> Has(typ)
      ensures r.Ok? ==> r.value == descriptors[typ]
    {
      if Has(typ) then Ok(descriptors[typ]) else Err("model " + typ + " is unknown")
    }

    function Resources(): (rs: seq<ResourceType>)
      reads this
      ensures Valid() ==> forall t :: t in rs <==> Has(t)
    {
      resources
    }

    /** GetDescriptors: the descriptors in registration order; a type that
        Clear removed yields a nil entry. */
    method GetDescriptors() returns (ds: seq<Option<ResourceDescriptor>>)
      ensures |ds| == |resources|
      ensures forall i :: 0 <= i < |resources| ==>
        ds[i] == if resources[i] in descriptors then Some(descriptors[resources[i]]) else None
      ensures Valid() ==> forall i :: 0 <= i < |ds| ==> ds[i].Some? && ds[i].value.Typ == resources[i]
    {
      ds := [];
      for i := 0 to |resources|
        invariant |ds| == i
        invariant forall k :: 0 <= k < i ==>
          ds[k] == if resources[k] in descriptors then Some(descriptors[resources[k]]) else None
      {
        var r := resources[i];
        ds := ds + [if r in descriptors then Some(descriptors[r]) else None];
      }
    }

    /** Register: adds a resource type, unless it is already registered, its
        struct does not yield a descriptor, or it owns or refers to a type that
        is not registered yet. */
    method Register(r: GoStruct) returns (err: Option<string>)
      modifies this
      ensures err == RegisterError(old(descriptors), r)
      ensures err.None? <==> Admissible(old(descriptors), r)
      ensures err.None? ==> resources == old(resources) + [ResourceDBType(r)]
      ensures err.None? ==> descriptors == old(descriptors)[ResourceDBType(r) := GenDescriptorSpec(r).value]
      ensures err.None? ==> goTypes == old(goTypes)[ResourceDBType(r) := r]
      ensures err.Some? ==> resources == old(resources) && descriptors == old(descriptors) && goTypes == old(goTypes)
      ensures old(Valid()) ==> Valid()
    {
      var typ := ResourceDBType(r);
      if Has(typ) {
        return Some("duplicate model:" + typ);
      }
      var g := GenDescriptor(r);
      if g.Err? {
        return Some(g.error);
      }
      var d := g.value;
      var missing := FindMissing(descriptors, typ, d.Owners + d.Refers);
      if missing.Some? {
        return missing;
      }
      GenDescriptorShape(r);
      ghost var wasValid := Valid();
      ghost var rs0, ds0 := resources, descriptors;
      resources := resources + [typ];
      descriptors := descriptors[typ := d];
      goTypes := goTypes[typ := r];
      if wasValid {
        RegisterKeepsOrder(rs0, ds0, typ, d);
      }
      return None;
    }

    /** Clear: forgets the descriptor and Go type of every listed type; the list itself stays. */
    method Clear()
      modifies this
      ensures resources == old(resources)
      ensures descriptors == old(descriptors) - (set t | t in resources)
      ensures goTypes == old(goTypes) - (set t | t in resources)
      ensures old(Valid()) ==> descriptors == map[] && goTypes == map[]
    {
      for i := 0 to |resources|
        invariant resources == old(resources)
        invariant descriptors == old(descriptors) - (set k | 0 <= k < i :: resources[k])
        invariant goTypes == old(goTypes) - (set k | 0 <= k < i :: resources[k])
      {
        ghost var done := set k | 0 <= k < i :: resources[k];
        assert (set k | 0 <= k < i + 1 :: resources[k]) == done + {resources[i]};
        descriptors := descriptors - {resources[i]};
        goTypes := goTypes - {resources[i]};
      }
      assert (set k | 0 <= k < |resources| :: resources[k]) == (set t | t in resources) by {
        forall t | t in resources ensures t in (set k | 0 <= k < |resources| :: resources[k]) {
          var k :| 0 <= k < |resources| && resources[k] == t;
        }
      }
    }
  }

  /** Whether Register accepts `r` given the registered descriptors: a new
      type, a struct that yields a descriptor, and only registered dependencies. */
  predicate Admissible(ds: map<ResourceType, ResourceDescriptor>, r: GoStruct)
  {
    ResourceDBType(r) !in ds && GenDescriptorSpec(r).Ok? &&
    forall m :: m in Deps(GenDescriptorSpec(r).value) ==> m in ds
  }

  /** Register's error: a type already registered, then genDescriptor's
      error, then the first owner or refer that is not registered. */
  function RegisterError(ds: map<ResourceType, ResourceDescriptor>, r: GoStruct): (e: Option<string>)
    ensures e.None? <==> Admissible(ds, r)
  {
    var typ := ResourceDBType(r);
    if typ in ds then Some("duplicate model:" + typ)
    else match GenDescriptorSpec(r)
      case Err(msg) => Some(msg)
      case Ok(d) => MissingDep(ds, typ, Deps(d))
  }

  /** Register's error text for a dependency that is not registered. */
  function UnknownDep(typ: ResourceType, m: ResourceType): string
  {
    "model " + typ + " refer to " + m + " is unknown"
  }

  /** `deps[k]` is the first of `deps` that is not registered. */
  predicate FirstMissing(ds: map<ResourceType, ResourceDescriptor>, deps: seq<ResourceType>, k: int)
  {
    0 <= k < |deps| && deps[k] !in ds && forall q :: 0 <= q < k ==> deps[q] in ds
  }

  /** The error for the first of `deps` that is not registered. */
  function MissingDep(ds: map<ResourceType, ResourceDescriptor>, typ: ResourceType, deps: seq<ResourceType>): (e: Option<string>)
    ensures e.None? <==> forall m :: m in deps ==> m in ds
    ensures e.Some? ==> exists k :: FirstMissing(ds, deps, k) && e.value == UnknownDep(typ, deps[k])
    decreases |deps|
  {
    if deps == [] then None
    else if deps[0] !in ds then
      assert FirstMissing(ds, deps, 0);
      Some(UnknownDep(typ, deps[0]))
    else
      var e := MissingDep(ds, typ, deps[1..]);
      if e.Some? then
        var k :| FirstMissing(ds, deps[1..], k) && e.value == UnknownDep(typ, deps[1..][k]);
        assert FirstMissing(ds, deps, k + 1) by {
          forall q | 0 <= q < k + 1 ensures deps[q] in ds {
            if q > 0 { assert deps[q] == deps[1..][q - 1]; }
          }
        }
        e
      else
        assert forall m :: m in deps ==> m == deps[0] || m in deps[1..];
        e
  }

  /** Register's loop over the owners and refers, stopping at the first one not registered. */
  method FindMissing(ds: map<ResourceType, ResourceDescriptor>, typ: ResourceType, deps: seq<ResourceType>) returns (e: Option<string>)
    ensures e == MissingDep(ds, typ, deps)
  {
    var k := 0;
    while k < |deps|
      invariant 0 <= k <= |deps|
      invariant MissingDep(ds, typ, deps) == MissingDep(ds, typ, deps[k..])
    {
      if deps[k] !in ds {
        return Some(UnknownDep(typ, deps[k]));
      }
      assert deps[k..][1..] == deps[k + 1..];
      k := k + 1;
    }
    return None;
  }

  /** The registry's three fields, as values. */
  datatype Registry = Registry(resources: seq<ResourceType>, descriptors: map<ResourceType, ResourceDescriptor>, goTypes: map<ResourceType, GoStruct>)

  const EmptyRegistry := Registry([], map[], map[])

  /** One Register call on a registry value: its error, or the registry with `r` added. */
  function RegisterStep(g: Registry, r: GoStruct): (t: Result<Registry>)
    ensures t.Ok? <==> Admissible(g.descriptors, r)
  {
    match RegisterError(g.descriptors, r)
    case Some(e) => Err(e)
    case None =>
      var typ := ResourceDBType(r);
      Ok(Registry(g.resources + [typ], g.descriptors[typ := GenDescriptorSpec(r).value], g.goTypes[typ := r]))
  }

  /** NewResourceMeta's loop on values: register each struct in turn; the first error ends it. */
  function RegisterAll(rs: seq<GoStruct>): Result<Registry>
  {
    if rs == [] then Ok(EmptyRegistry)
    else match RegisterAll(rs[..|rs| - 1])
      case Err(e) => Err(e)
      case Ok(g) => RegisterStep(g, rs[|rs| - 1])
  }

  /** The registry lists the structs' types, in order. */
  predicate ListsTypes(g: Registry, rs: seq<GoStruct>)
  {
    |g.resources| == |rs| && forall i :: 0 <= i < |rs| ==> g.resources[i] == ResourceDBType(rs[i])
  }

  /** Each struct's descriptor and Go type are filed under its type. */
  predicate FilesStructs(g: Registry, rs: seq<GoStruct>)
  {
    forall i :: 0 <= i < |rs| ==>
      ResourceDBType(rs[i]) in g.descriptors && ResourceDBType(rs[i]) in g.goTypes && GenDescriptorSpec(rs[i]).Ok? &&
      g.descriptors[ResourceDBType(rs[i])] == GenDescriptorSpec(rs[i]).value && g.goTypes[ResourceDBType(rs[i])] == rs[i]
  }

  /** Both maps hold exactly the listed types. */
  ghost predicate HoldsListed(g: Registry)
  {
    (forall t :: t in g.descriptors <==> t in g.resources) && (forall t :: t in g.goTypes <==> t in g.resources)
  }

  /** A successful NewResourceMeta lists the structs' types in order, files
      each struct's descriptor and Go type under its type, and holds nothing else. */
  lemma {:induction false} RegisterAllOk(rs: seq<GoStruct>)
    requires RegisterAll(rs).Ok?
    ensures ListsTypes(RegisterAll(rs).value, rs)
    ensures FilesStructs(RegisterAll(rs).value, rs)
    ensures HoldsListed(RegisterAll(rs).value)
  {
    if rs != [] {
      var init := rs[..|rs| - 1];
      RegisterAllOk(init);
      var g0 := RegisterAll(init).value;
      var r := rs[|rs| - 1];
      assert RegisterStep(g0, r) == RegisterAll(rs);
      RegisterStepOk(g0, r);
      assert rs == init + [r];
      AddKeeps(g0, init, r, RegisterAll(rs).value);
    }
  }

  lemma RegisterStepOk(g: Registry, r: GoStruct)
    requires RegisterStep(g, r).Ok?
    ensures ResourceDBType(r) !in g.descriptors && GenDescriptorSpec(r).Ok?
    ensures RegisterStep(g, r).value == Registry(g.resources + [ResourceDBType(r)],
      g.descriptors[ResourceDBType(r) := GenDescriptorSpec(r).value], g.goTypes[ResourceDBType(r) := r])
  {
  }

  /** Adding a new type keeps the listing, the filing and the exact key sets. */
  lemma AddKeeps(g0: Registry, init: seq<GoStruct>, r: GoStruct, g: Registry)
    requires ListsTypes(g0, init) && FilesStructs(g0, init) && HoldsListed(g0)
    requires ResourceDBType(r) !in g0.descriptors && GenDescriptorSpec(r).Ok?
    requires g == Registry(g0.resources + [ResourceDBType(r)],
      g0.descriptors[ResourceDBType(r) := GenDescriptorSpec(r).value], g0.goTypes[ResourceDBType(r) := r])
    ensures ListsTypes(g, init + [r]) && FilesStructs(g, init + [r]) && HoldsListed(g)
  {
    var rs := init + [r];
    forall i | 0 <= i < |init| ensures ResourceDBType(rs[i]) != ResourceDBType(r) && rs[i] == init[i] {
    }
  }

  /** Register refuses `rs[i]` after the structs before it registered. */
  predicate FailsAt(rs: seq<GoStruct>, i: int)
  {
    0 <= i < |rs| && RegisterAll(rs[..i]).Ok? && RegisterError(RegisterAll(rs[..i]).value.descriptors, rs[i]).Some?
  }

  /** A failed NewResourceMeta fails at the first struct that Register
      refuses, all those before it registered, with Register's error for it. */
  lemma {:induction false} RegisterAllFails(rs: seq<GoStruct>)
    requires RegisterAll(rs).Err?
    ensures exists i :: FailsAt(rs, i) && Some(RegisterAll(rs).error) == RegisterError(RegisterAll(rs[..i]).value.descriptors, rs[i])
  {
    var init := rs[..|rs| - 1];
    var n := |rs| - 1;
    assert rs[..n] == init;
    if RegisterAll(init).Err? {
      RegisterAllFails(init);
      var i :| FailsAt(init, i) && Some(RegisterAll(init).error) == RegisterError(RegisterAll(init[..i]).value.descriptors, init[i]);
      assert init[..i] == rs[..i] && init[i] == rs[i];
      assert FailsAt(rs, i);
    } else {
      assert FailsAt(rs, n);
    }
  }

  /** Once a prefix of the structs fails, the whole registration fails with its error. */
  lemma {:induction false} RegisterAllErrStays(rs: seq<GoStruct>, i: nat)
    requires i <= |rs| && RegisterAll(rs[..i]).Err?
    ensures RegisterAll(rs) == RegisterAll(rs[..i])
    decreases |rs|
  {
    if i == |rs| {
      assert rs[..i] == rs;
    } else {
      var init := rs[..|rs| - 1];
      assert init[..i] == rs[..i];
      RegisterAllErrStays(init, i);
    }
  }

  /** Appending a type whose dependencies are all registered keeps the dependency order. */
  lemma RegisterKeepsOrder(rs: seq<ResourceType>, ds: map<ResourceType, ResourceDescriptor>, typ: ResourceType, d: ResourceDescriptor)
    requires forall i, j :: 0 <= i < j < |rs| ==> rs[i] != rs[j]
    requires forall t :: t in ds <==> t in rs
    requires forall i :: 0 <= i < |rs| ==> forall m :: m in Deps(ds[rs[i]]) ==> m in rs[..i]
    requires typ !in ds && forall m :: m in Deps(d) ==> m in ds
    ensures var rs', ds' := rs + [typ], ds[typ := d];
      forall i :: 0 <= i < |rs'| ==> forall m :: m in Deps(ds'[rs'[i]]) ==> m in rs'[..i]
  {
    var rs', ds' := rs + [typ], ds[typ := d];
    forall i | 0 <= i < |rs'| ensures forall m :: m in Deps(ds'[rs'[i]]) ==> m in rs'[..i] {
      assert rs'[..i] == if i < |rs| then rs[..i] else rs;
      if i < |rs| {
        assert rs'[i] == rs[i] && rs[i] != typ;
      }
    }
  }

  /** NewResourceMeta: registers the resources in order; the first failure aborts. */
  method NewResourceMeta(rs: seq<GoStruct>) returns (meta: ResourceMeta?, err: Option<string>)
    ensures err.None? <==> meta != null
    ensures meta != null ==> fresh(meta) && meta.Valid()
    ensures meta != null ==> RegisterAll(rs) == Ok(Registry(meta.resources, meta.descriptors, meta.goTypes))
    ensures err.Some? ==> RegisterAll(rs) == Err(err.value)
  {
    var m := new ResourceMeta();
    for i := 0 to |rs|
      invariant fresh(m) && m.Valid()
      invariant RegisterAll(rs[..i]) == Ok(Registry(m.resources, m.descriptors, m.goTypes))
    {
      assert rs[..i + 1][..i] == rs[..i] && rs[..i + 1][i] == rs[i];
      var e := m.Register(rs[i]);
      if e.Some? {
        RegisterAllErrStays(rs, i + 1);
        return null, e;
      }
    }
    assert rs[..|rs|] == rs;
    return m, None;
  }
}
