// db/base_tx.go: the statement builders of a transaction bound to a schema.
// The table of a resource is schema-qualified, and delete and exists let a
// FillValue condition render itself.
module BaseTx {
  import opened Wrappers
  import opened Strs
  import opened Values
  import opened SqlText
  import opened Conds
  import opened Resources
  import opened Meta
  import opened Dml
  import opened Builders

  const DefaultSchemaName: string := "lx"
  const DefaultTablePrefix: string := "gr_"

  /** getTableName: only the default schema adds the table prefix. */
  function GetTableName(schema: string, typ: ResourceType): (t: string)
    ensures schema == DefaultSchemaName ==> t == "lx.gr_" + typ
    ensures schema != DefaultSchemaName ==> t == schema + "." + typ
  {
    if schema != DefaultSchemaName then schema + "." + typ
    else schema + "." + DefaultTablePrefix + typ
  }

  /** Within one schema, different types get different tables. */
  lemma GetTableNameInjective(schema: string, a: ResourceType, b: ResourceType)
    requires GetTableName(schema, a) == GetTableName(schema, b)
    ensures a == b
  {
    var p := if schema != DefaultSchemaName then schema + "." else schema + "." + DefaultTablePrefix;
    assert GetTableName(schema, a) == p + a && GetTableName(schema, b) == p + b;
    assert a == (p + a)[|p|..] && b == (p + b)[|p|..];
  }

  /** getTableNameWithoutSchema. */
  function GetTableNameWithoutSchema(typ: ResourceType): (t: string)
    ensures |t| == |typ| + 3 && t[..3] == "gr_" && t[3..] == typ
  {
    DefaultTablePrefix + typ
  }

  function SchemaTables(schema: string): TableOf
  {
    (t: ResourceType) => GetTableName(schema, t)
  }

  datatype BaseTx = BaseTx(meta: ResourceMeta, schema: string)
  {
    method InsertSqlArgsAndID(r: Resource, generated: string) returns (res: Result<Stmt>)
      modifies r
      ensures res == InsertSpec(meta.GetDescriptor(r.dbType), SchemaTables(schema), r.dbType, old(r.id), generated, r.creationTimestamp, r.isStructPtr, r.column)
      ensures r.id == InsertID(meta.GetDescriptor(r.dbType), old(r.id), generated)
    {
      res := Insert(meta, SchemaTables(schema), r, generated);
    }

    method SelectSqlAndArgs(typ: ResourceType, conds: CondMap) returns (r: Result<Stmt>)
      modifies conds
      ensures r == SelectSpec(meta.GetDescriptor(typ), SchemaTables(schema), typ, old(conds.entries)).res
      ensures conds.entries == SelectSpec(meta.GetDescriptor(typ), SchemaTables(schema), typ, old(conds.entries)).left
    {
      r := Select(meta, SchemaTables(schema), typ, conds);
    }

    method DeleteSqlAndArgs(typ: ResourceType, conds: seq<Entry>) returns (r: Result<Stmt>)
      ensures r == DeleteSpec(meta.GetDescriptor(typ), SchemaTables(schema), typ, conds, true)
    {
      r := Delete(meta, SchemaTables(schema), typ, conds, true);
    }

    method ExistsSqlAndArgs(typ: ResourceType, conds: seq<Entry>) returns (r: Result<Stmt>)
      ensures r == ExistsSpec(meta.GetDescriptor(typ), SchemaTables(schema), typ, conds, true)
    {
      r := Exists(meta, SchemaTables(schema), typ, conds, true);
    }

    method CountSqlAndArgs(typ: ResourceType, conds: CondMap) returns (r: Result<Stmt>)
      modifies conds
      ensures r == CountSpec(meta.GetDescriptor(typ), SchemaTables(schema), typ, old(conds.entries)).res
      ensures conds.entries == CountSpec(meta.GetDescriptor(typ), SchemaTables(schema), typ, old(conds.entries)).left
    {
      r := Count(meta, SchemaTables(schema), typ, conds);
    }

    method UpdateSqlAndArgs(typ: ResourceType, newVals: seq<Entry>, conds: seq<Entry>) returns (r: Result<Stmt>)
      ensures r == UpdateSpec(meta.GetDescriptor(typ), SchemaTables(schema), typ, newVals, conds)
    {
      r := Update(meta, SchemaTables(schema), typ, newVals, conds);
    }

    function JoinSelectSqlAndArgs(owner: ResourceType, owned: ResourceType, ownerID: string): (r: Result<Stmt>)
      reads meta
      ensures r.Ok? <==> meta.Has(owned) && meta.Has(RelationType(owner, owned))
      ensures r.Ok? ==> r.value.args == [Str(ownerID)] && Sequenced(r.value)
    {
      JoinSelect(meta, SchemaTables(schema), owner, owned, ownerID)
    }
  }

  /** NewBaseTx: an empty schema means the default one. */
  function NewBaseTx(meta: ResourceMeta, schema: string): (b: BaseTx)
    ensures b.meta == meta && b.schema != ""
    ensures b.schema == if schema == "" then DefaultSchemaName else schema
  {
    BaseTx(meta, if schema == "" then DefaultSchemaName else schema)
  }

  /** A transaction on the default schema names every table `lx.gr_<type>`. */
  lemma DefaultSchemaTables(meta: ResourceMeta, typ: ResourceType)
    ensures GetTableName(NewBaseTx(meta, "").schema, typ) == "lx.gr_" + typ
  {
  }

  /** A FillValue condition of delete is rendered by its operator: the
      argument is the operator's transformed value, not the FillValue. */
  lemma DeleteRendersFill(b: BaseTx, typ: ResourceType, k: string, op: string, v: Value)
    requires b.meta.GetDescriptor(typ).Ok?
    requires FillValues.BuildSql(op, v, k, 1).Ok?
    ensures DeleteSpec(b.meta.GetDescriptor(typ), SchemaTables(b.schema), typ, [(k, Fill(op, v))], true)
      == Ok(Stmt(Enclose("delete from " + GetTableName(b.schema, b.meta.GetDescriptor(typ).value.Typ) + " where ",
                         FillValues.BuildSql(op, v, k, 1).value.sql, ""),
                 [FillValues.BuildSql(op, v, k, 1).value.arg]))
  {
    var es: seq<Entry> := [(k, Fill(op, v))];
    var f := FillValues.BuildSql(op, v, k, 1).value;
    assert es[..0] == [];
    assert ValueFn(true)(k, Fill(op, v), 1) == Ok(Stmt(f.sql, [f.arg]));
    assert Terms(es[..0], ValueFn(true), 1) == Ok(Clauses([], []));
    assert Terms(es, ValueFn(true), 1) == Extend(Ok(Clauses([], [])), es[0], ValueFn(true), 1);
    assert ValueWhere(es, true, 1) == Ok(Clauses([] + [f.sql], [] + [f.arg]));
    assert [] + [f.sql] == [f.sql] && [] + [f.arg] == [f.arg];
    assert ValueWhere(es, true, 1) == Ok(Clauses([f.sql], [f.arg]));
    assert es != [];
    assert JoinSql([f.sql], " and ") == f.sql;
    var d := b.meta.GetDescriptor(typ);
    assert SchemaTables(b.schema)(d.value.Typ) == GetTableName(b.schema, d.value.Typ);
    assert DeleteSpec(d, SchemaTables(b.schema), typ, es, true)
      == Ok(Stmt(Enclose("delete from " + SchemaTables(b.schema)(d.value.Typ) + " where ", JoinSql([f.sql], " and "), ""), [f.arg]));
  }
}
