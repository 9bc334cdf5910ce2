// db/pg_store.go: the PostgreSQL store. Its tables live in the store's
// schema, its indexes use gin unless the driver is openGauss, Clean drops in
// reverse registration order, and CopyFrom copies the descriptor's columns.
module PgStore {
  import opened Wrappers
  import opened Values
  import opened GoTypes
  import opened Resources
  import opened Meta
  import Ddl
  import BaseTx
  import Store

  /** The bare table name pg_store.go asks of a two-argument
      getTableNameWithoutSchema(schema, typ), which is not part of this model. */
  type BareName = (string, ResourceType) -> string

  /** How PGStore's createTableSql names things. */
  function PgNaming(schema: string, typ: ResourceType, bare: BareName, indexPrefix: string, driver: Store.Driver): (n: Ddl.Naming)
    ensures n.table == n.indexTarget == BaseTx.GetTableName(schema, typ)
    ensures n.indexTable == bare(schema, typ)
    ensures n.gin <==> driver != Store.DriverOpenGauss
  {
    Ddl.Naming(BaseTx.GetTableName(schema, typ), t => BaseTx.GetTableName(schema, t), bare(schema, typ),
               BaseTx.GetTableName(schema, typ), indexPrefix, driver != Store.DriverOpenGauss)
  }

  /** A bulk copy: the target table, the columns and the rows, as handed to
      the connection's CopyFrom. */
  datatype CopyPlan = CopyPlan(schema: string, table: string, columns: seq<string>, rows: seq<seq<Value>>)

  function FieldNames(fs: seq<ResourceField>): (r: seq<string>)
    ensures |r| == |fs|
    ensures forall i :: 0 <= i < |fs| ==> r[i] == fs[i].Name
  {
    if fs == [] then [] else FieldNames(fs[..|fs| - 1]) + [fs[|fs| - 1].Name]
  }

  /** CopyFrom: the descriptor's columns in field order; nothing is copied
      when there are no rows or no columns (`Ok(None)` is Go's `0, nil`). */
  function CopyFromSpec(d: Result<ResourceDescriptor>, schema: string, bare: BareName, typ: ResourceType,
                        values: seq<seq<Value>>): (r: Result<Option<CopyPlan>>)
    ensures r.Err? <==> d.Err?
    ensures r.Ok? ==> (r.value.None? <==> values == [] || d.value.Fields == [])
    ensures r.Ok? && r.value.Some? ==>
      r.value.value == CopyPlan(schema, bare(schema, d.value.Typ), FieldNames(d.value.Fields), values)
  {
    if d.Err? then Err("get descriptor for " + typ + " failed " + d.error)
    else
      var columns := FieldNames(d.value.Fields);
      if values == [] || columns == [] then Ok(None)
      else Ok(Some(CopyPlan(schema, bare(schema, d.value.Typ), columns, values)))
  }

  /** CopyFromEx: the caller's columns; only an empty row list copies nothing. */
  function CopyFromExSpec(d: Result<ResourceDescriptor>, schema: string, bare: BareName, typ: ResourceType,
                          columns: seq<string>, values: seq<seq<Value>>): (r: Result<Option<CopyPlan>>)
    ensures r.Err? <==> d.Err?
    ensures r.Ok? ==> (r.value.None? <==> values == [])
    ensures r.Ok? && r.value.Some? ==> r.value.value.columns == columns && r.value.value.rows == values
  {
    if d.Err? then Err("get descriptor for " + typ + " failed " + d.error)
    else if values == [] then Ok(None)
    else Ok(Some(CopyPlan(schema, bare(schema, d.value.Typ), columns, values)))
  }

  /** A descriptor that genDescriptor built always has columns, so CopyFrom
      of such a type copies whenever there are rows. */
  lemma CopyGeneratedType(r: GoStruct, schema: string, bare: BareName, values: seq<seq<Value>>)
    requires GenDescriptorSpec(r).Ok? && values != []
    ensures CopyFromSpec(GenDescriptorSpec(r), schema, bare, ResourceDBType(r), values).Ok?
    ensures CopyFromSpec(GenDescriptorSpec(r), schema, bare, ResourceDBType(r), values).value.Some?
  {
    GenDescriptorShape(r);
  }

  class PGStore {
    var schema: string
    const meta: ResourceMeta
    const driver: Store.Driver
    const bare: BareName
    const indexPrefix: string

    /** NewPGStore's store value: it starts on the default schema. */
    constructor (meta: ResourceMeta, driver: Store.Driver, bare: BareName, indexPrefix: string)
      ensures schema == BaseTx.DefaultSchemaName
      ensures this.meta == meta && this.driver == driver && this.bare == bare && this.indexPrefix == indexPrefix
    {
      schema := BaseTx.DefaultSchemaName;
      this.meta := meta;
      this.driver := driver;
      this.bare := bare;
      this.indexPrefix := indexPrefix;
    }

    method SetSchema(s: string)
      modifies this
      ensures schema == s
    {
      schema := s;
    }

    /** createTableSql. */
    method CreateTableSql(d: ResourceDescriptor) returns (table: string, createIndexes: seq<string>)
      ensures table == Ddl.CreateTableText(d, PgNaming(schema, d.Typ, bare, indexPrefix, driver))
      ensures createIndexes == Ddl.IndexStatements(d, PgNaming(schema, d.Typ, bare, indexPrefix, driver))
    {
      table, createIndexes := Ddl.CreateTableSql(d, PgNaming(schema, d.Typ, bare, indexPrefix, driver));
    }

    /** Clean: the drop statements, last registered type first. */
    method Clean() returns (stmts: seq<string>)
      ensures stmts == Store.DropStatements(meta.resources, BaseTx.SchemaTables(schema))
    {
      var rs := meta.resources;
      stmts := [];
      var i := |rs|;
      assert rs[i..] == [];
      while i > 0
        invariant 0 <= i <= |rs|
        invariant stmts == Store.DropStatements(rs[i..], BaseTx.SchemaTables(schema))
      {
        Store.DropStatementsFront(rs, i, BaseTx.SchemaTables(schema));
        stmts := stmts + [Store.DropStatement(BaseTx.GetTableName(schema, rs[i - 1]))];
        i := i - 1;
      }
      assert rs[0..] == rs;
    }

    /** The BaseTx a transaction of this store builds its statements with. */
    function Tx(): (b: BaseTx.BaseTx)
      reads this
      ensures b.meta == meta && b.schema == if schema == "" then BaseTx.DefaultSchemaName else schema
    {
      BaseTx.NewBaseTx(meta, schema)
    }
  }

  /** How the index statements under naming `n` relate to those under `pg`,
      which uses gin: as many, the same up to the gin list, and each gin-list
      statement says `using gin` exactly when `n` does. */
  predicate GinLayout(d: ResourceDescriptor, n: Ddl.Naming, pg: Ddl.Naming)
  {
    var s := Ddl.IndexStatements(d, n);
    var c, p, g := |Ddl.CombinedIndex(d, n)|, Ddl.PlainIndexed(d.Fields), Ddl.GinIndexed(d.Fields);
    |s| == |Ddl.IndexStatements(d, pg)| == c + |p| + |g| &&
    (forall j :: 0 <= j < |g| ==> (s[c + |p| + j] == Ddl.IndexText(n, g[j], g[j], true) <==> n.gin)) &&
    (forall j :: 0 <= j < c + |p| ==> s[j] == Ddl.IndexStatements(d, pg)[j])
  }

  /** The gin flag only changes the text of the array-column indexes: the
      statements are as many, in the same order, for every driver, and they
      say `using gin` exactly when the driver is not openGauss. */
  lemma GinUnlessGauss(d: ResourceDescriptor, schema: string, bare: BareName, indexPrefix: string, driver: Store.Driver)
    ensures PgNaming(schema, d.Typ, bare, indexPrefix, driver).gin <==> driver != Store.DriverOpenGauss
    ensures GinLayout(d, PgNaming(schema, d.Typ, bare, indexPrefix, driver),
                      PgNaming(schema, d.Typ, bare, indexPrefix, Store.DriverPostgresql))
  {
    GinOnlyChangesGin(d, PgNaming(schema, d.Typ, bare, indexPrefix, driver),
                      PgNaming(schema, d.Typ, bare, indexPrefix, Store.DriverPostgresql));
  }

  /** Two namings that agree on everything an index statement mentions, the
      second with gin: the statements differ at most in the gin list. */
  lemma GinOnlyChangesGin(d: ResourceDescriptor, n: Ddl.Naming, pg: Ddl.Naming)
    requires pg.gin
    requires pg.indexPrefix == n.indexPrefix && pg.indexTable == n.indexTable && pg.indexTarget == n.indexTarget
    ensures GinLayout(d, n, pg)
  {
    GinIndexIff(d, n);
    Ddl.IndexOrder(d, n);
    Ddl.IndexOrder(d, pg);
    assert Ddl.CombinedIndex(d, n) == Ddl.CombinedIndex(d, pg);
  }

  /** The gin-list statements under any naming say `using gin` exactly when the naming asks for it. */
  lemma GinIndexIff(d: ResourceDescriptor, n: Ddl.Naming)
    ensures var c, p, g := |Ddl.CombinedIndex(d, n)|, Ddl.PlainIndexed(d.Fields), Ddl.GinIndexed(d.Fields);
      var s := Ddl.IndexStatements(d, n);
      |s| == c + |p| + |g| &&
      forall j :: 0 <= j < |g| ==> (s[c + |p| + j] == Ddl.IndexText(n, g[j], g[j], true) <==> n.gin)
  {
    Ddl.IndexOrder(d, n);
    var s := Ddl.IndexStatements(d, n);
    var c, p, g := |Ddl.CombinedIndex(d, n)|, Ddl.PlainIndexed(d.Fields), Ddl.GinIndexed(d.Fields);
    forall j | 0 <= j < |g|
      ensures s[c + |p| + j] == Ddl.IndexText(n, g[j], g[j], true) <==> n.gin
    {
      assert s[c + |p| + j] == Ddl.IndexText(n, g[j], g[j], n.gin);
      Ddl.GinMarker(n, g[j], g[j], true);
    }
  }

  method CopyFrom(meta: ResourceMeta, schema: string, bare: BareName, typ: ResourceType, values: seq<seq<Value>>)
    returns (r: Result<Option<CopyPlan>>)
    ensures r == CopyFromSpec(meta.GetDescriptor(typ), schema, bare, typ, values)
  {
    var d := meta.GetDescriptor(typ);
    if d.Err? {
      return Err("get descriptor for " + typ + " failed " + d.error);
    }
    var fs := d.value.Fields;
    var columns: seq<string> := [];
    for i := 0 to |fs|
      invariant columns == FieldNames(fs[..i])
    {
      assert fs[..i + 1][..i] == fs[..i];
      columns := columns + [fs[i].Name];
    }
    assert fs[..|fs|] == fs;
    if |values| == 0 || |columns| == 0 {
      return Ok(None);
    }
    r := Ok(Some(CopyPlan(schema, bare(schema, d.value.Typ), columns, values)));
  }

  method CopyFromEx(meta: ResourceMeta, schema: string, bare: BareName, typ: ResourceType, columns: seq<string>,
                    values: seq<seq<Value>>) returns (r: Result<Option<CopyPlan>>)
    ensures r == CopyFromExSpec(meta.GetDescriptor(typ), schema, bare, typ, columns, values)
  {
    var d := meta.GetDescriptor(typ);
    if d.Err? {
      return Err("get descriptor for " + typ + " failed " + d.error);
    }
    if |values| == 0 {
      return Ok(None);
    }
    r := Ok(Some(CopyPlan(schema, bare(schema, d.value.Typ), columns, values)));
  }
}
