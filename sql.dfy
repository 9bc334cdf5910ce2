// db/sql.go: the older, schema-less statement builders. Every table lives
// in schema `lx` with prefix `gr_`, delete and exists treat a FillValue as
// a plain value, and array-column indexes always say `using gin`.
module LegacySql {
  import opened Wrappers
  import opened Strs
  import opened Values
  import opened SqlText
  import opened Conds
  import opened Resources
  import opened Meta
  import opened Dml
  import opened Builders
  import Ddl
  import BaseTx

  /** The schema of db/schema.go. */
  const SchemaName: string := "lx"
  const TablePrefix: string := "gr_"
  const TablePrefixWithSchema: string := SchemaName + "." + TablePrefix

  /** resourceTableName: the same for every caller, whatever schema a store was opened with. */
  function ResourceTableName(typ: ResourceType): (t: string)
    ensures t == "lx.gr_" + typ
  {
    TablePrefixWithSchema + typ
  }

  /** The legacy table name is the one a BaseTx on the default schema uses. */
  lemma ResourceTableNameIsDefault(typ: ResourceType)
    ensures ResourceTableName(typ) == BaseTx.GetTableName(BaseTx.DefaultSchemaName, typ)
  {
  }

  /** resourceTableNameWithoutSchema. */
  function ResourceTableNameWithoutSchema(typ: ResourceType): (t: string)
    ensures t == BaseTx.GetTableNameWithoutSchema(typ)
    ensures "lx." + t == ResourceTableName(typ)
  {
    TablePrefix + typ
  }

  function LegacyTables(): TableOf
  {
    (t: ResourceType) => ResourceTableName(t)
  }

  /** How createTableSql names things: the table and the references are
      schema-qualified, the index names and targets are not, and an array
      column's index always uses gin. */
  function LegacyNaming(typ: ResourceType, indexPrefix: string): (n: Ddl.Naming)
    ensures n.gin
    ensures n.table == ResourceTableName(typ)
    ensures n.indexTable == n.indexTarget == "gr_" + typ
  {
    Ddl.Naming(ResourceTableName(typ), t => ResourceTableName(t), ResourceTableNameWithoutSchema(typ),
               ResourceTableNameWithoutSchema(typ), indexPrefix, true)
  }

  /** createTableSql; `indexPrefix` is the package's IndexPrefix. */
  method CreateTableSql(d: ResourceDescriptor, indexPrefix: string) returns (table: string, createIndexes: seq<string>)
    ensures table == Ddl.CreateTableText(d, LegacyNaming(d.Typ, indexPrefix))
    ensures createIndexes == Ddl.IndexStatements(d, LegacyNaming(d.Typ, indexPrefix))
  {
    table, createIndexes := Ddl.CreateTableSql(d, LegacyNaming(d.Typ, indexPrefix));
  }

  /** One legacy index statement, written out. */
  lemma LegacyIndexText(typ: ResourceType, indexPrefix: string, col: string, gin: bool)
    ensures Ddl.IndexText(LegacyNaming(typ, indexPrefix), col, col, gin)
      == "create index  if not exists " + indexPrefix + "gr_" + typ + "_" + col
         + " on gr_" + typ + (if gin then " using gin" else "") + " (" + col + ")"
  {
    var t := "gr_" + typ;
    assert "create index " + " if not exists " == "create index  if not exists ";
    assert indexPrefix + t == indexPrefix + "gr_" + typ;
    assert " on " + t == " on gr_" + typ;
  }

  /** Every indexed array column's statement says `using gin` and no other
      statement does; LegacyIndexText spells each one out. */
  lemma AlwaysGin(d: ResourceDescriptor, indexPrefix: string)
    ensures var n := LegacyNaming(d.Typ, indexPrefix);
      var c, p, g := |Ddl.CombinedIndex(d, n)|, Ddl.PlainIndexed(d.Fields), Ddl.GinIndexed(d.Fields);
      var s := Ddl.IndexStatements(d, n);
      |s| == c + |p| + |g| &&
      (forall j :: 0 <= j < |g| ==> s[c + |p| + j] == Ddl.IndexText(n, g[j], g[j], true)) &&
      (forall j :: 0 <= j < |p| ==> s[c + j] == Ddl.IndexText(n, p[j], p[j], false))
  {
    Ddl.IndexOrder(d, LegacyNaming(d.Typ, indexPrefix));
  }

  method InsertSqlArgsAndID(meta: ResourceMeta, r: Resource, generated: string) returns (res: Result<Stmt>)
    modifies r
    ensures res == InsertSpec(meta.GetDescriptor(r.dbType), LegacyTables(), r.dbType, old(r.id), generated, r.creationTimestamp, r.isStructPtr, r.column)
    ensures r.id == InsertID(meta.GetDescriptor(r.dbType), old(r.id), generated)
  {
    res := Insert(meta, LegacyTables(), r, generated);
  }

  method SelectSqlAndArgs(meta: ResourceMeta, typ: ResourceType, conds: CondMap) returns (r: Result<Stmt>)
    modifies conds
    ensures r == SelectSpec(meta.GetDescriptor(typ), LegacyTables(), typ, old(conds.entries)).res
    ensures conds.entries == SelectSpec(meta.GetDescriptor(typ), LegacyTables(), typ, old(conds.entries)).left
  {
    r := Select(meta, LegacyTables(), typ, conds);
  }

  /** deleteSqlAndArgs: no FillValue interpretation. */
  method DeleteSqlAndArgs(meta: ResourceMeta, typ: ResourceType, conds: seq<Entry>) returns (r: Result<Stmt>)
    ensures r == DeleteSpec(meta.GetDescriptor(typ), LegacyTables(), typ, conds, false)
  {
    r := Delete(meta, LegacyTables(), typ, conds, false);
  }

  /** existsSqlAndArgs: no FillValue interpretation. */
  method ExistsSqlAndArgs(meta: ResourceMeta, typ: ResourceType, conds: seq<Entry>) returns (r: Result<Stmt>)
    ensures r == ExistsSpec(meta.GetDescriptor(typ), LegacyTables(), typ, conds, false)
  {
    r := Exists(meta, LegacyTables(), typ, conds, false);
  }

  method CountSqlAndArgs(meta: ResourceMeta, typ: ResourceType, conds: CondMap) returns (r: Result<Stmt>)
    modifies conds
    ensures r == CountSpec(meta.GetDescriptor(typ), LegacyTables(), typ, old(conds.entries)).res
    ensures conds.entries == CountSpec(meta.GetDescriptor(typ), LegacyTables(), typ, old(conds.entries)).left
  {
    r := Count(meta, LegacyTables(), typ, conds);
  }

  /** updateSqlAndArgs: here the WHERE part does interpret FillValues. */
  method UpdateSqlAndArgs(meta: ResourceMeta, typ: ResourceType, newVals: seq<Entry>, conds: seq<Entry>) returns (r: Result<Stmt>)
    ensures r == UpdateSpec(meta.GetDescriptor(typ), LegacyTables(), typ, newVals, conds)
  {
    r := Update(meta, LegacyTables(), typ, newVals, conds);
  }

  function JoinSelectSqlAndArgs(meta: ResourceMeta, owner: ResourceType, owned: ResourceType, ownerID: string): (r: Result<Stmt>)
    reads meta
    ensures r.Ok? <==> meta.Has(owned) && meta.Has(RelationType(owner, owned))
    ensures r.Ok? ==> r.value.args == [Str(ownerID)] && Sequenced(r.value)
  {
    JoinSelect(meta, LegacyTables(), owner, owned, ownerID)
  }

  /** Delete never fails past the descriptor lookup, and its arguments are
      the condition values themselves, FillValues included, each bound by a
      plain `col=$i`. */
  lemma DeletePlain(d: Result<ResourceDescriptor>, typ: ResourceType, es: seq<Entry>)
    requires d.Ok? && es != []
    ensures DeleteSpec(d, LegacyTables(), typ, es, false)
      == Ok(Stmt(Enclose("delete from " + ResourceTableName(d.value.Typ) + " where ", JoinSql(PlainParts(es, 1), " and "), ""),
                 EntryValues(es)))
  {
    PlainWhere(es, 1);
    assert LegacyTables()(d.value.Typ) == ResourceTableName(d.value.Typ);
  }

  /** The same for exists. */
  lemma ExistsPlain(d: Result<ResourceDescriptor>, typ: ResourceType, es: seq<Entry>)
    requires d.Ok? && es != []
    ensures ExistsSpec(d, LegacyTables(), typ, es, false)
      == Ok(Stmt(Enclose("select (exists (select 1 from  " + ResourceTableName(d.value.Typ) + " where ", JoinSql(PlainParts(es, 1), " and "), " limit 1))"),
                 EntryValues(es)))
  {
    PlainWhere(es, 1);
    assert LegacyTables()(d.value.Typ) == ResourceTableName(d.value.Typ);
  }

  /** Exists with no conditions: one fixed statement and no arguments. */
  lemma ExistsWithoutConds(d: Result<ResourceDescriptor>, typ: ResourceType)
    requires d.Ok?
    ensures ExistsSpec(d, LegacyTables(), typ, [], false)
      == Ok(Stmt([Lit("select (exists (select 1 from lx.gr_" + d.value.Typ + " limit 1))")], []))
  {
    assert LegacyTables()(d.value.Typ) == ResourceTableName(d.value.Typ);
    assert "select (exists (select 1 from " + ("lx.gr_" + d.value.Typ) + " limit 1))"
        == "select (exists (select 1 from lx.gr_" + d.value.Typ + " limit 1))";
  }
}
