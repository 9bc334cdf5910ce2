// db/gauss_store.go: the openGauss store. Its connection string drops
// pool_max_conns, its indexes never use gin and name the unqualified table,
// its insert lists the columns, and the values it sends are first filtered:
// addresses become text and slices become array values.
module Gauss {
  import opened Wrappers
  import opened Strs
  import opened Values
  import opened SqlText
  import opened Resources
  import opened Meta
  import opened Builders
  import Ddl
  import BaseTx
  import Store
  import PgStore
  import GaussArray

  // ------------------------------------------------------------ parseGaussConnDsn

  const PoolMaxConns: string := "pool_max_conns"

  /** strings.SplitN(pair, "=", 2): the text before the first `=` and the
      text after it, or the pair alone when it has no `=`. */
  function SplitPair(pair: string): (kv: seq<string>)
    ensures |kv| == 1 || |kv| == 2
  {
    var i := IndexOf(pair, '=');
    if i < 0 then [pair] else [pair[..i], pair[i + 1..]]
  }

  /** A pair with a key comes back unchanged from kv[0] + "=" + kv[1]; a key never holds `=`. */
  lemma PairRejoined(pair: string)
    ensures |SplitPair(pair)| == 2 <==> '=' in pair
    ensures var kv := SplitPair(pair); |kv| == 2 ==> kv[0] + "=" + kv[1] == pair && '=' !in kv[0]
  {
    var i := IndexOf(pair, '=');
    if i >= 0 {
      assert pair == pair[..i] + "=" + pair[i + 1..];
    }
  }

  /** A pair the openGauss driver is given: it has a key, and the key is not pool_max_conns. */
  predicate Kept(pair: string)
  {
    var kv := SplitPair(pair); |kv| == 2 && kv[0] != PoolMaxConns
  }

  /** The kept pairs, in order. */
  function KeptPairs(pairs: seq<string>): (r: seq<string>)
    ensures |r| <= |pairs|
  {
    if pairs == [] then []
    else KeptPairs(pairs[..|pairs| - 1]) + (if Kept(pairs[|pairs| - 1]) then [pairs[|pairs| - 1]] else [])
  }

  /** Filtering keeps the order: the kept pairs of a + b are those of a, then those of b. */
  lemma {:induction false} KeptPairsAppend(a: seq<string>, b: seq<string>)
    ensures KeptPairs(a + b) == KeptPairs(a) + KeptPairs(b)
    decreases |b|
  {
    if b == [] {
      assert a + b == a;
    } else {
      var b' := b[..|b| - 1];
      assert (a + b)[..|a + b| - 1] == a + b';
      KeptPairsAppend(a, b');
    }
  }

  /** Only pairs of the input are kept, and only those with a key other than pool_max_conns. */
  lemma {:induction false} KeptPairsSound(pairs: seq<string>, j: nat)
    requires j < |KeptPairs(pairs)|
    ensures KeptPairs(pairs)[j] in pairs && Kept(KeptPairs(pairs)[j])
    decreases |pairs|
  {
    var init := pairs[..|pairs| - 1];
    if j < |KeptPairs(init)| {
      KeptPairsSound(init, j);
      assert KeptPairs(init)[j] in init;
      var k :| 0 <= k < |init| && init[k] == KeptPairs(init)[j];
      assert pairs[k] == init[k];
    }
  }

  /** Every pair that has a key other than pool_max_conns is kept. */
  lemma {:induction false} KeptPairsComplete(pairs: seq<string>, i: nat)
    requires i < |pairs| && Kept(pairs[i])
    ensures pairs[i] in KeptPairs(pairs)
    decreases |pairs|
  {
    if i < |pairs| - 1 {
      assert pairs[..|pairs| - 1][i] == pairs[i];
      KeptPairsComplete(pairs[..|pairs| - 1], i);
    }
  }

  /** When every pair is kept the filter changes nothing. */
  lemma {:induction false} KeptPairsAll(pairs: seq<string>)
    requires forall j :: 0 <= j < |pairs| ==> Kept(pairs[j])
    ensures KeptPairs(pairs) == pairs
    decreases |pairs|
  {
    if pairs != [] {
      var init := pairs[..|pairs| - 1];
      assert forall j :: 0 <= j < |init| ==> init[j] == pairs[j];
      KeptPairsAll(init);
      assert Kept(pairs[|pairs| - 1]);
      assert KeptPairs(pairs) == init + [pairs[|pairs| - 1]];
      assert init + [pairs[|pairs| - 1]] == pairs;
    }
  }

  /** parseGaussConnDsn: the space-separated pairs with a key, except pool_max_conns, in order and unchanged. */
  method ParseGaussConnDsn(connStr: string) returns (dsn: string)
    ensures dsn == Join(KeptPairs(Split(connStr, ' ')), " ")
  {
    var pairs := Split(connStr, ' ');
    var out: seq<string> := [];
    for i := 0 to |pairs|
      invariant out == KeptPairs(pairs[..i])
    {
      assert pairs[..i + 1][..i] == pairs[..i];
      var kv := SplitPair(pairs[i]);
      PairRejoined(pairs[i]);
      if |kv| == 2 && kv[0] != PoolMaxConns {
        out := out + [kv[0] + "=" + kv[1]];
      }
    }
    assert pairs[..|pairs|] == pairs;
    dsn := Join(out, " ");
  }

  /** A connection string whose every pair has a key other than pool_max_conns is passed on as it is. */
  lemma DsnUnchanged(connStr: string)
    requires forall j :: 0 <= j < |Split(connStr, ' ')| ==> Kept(Split(connStr, ' ')[j])
    ensures Join(KeptPairs(Split(connStr, ' ')), " ") == connStr
  {
    KeptPairsAll(Split(connStr, ' '));
    JoinSplit(connStr, ' ');
  }

  /** A pool_max_conns pair and a bare word are dropped and the pairs
      around them are kept whole, a value holding `=` included. */
  lemma DsnDrops(h: string, v: string, w: string, o: string)
    requires Kept(h) && Kept(o) && '=' !in w
    ensures KeptPairs([h, PoolMaxConns + "=" + v, w, o]) == [h, o]
  {
    var p := PoolMaxConns + "=" + v;
    assert p[..14] == PoolMaxConns;
    KeptOne(p, 14, false);
    assert IndexOf(w, '=') == -1;
    assert !Kept(w);
    KeptPairsAppend([h, p], [w, o]);
    assert [h, p] + [w, o] == [h, p, w, o];
    KeptTwo(h, p);
    KeptTwo(w, o);
  }

  /** The kept pairs of two pairs, one at a time. */
  lemma KeptTwo(a: string, b: string)
    ensures KeptPairs([a, b]) == (if Kept(a) then [a] else []) + (if Kept(b) then [b] else [])
  {
    KeptPairsAppend([a], [b]);
    assert [a] + [b] == [a, b];
    KeptSingle(a);
    KeptSingle(b);
  }

  lemma KeptSingle(pair: string)
    ensures KeptPairs([pair]) == if Kept(pair) then [pair] else []
  {
    assert [pair][..0] == [];
  }

  lemma KeptOne(pair: string, i: nat, kept: bool)
    requires i < |pair| && pair[i] == '=' && '=' !in pair[..i]
    requires kept <==> pair[..i] != PoolMaxConns
    ensures Kept(pair) == kept
  {
    assert IndexOf(pair, '=') == i;
  }

  // ------------------------------------------------------------ DBIsRecoveryMode

  /** DBIsRecoveryMode, given the query's error and the outcome of scanning each row. */
  function RecoverySpec(queryErr: Option<string>, rows: seq<Result<bool>>): (r: (bool, Option<string>))
    ensures r.1.Some? ==> !r.0
  {
    if queryErr.Some? then (false, queryErr)
    else
      match GaussArray.Convert(rows, (x: Result<bool>) => x)
      case Err(e) => (false, Some(e))
      case Ok(rs) => (|rs| == 1 && rs[0], None)
  }

  method DBIsRecoveryMode(queryErr: Option<string>, rows: seq<Result<bool>>) returns (inRecovery: bool, err: Option<string>)
    ensures (inRecovery, err) == RecoverySpec(queryErr, rows)
  {
    if queryErr.Some? {
      return false, queryErr;
    }
    var rs: seq<bool> := [];
    for i := 0 to |rows|
      invariant |rs| == i
      invariant forall j :: 0 <= j < i ==> rows[j].Ok? && rs[j] == rows[j].value
    {
      if rows[i].Err? {
        GaussArray.ConvertFirstError(rows, (x: Result<bool>) => x, i);
        return false, Some(rows[i].error);
      }
      rs := rs + [rows[i].value];
    }
    assert GaussArray.Convert(rows, (x: Result<bool>) => x).value == rs;
    return |rs| == 1 && rs[0], None;
  }

  /** The database is in recovery exactly when the query and the scan succeed
      and there is exactly one row, which says true. */
  lemma RecoveryOnlyOnOneTrueRow(queryErr: Option<string>, rows: seq<Result<bool>>)
    ensures RecoverySpec(queryErr, rows).0 <==> queryErr.None? && rows == [Ok(true)]
    ensures RecoverySpec(queryErr, rows).1.None? <==>
      queryErr.None? && forall j :: 0 <= j < |rows| ==> rows[j].Ok?
  {
    if queryErr.None? {
      var c := GaussArray.Convert(rows, (x: Result<bool>) => x);
      if c.Ok? && |c.value| == 1 {
        assert rows == [Ok(c.value[0])];
      }
      if rows == [Ok(true)] {
        assert c.Ok?;
      }
    }
  }

  // ------------------------------------------------------------ filterValue

  /** filterValue: addresses become their text, prefixes and networks the
      text of their masked network (`masked` stands for
      net.ParseCIDR(s) followed by String()), any array or slice becomes
      PQArray of it, and every other value is passed on unchanged. */
  function FilterValue(v: Value, masked: string -> string): (r: Value)
    ensures !r.NetipAddr? && !r.NetipPrefix? && !r.NetIP? && !r.NetIPNet? && !r.List?
    ensures r != v ==> v.NetipAddr? || v.NetipPrefix? || v.NetIP? || v.NetIPNet? || v.List?
    ensures v.List? ==> r.Encoded? && r.inner == v
  {
    match v
    case NetipAddr(a) => Str(a)
    case NetipPrefix(p) => Str(masked(p))
    case NetIP(ip) => Str(ip)
    case NetIPNet(n) => Str(masked(n))
    case List(_, _, _) => GaussArray.PQArray(v, false)
    case _ => v
  }

  /** Filtering twice is filtering once. */
  lemma FilterIdempotent(v: Value, masked: string -> string)
    ensures FilterValue(FilterValue(v, masked), masked) == FilterValue(v, masked)
  {
  }

  /** A slice is sent as the array value PQArray picks; a string-indexed
      address is sent as text. */
  lemma FilterSlices(c: Container, e: ElemType, items: seq<Value>, masked: string -> string)
    ensures FilterValue(List(c, e, items), masked).encoder == Values.GenericArray <==> c == GoArray || e.EOther?
    ensures c == GoSlice && e == EUint64 ==> FilterValue(List(c, e, items), masked) == Encoded(Values.Uint64Array, List(c, e, items))
  {
  }

  /** filterQueryParams and filterCopyValues take the type of every value; a
      nil value has none, and asking for it panics. */
  function FilterParam(masked: string -> string): (f: Value -> Result<Value>)
    ensures forall v: Value :: f(v).Err? <==> v.Nil?
    ensures forall v: Value :: !v.Nil? ==> f(v) == Ok(FilterValue(v, masked))
  {
    (v: Value) => if v.Nil? then Err("reflect: call of reflect.Value.Type on zero Value") else Ok(FilterValue(v, masked))
  }

  /** filterQueryParams / filterCopyValues; an Err is a panic. */
  method FilterParams(params: seq<Value>, masked: string -> string) returns (out: Result<seq<Value>>)
    ensures out == GaussArray.Convert(params, FilterParam(masked))
  {
    var acc: seq<Value> := [];
    for i := 0 to |params|
      invariant |acc| == i
      invariant forall j :: 0 <= j < i ==> FilterParam(masked)(params[j]) == Ok(acc[j])
    {
      if params[i].Nil? {
        GaussArray.ConvertFirstError(params, FilterParam(masked), i);
        return Err("reflect: call of reflect.Value.Type on zero Value");
      }
      acc := acc + [FilterValue(params[i], masked)];
    }
    assert GaussArray.Convert(params, FilterParam(masked)).value == acc;
    out := Ok(acc);
  }

  /** Parameters without nil are all filtered, in order; one nil panics. */
  lemma FilterParamsShape(params: seq<Value>, masked: string -> string)
    ensures var r := GaussArray.Convert(params, FilterParam(masked));
      (r.Ok? <==> forall j :: 0 <= j < |params| ==> !params[j].Nil?) &&
      (r.Ok? ==> |r.value| == |params| && forall j :: 0 <= j < |params| ==> r.value[j] == FilterValue(params[j], masked))
  {
    var r := GaussArray.Convert(params, FilterParam(masked));
    if r.Err? {
      var k :| 0 <= k < |params| && FilterParam(masked)(params[k]).Err?;
      assert params[k].Nil?;
    } else {
      assert forall j :: 0 <= j < |params| ==> FilterParam(masked)(params[j]).Ok?;
    }
  }

  // ------------------------------------------------------------ createTableSql

  /** How GaussStore's createTableSql names things: the table and the
      references are in the store's schema, the index names and targets use
      the bare `gr_` table, and nothing uses gin. */
  function GaussNaming(schema: string, typ: ResourceType, indexPrefix: string): (n: Ddl.Naming)
    ensures !n.gin
    ensures n.table == BaseTx.GetTableName(schema, typ)
    ensures n.indexTable == n.indexTarget == "gr_" + typ
  {
    Ddl.Naming(BaseTx.GetTableName(schema, typ), t => BaseTx.GetTableName(schema, t), BaseTx.GetTableNameWithoutSchema(typ),
               BaseTx.GetTableNameWithoutSchema(typ), indexPrefix, false)
  }

  /** Indexed array columns still get an index, as plain as any other, and
      no statement says `using gin`. */
  lemma NeverGin(d: ResourceDescriptor, schema: string, indexPrefix: string)
    ensures var n := GaussNaming(schema, d.Typ, indexPrefix);
      var c, p, g := |Ddl.CombinedIndex(d, n)|, Ddl.PlainIndexed(d.Fields), Ddl.GinIndexed(d.Fields);
      var s := Ddl.IndexStatements(d, n);
      |s| == c + |p| + |g| &&
      (d.Idxes != [] ==> s[0] == Ddl.IndexText(n, Join(d.Idxes, "_"), Join(d.Idxes, ","), false)) &&
      (forall j :: 0 <= j < |p| ==> s[c + j] == Ddl.IndexText(n, p[j], p[j], false)) &&
      (forall j :: 0 <= j < |g| ==> s[c + |p| + j] == Ddl.IndexText(n, g[j], g[j], false))
  {
    PlainIndexOrder(d, GaussNaming(schema, d.Typ, indexPrefix));
  }

  /** IndexOrder under a naming without gin. */
  lemma PlainIndexOrder(d: ResourceDescriptor, n: Ddl.Naming)
    requires !n.gin
    ensures var c, p, g := |Ddl.CombinedIndex(d, n)|, Ddl.PlainIndexed(d.Fields), Ddl.GinIndexed(d.Fields);
      var s := Ddl.IndexStatements(d, n);
      |s| == c + |p| + |g| &&
      (d.Idxes != [] ==> s[0] == Ddl.IndexText(n, Join(d.Idxes, "_"), Join(d.Idxes, ","), false)) &&
      (forall j :: 0 <= j < |p| ==> s[c + j] == Ddl.IndexText(n, p[j], p[j], false)) &&
      (forall j :: 0 <= j < |g| ==> s[c + |p| + j] == Ddl.IndexText(n, g[j], g[j], false))
  {
    Ddl.IndexOrder(d, n);
  }

  class GaussStore {
    var schema: string
    const meta: ResourceMeta
    const indexPrefix: string

    /** NewGaussStore's store value: it starts on the default schema. */
    constructor (meta: ResourceMeta, indexPrefix: string)
      ensures schema == BaseTx.DefaultSchemaName
      ensures this.meta == meta && this.indexPrefix == indexPrefix
    {
      schema := BaseTx.DefaultSchemaName;
      this.meta := meta;
      this.indexPrefix := indexPrefix;
    }

    method SetSchema(s: string)
      modifies this
      ensures schema == s
    {
      schema := s;
    }

    function GetSchema(): (s: string)
      reads this
      ensures s == schema
    {
      schema
    }

    method CreateTableSql(d: ResourceDescriptor) returns (table: string, createIndexes: seq<string>)
      ensures table == Ddl.CreateTableText(d, GaussNaming(schema, d.Typ, indexPrefix))
      ensures createIndexes == Ddl.IndexStatements(d, GaussNaming(schema, d.Typ, indexPrefix))
    {
      table, createIndexes := Ddl.CreateTableSql(d, GaussNaming(schema, d.Typ, indexPrefix));
    }

    /** Clean: every drop is attempted, last registered type first, even
        after one fails; `execErr` is the outcome of executing a statement,
        and `failed` the tables whose failure was printed. */
    method Clean(execErr: string -> Option<string>) returns (stmts: seq<string>, failed: seq<string>)
      ensures stmts == Store.DropStatements(meta.resources, BaseTx.SchemaTables(schema))
      ensures failed == FailedDrops(DropTables(meta.resources, BaseTx.SchemaTables(schema)), execErr)
    {
      stmts, failed := DropAll(meta.resources, BaseTx.SchemaTables(schema), execErr);
    }

    /** Begin's transaction: statements are built on this store's schema. */
    function Tx(): (b: BaseTx.BaseTx)
      reads this
      ensures b.meta == meta && b.schema == if schema == "" then BaseTx.DefaultSchemaName else schema
    {
      BaseTx.NewBaseTx(meta, schema)
    }
  }

  /** Clean's loop over the registered types, last first. */
  method DropAll(rs: seq<ResourceType>, tableOf: TableOf, execErr: string -> Option<string>) returns (stmts: seq<string>, failed: seq<string>)
    ensures stmts == Store.DropStatements(rs, tableOf)
    ensures failed == FailedDrops(DropTables(rs, tableOf), execErr)
  {
    stmts := [];
    failed := [];
    var i := |rs|;
    assert rs[i..] == [];
    while i > 0
      invariant 0 <= i <= |rs|
      invariant stmts == Store.DropStatements(rs[i..], tableOf)
      invariant failed == FailedDrops(DropTables(rs[i..], tableOf), execErr)
    {
      var tableName := tableOf(rs[i - 1]);
      var stmt := Store.DropStatement(tableName);
      DropsFront(rs, i, tableOf);
      ghost var ts := DropTables(rs[i..], tableOf) + [tableName];
      assert ts[..|ts| - 1] == DropTables(rs[i..], tableOf);
      if execErr(stmt).Some? {
        failed := failed + [tableName];
      }
      stmts := stmts + [stmt];
      i := i - 1;
    }
    assert rs[0..] == rs;
  }

  /** One more type at the front of the list is dropped last. */
  lemma DropsFront(rs: seq<ResourceType>, i: nat, tableOf: TableOf)
    requires 0 < i <= |rs|
    ensures Store.DropStatements(rs[i - 1..], tableOf)
      == Store.DropStatements(rs[i..], tableOf) + [Store.DropStatement(tableOf(rs[i - 1]))]
    ensures DropTables(rs[i - 1..], tableOf) == DropTables(rs[i..], tableOf) + [tableOf(rs[i - 1])]
  {
    Store.DropStatementsFront(rs, i, tableOf);
    var xs, ys := rs[i - 1..], rs[i..];
    Store.ReversedFront(xs);
    assert xs[1..] == ys;
    var c, d := DropTables(xs, tableOf), DropTables(ys, tableOf) + [tableOf(xs[0])];
    assert |c| == |d|;
    forall j | 0 <= j < |c|
      ensures c[j] == d[j]
    {
    }
  }

  /** The tables Clean drops, in the order it drops them. */
  function DropTables(rs: seq<ResourceType>, tableOf: TableOf): (r: seq<string>)
    ensures |r| == |rs|
    ensures forall j :: 0 <= j < |rs| ==> r[j] == tableOf(Store.Reversed(rs)[j])
  {
    if rs == [] then []
    else
      var r := [tableOf(rs[|rs| - 1])] + DropTables(rs[..|rs| - 1], tableOf);
      assert forall j :: 1 <= j < |rs| ==> Store.Reversed(rs)[j] == Store.Reversed(rs[..|rs| - 1])[j - 1];
      r
  }

  /** The tables whose drop statement fails, in drop order. */
  function FailedDrops(ts: seq<string>, execErr: string -> Option<string>): (r: seq<string>)
    ensures |r| <= |ts|
    ensures forall j :: 0 <= j < |r| ==> execErr(Store.DropStatement(r[j])).Some?
  {
    if ts == [] then []
    else
      FailedDrops(ts[..|ts| - 1], execErr)
        + (if execErr(Store.DropStatement(ts[|ts| - 1])).Some? then [ts[|ts| - 1]] else [])
  }

  /** A failing drop is reported and does not stop the others. */
  lemma {:induction false} FailuresReported(ts: seq<string>, execErr: string -> Option<string>, i: nat)
    requires i < |ts| && execErr(Store.DropStatement(ts[i])).Some?
    ensures ts[i] in FailedDrops(ts, execErr)
    decreases |ts|
  {
    if i < |ts| - 1 {
      assert ts[..|ts| - 1][i] == ts[i];
      FailuresReported(ts[..|ts| - 1], execErr, i);
    }
  }

  // ------------------------------------------------------------ insertSqlArgsAndID

  /** The insert's column list: the field names, then the owners, then the references. */
  function InsertColumns(d: ResourceDescriptor): (r: seq<string>)
    ensures |r| == |d.Fields| + |d.Owners| + |d.Refers|
    ensures forall i :: 0 <= i < |d.Fields| ==> r[i] == d.Fields[i].Name
    ensures forall i :: 0 <= i < |d.Owners| ==> r[|d.Fields| + i] == d.Owners[i]
    ensures forall i :: 0 <= i < |d.Refers| ==> r[|d.Fields| + |d.Owners| + i] == d.Refers[i]
  {
    PgStore.FieldNames(d.Fields) + d.Owners + d.Refers
  }

  /** The struct field values of the non-reserved columns go through filterValue. */
  function Filtered(column: string -> Value, masked: string -> string): string -> Value
  {
    name => FilterValue(column(name), masked)
  }

  function InsertHead(table: string, columns: seq<string>): string
  {
    "insert into " + table + " (" + Join(columns, ",") + " ) values( "
  }

  /** insertSqlArgsAndID of GaussStoreTx: `insert into T (c1,...,cN ) values( $1,...,$N )`. */
  function GaussInsertSpec(d: Result<ResourceDescriptor>, tableOf: TableOf, typ: ResourceType, id: string, generated: string,
                           created: Value, isStructPtr: bool, column: string -> Value, masked: string -> string): Result<Stmt>
  {
    if d.Err? then Err("get " + typ + " descriptor failed " + d.error)
    else if !isStructPtr then Err("not pointer to resource")
    else
      var desc := d.value;
      var n := |desc.Fields| + |desc.Owners| + |desc.Refers|;
      Ok(Stmt(Enclose(InsertHead(tableOf(desc.Typ), InsertColumns(desc)), JoinSql(MarkerParts(n), ","), " )"),
              FieldArgs(desc.Fields, InsertID(d, id, generated), created, Filtered(column, masked))
                + ColumnArgs(desc.Owners, column) + ColumnArgs(desc.Refers, column)))
  }

  /** The loop over the descriptor fields that starts the column list. */
  method FieldColumns(fs: seq<ResourceField>) returns (columns: seq<string>)
    ensures columns == PgStore.FieldNames(fs)
  {
    columns := [];
    for i := 0 to |fs|
      invariant columns == PgStore.FieldNames(fs[..i])
    {
      assert fs[..i + 1][..i] == fs[..i];
      columns := columns + [fs[i].Name];
    }
    assert fs[..|fs|] == fs;
  }

  /** `generated` stands for uuid.Gen(); the id is set on the resource before
      the pointer check, so a non-pointer resource is still given its id. */
  method InsertSqlArgsAndID(tx: BaseTx.BaseTx, r: Resource, generated: string, masked: string -> string) returns (res: Result<Stmt>)
    modifies r
    ensures res == GaussInsertSpec(tx.meta.GetDescriptor(r.dbType), BaseTx.SchemaTables(tx.schema), r.dbType, old(r.id), generated,
                                   r.creationTimestamp, r.isStructPtr, r.column, masked)
    ensures r.id == InsertID(tx.meta.GetDescriptor(r.dbType), old(r.id), generated)
  {
    var typ := r.dbType;
    var d := tx.meta.GetDescriptor(typ);
    if d.Err? {
      return Err("get " + typ + " descriptor failed " + d.error);
    }
    var desc := d.value;
    var tableName := BaseTx.SchemaTables(tx.schema)(desc.Typ);
    var markers := BuildMarkers(|desc.Fields| + |desc.Owners| + |desc.Refers|);
    var columns := FieldColumns(desc.Fields);
    var id := r.id;
    if id == "" {
      id := generated;
      r.SetID(id);
    }
    if !r.isStructPtr {
      return Err("not pointer to resource");
    }
    var fieldArgs := BuildFieldArgs(desc.Fields, id, r.creationTimestamp, Filtered(r.column, masked));
    var ownerArgs := BuildColumnArgs(desc.Owners, r.column);
    var referArgs := BuildColumnArgs(desc.Refers, r.column);
    columns := columns + desc.Owners + desc.Refers;
    assert columns == InsertColumns(desc);
    var sql := Enclose(InsertHead(tableName, columns), JoinSql(markers, ","), " )");
    res := Ok(Stmt(sql, fieldArgs + ownerArgs + referArgs));
  }

  /** Columns, placeholders and arguments line up: N of each, the i-th
      argument bound to $i and belonging to the i-th column; field values
      other than id and create_time are filtered, owners and references are
      sent as they are. */
  lemma GaussInsertLayout(d: Result<ResourceDescriptor>, tableOf: TableOf, typ: ResourceType, id: string, generated: string,
                          created: Value, isStructPtr: bool, column: string -> Value, masked: string -> string)
    requires GaussInsertSpec(d, tableOf, typ, id, generated, created, isStructPtr, column, masked).Ok?
    ensures var st := GaussInsertSpec(d, tableOf, typ, id, generated, created, isStructPtr, column, masked).value;
      Sequenced(st) && |st.args| == |InsertColumns(d.value)|
    ensures var fa := FieldArgs(d.value.Fields, InsertID(d, id, generated), created, Filtered(column, masked));
      ArgsInOrder(GaussInsertSpec(d, tableOf, typ, id, generated, created, isStructPtr, column, masked).value.args, fa, d.value.Owners, d.value.Refers, column)
    ensures var args := GaussInsertSpec(d, tableOf, typ, id, generated, created, isStructPtr, column, masked).value.args;
      forall i :: 0 <= i < |d.value.Fields| ==>
        args[i] == FieldArg(d.value.Fields[i].Name, InsertID(d, id, generated), created, Filtered(column, masked))
  {
    var desc := d.value;
    var n := |desc.Fields| + |desc.Owners| + |desc.Refers|;
    var fa := FieldArgs(desc.Fields, InsertID(d, id, generated), created, Filtered(column, masked));
    var st := GaussInsertIs(d, tableOf, typ, id, generated, created, isStructPtr, column, masked);
    MarkerPartsMarkers(n);
    InsertShape(InsertHead(tableOf(desc.Typ), InsertColumns(desc)), JoinSql(MarkerParts(n), ","), n, st);
    ColumnsInOrder(fa, desc.Owners, desc.Refers, column, st.args);
  }

  /** A successful insert, piece by piece. */
  lemma GaussInsertIs(d: Result<ResourceDescriptor>, tableOf: TableOf, typ: ResourceType, id: string, generated: string,
                      created: Value, isStructPtr: bool, column: string -> Value, masked: string -> string) returns (st: Stmt)
    requires GaussInsertSpec(d, tableOf, typ, id, generated, created, isStructPtr, column, masked).Ok?
    ensures GaussInsertSpec(d, tableOf, typ, id, generated, created, isStructPtr, column, masked) == Ok(st)
    ensures var desc := d.value;
      st.sql == Enclose(InsertHead(tableOf(desc.Typ), InsertColumns(desc)), JoinSql(MarkerParts(|desc.Fields| + |desc.Owners| + |desc.Refers|), ","), " )")
    ensures var desc := d.value;
      st.args == FieldArgs(desc.Fields, InsertID(d, id, generated), created, Filtered(column, masked)) + ColumnArgs(desc.Owners, column) + ColumnArgs(desc.Refers, column)
  {
    st := GaussInsertSpec(d, tableOf, typ, id, generated, created, isStructPtr, column, masked).value;
  }

  /** Without addresses or slices among the field values, the arguments
      are exactly those of the schema-bound BaseTx insert. */
  lemma GaussArgsMatchBase(d: Result<ResourceDescriptor>, tableOf: TableOf, typ: ResourceType, id: string, generated: string,
                           created: Value, isStructPtr: bool, column: string -> Value, masked: string -> string)
    requires GaussInsertSpec(d, tableOf, typ, id, generated, created, isStructPtr, column, masked).Ok?
    requires forall i :: 0 <= i < |d.value.Fields| ==> Filtered(column, masked)(d.value.Fields[i].Name) == column(d.value.Fields[i].Name)
    ensures GaussInsertSpec(d, tableOf, typ, id, generated, created, isStructPtr, column, masked).value.args
      == InsertSpec(d, tableOf, typ, id, generated, created, isStructPtr, column).value.args
  {
    FieldArgsAgree(d.value.Fields, InsertID(d, id, generated), created, Filtered(column, masked), column);
  }

  lemma FieldArgsAgree(fs: seq<ResourceField>, id: string, created: Value, c1: string -> Value, c2: string -> Value)
    requires forall i :: 0 <= i < |fs| ==> c1(fs[i].Name) == c2(fs[i].Name)
    ensures FieldArgs(fs, id, created, c1) == FieldArgs(fs, id, created, c2)
  {
    var a, b := FieldArgs(fs, id, created, c1), FieldArgs(fs, id, created, c2);
    assert forall i :: 0 <= i < |fs| ==> a[i] == b[i];
  }

  // ------------------------------------------------------------ CopyFrom / CopyFromEx

  /** Every row filtered; a nil value anywhere panics (Err). */
  function FilteredRows(values: seq<seq<Value>>, masked: string -> string): Result<seq<seq<Value>>>
  {
    GaussArray.Convert(values, (row: seq<Value>) => GaussArray.Convert(row, FilterParam(masked)))
  }

  /** CopyFrom: the descriptor's columns in order into the bare `gr_` table
      of the transaction's schema, with every row filtered. */
  function GaussCopyFromSpec(d: Result<ResourceDescriptor>, schema: string, typ: ResourceType, values: seq<seq<Value>>,
                             masked: string -> string): (r: Result<Option<PgStore.CopyPlan>>)
    ensures r.Ok? ==> d.Ok?
    ensures r.Ok? && r.value.Some? ==>
      var plan := r.value.value;
      plan.schema == schema && plan.table == "gr_" + d.value.Typ && plan.columns == PgStore.FieldNames(d.value.Fields) &&
      |plan.rows| == |values| && plan.columns != []
  {
    if d.Err? then Err("get descriptor for " + typ + " failed " + d.error)
    else
      var columns := PgStore.FieldNames(d.value.Fields);
      if values == [] || columns == [] then Ok(None)
      else
        match FilteredRows(values, masked)
        case Err(e) => Err(e)
        case Ok(rows) => Ok(Some(PgStore.CopyPlan(schema, BaseTx.GetTableNameWithoutSchema(d.value.Typ), columns, rows)))
  }

  /** CopyFromEx: the caller's columns. */
  function GaussCopyFromExSpec(d: Result<ResourceDescriptor>, schema: string, typ: ResourceType, columns: seq<string>,
                               values: seq<seq<Value>>, masked: string -> string): (r: Result<Option<PgStore.CopyPlan>>)
    ensures r.Ok? ==> d.Ok?
    ensures r.Ok? && r.value.Some? ==>
      var plan := r.value.value;
      plan.schema == schema && plan.table == "gr_" + d.value.Typ && plan.columns == columns && |plan.rows| == |values|
  {
    if d.Err? then Err("get descriptor for " + typ + " failed " + d.error)
    else if values == [] then Ok(None)
    else
      match FilteredRows(values, masked)
      case Err(e) => Err(e)
      case Ok(rows) => Ok(Some(PgStore.CopyPlan(schema, BaseTx.GetTableNameWithoutSchema(d.value.Typ), columns, rows)))
  }

  /** The loop over the rows: each row's values filtered, in order. */
  method FilterRows(values: seq<seq<Value>>, masked: string -> string) returns (rows: Result<seq<seq<Value>>>)
    ensures rows == FilteredRows(values, masked)
  {
    var f := (row: seq<Value>) => GaussArray.Convert(row, FilterParam(masked));
    var acc: seq<seq<Value>> := [];
    for i := 0 to |values|
      invariant |acc| == i
      invariant forall j :: 0 <= j < i ==> f(values[j]) == Ok(acc[j])
    {
      var row := FilterParams(values[i], masked);
      if row.Err? {
        GaussArray.ConvertFirstError(values, f, i);
        return Err(row.error);
      }
      acc := acc + [row.value];
    }
    assert GaussArray.Convert(values, f).value == acc;
    rows := Ok(acc);
  }

  method CopyFrom(tx: BaseTx.BaseTx, typ: ResourceType, values: seq<seq<Value>>, masked: string -> string)
    returns (r: Result<Option<PgStore.CopyPlan>>)
    ensures r == GaussCopyFromSpec(tx.meta.GetDescriptor(typ), tx.schema, typ, values, masked)
  {
    var d := tx.meta.GetDescriptor(typ);
    if d.Err? {
      return Err("get descriptor for " + typ + " failed " + d.error);
    }
    var fs := d.value.Fields;
    var columns: seq<string> := [];
    for i := 0 to |fs|
      invariant columns == PgStore.FieldNames(fs[..i])
    {
      assert fs[..i + 1][..i] == fs[..i];
      columns := columns + [fs[i].Name];
    }
    assert fs[..|fs|] == fs;
    if |values| == 0 || |columns| == 0 {
      return Ok(None);
    }
    var rows := FilterRows(values, masked);
    if rows.Err? {
      return Err(rows.error);
    }
    r := Ok(Some(PgStore.CopyPlan(tx.schema, BaseTx.GetTableNameWithoutSchema(d.value.Typ), columns, rows.value)));
  }

  method CopyFromEx(tx: BaseTx.BaseTx, typ: ResourceType, columns: seq<string>, values: seq<seq<Value>>, masked: string -> string)
    returns (r: Result<Option<PgStore.CopyPlan>>)
    ensures r == GaussCopyFromExSpec(tx.meta.GetDescriptor(typ), tx.schema, typ, columns, values, masked)
  {
    var d := tx.meta.GetDescriptor(typ);
    if d.Err? {
      return Err("get descriptor for " + typ + " failed " + d.error);
    }
    if |values| == 0 {
      return Ok(None);
    }
    var rows := FilterRows(values, masked);
    if rows.Err? {
      return Err(rows.error);
    }
    r := Ok(Some(PgStore.CopyPlan(tx.schema, BaseTx.GetTableNameWithoutSchema(d.value.Typ), columns, rows.value)));
  }

  /** Rows without nil values are copied value by value, each filtered. */
  lemma CopyRowsFiltered(values: seq<seq<Value>>, masked: string -> string)
    requires forall i, j :: 0 <= i < |values| && 0 <= j < |values[i]| ==> !values[i][j].Nil?
    ensures var r := FilteredRows(values, masked);
      r.Ok? && |r.value| == |values| &&
      forall i :: 0 <= i < |values| ==>
        |r.value[i]| == |values[i]| && forall j :: 0 <= j < |values[i]| ==> r.value[i][j] == FilterValue(values[i][j], masked)
  {
    var f := (row: seq<Value>) => GaussArray.Convert(row, FilterParam(masked));
    forall i | 0 <= i < |values|
      ensures f(values[i]).Ok? && |f(values[i]).value| == |values[i]|
      ensures forall j :: 0 <= j < |values[i]| ==> f(values[i]).value[j] == FilterValue(values[i][j], masked)
    {
      FilterParamsShape(values[i], masked);
    }
  }
}
