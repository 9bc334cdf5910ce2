// The `create table` / `create index` builder that db/sql.go, db/pg_store.go
// and db/gauss_store.go each implement; the three differ only in how they
// name tables and whether an array column's index says `using gin`.
module Ddl {
  import opened Strs
  import opened Resources
  import opened Meta

  /** How one backend names things in its DDL. */
  datatype Naming = Naming(
    table: string,                    // written after "create table if not exists"
    refTable: ResourceType -> string, // the table an owner or refer column references
    indexTable: string,               // the table name inside index names
    indexTarget: string,              // the table an index is created on
    indexPrefix: string,
    gin: bool)                        // whether array columns get " using gin"

  // ------------------------------------------------------------ table clauses

  function Last(s: string): char
    requires s != []
  {
    s[|s| - 1]
  }

  lemma LastAppend(a: string, b: string)
    requires b != []
    ensures a + b != [] && Last(a + b) == Last(b)
  {
  }

  /** A clause as the builder writes it: it ends in exactly one comma. */
  predicate EndsClause(s: string)
  {
    |s| >= 2 && s[|s| - 1] == ',' && s[|s| - 2] != ','
  }

  lemma CommaAfter(x: string)
    requires x != [] && Last(x) != ','
    ensures EndsClause(x + ",")
  {
    assert (x + ",")[|x| - 1] == x[|x| - 1];
  }

  lemma ClauseAppend(a: string, b: string)
    requires EndsClause(b)
    ensures EndsClause(a + b)
  {
    assert (a + b)[|a + b| - 1] == b[|b| - 1];
    assert (a + b)[|a + b| - 2] == b[|b| - 2];
  }

  /** Two pieces that are each empty or a clause join into one of the same kind. */
  lemma ClausePair(a: string, b: string)
    requires a == "" || EndsClause(a)
    requires b == "" || EndsClause(b)
    ensures a + b == "" <==> a == "" && b == ""
    ensures a + b == "" || EndsClause(a + b)
  {
    if b == "" {
      assert a + b == a;
    } else {
      ClauseAppend(a, b);
    }
  }

  lemma TypeTextLast(t: Datatype)
    ensures PostgresqlType(t) != [] && Last(PostgresqlType(t)) != ','
  {
  }

  /** The column definition without its comma: name, type, then the optional
      not null, unique and check parts, in that order. */
  function ColumnDef(f: ResourceField): (r: string)
    ensures r != [] && Last(r) != ','
  {
    var c0 := f.Name + " " + PostgresqlType(f.Type);
    TypeTextLast(f.Type);
    LastAppend(f.Name + " ", PostgresqlType(f.Type));
    var c1 := if f.NotNull then c0 + " " + "not null" else c0;
    LastAppend(c0 + " ", "not null");
    var c2 := if f.Unique then c1 + " " + "unique" else c1;
    LastAppend(c1 + " ", "unique");
    var c3 := if f.Check == Positive then c2 + " check(" + f.Name + " > 0)" else c2;
    LastAppend(c2 + " check(" + f.Name, " > 0)");
    c3
  }

  /** One column clause, comma included. */
  function ColumnClause(f: ResourceField): (r: string)
    ensures EndsClause(r)
  {
    CommaAfter(ColumnDef(f));
    ColumnDef(f) + ","
  }

  /** The column clauses of the fields, in order. */
  function ColumnsText(fs: seq<ResourceField>): (r: string)
    ensures r == "" <==> fs == []
    ensures fs != [] ==> EndsClause(r)
  {
    if fs == [] then ""
    else
      var c := ColumnClause(fs[|fs| - 1]);
      ClauseAppend(ColumnsText(fs[..|fs| - 1]), c);
      ColumnsText(fs[..|fs| - 1]) + c
  }

  function OnDelete(cascade: bool): string
  {
    if cascade then " (id) on delete cascade," else " (id) on delete restrict,"
  }

  /** A column referencing another resource's table: deleting the referenced
      row deletes this one (owners) or is refused (refers). */
  function ReferenceClause(t: ResourceType, target: string, cascade: bool): (r: string)
    ensures EndsClause(r)
  {
    assert EndsClause(OnDelete(cascade));
    ClauseAppend(t + " text not null references " + target, OnDelete(cascade));
    t + " text not null references " + target + OnDelete(cascade)
  }

  function ReferencesText(ts: seq<ResourceType>, refTable: ResourceType -> string, cascade: bool): (r: string)
    ensures r == "" <==> ts == []
    ensures ts != [] ==> EndsClause(r)
  {
    if ts == [] then ""
    else
      var c := ReferenceClause(ts[|ts| - 1], refTable(ts[|ts| - 1]), cascade);
      ClauseAppend(ReferencesText(ts[..|ts| - 1], refTable, cascade), c);
      ReferencesText(ts[..|ts| - 1], refTable, cascade) + c
  }

  /** `head k1,k2,...),`, present only when there are keys. */
  function KeyClause(head: string, ks: seq<string>): (r: string)
    ensures r == "" <==> ks == []
    ensures r == "" || EndsClause(r)
  {
    if ks == [] then ""
    else
      assert EndsClause("),");
      ClauseAppend(head + Join(ks, ","), "),");
      head + Join(ks, ",") + "),"
  }

  /** Everything between the table's "(" and ")", before the last comma is trimmed. */
  function TableBody(d: ResourceDescriptor, n: Naming): (r: string)
    ensures r == "" <==> d.Fields == [] && d.Owners == [] && d.Refers == [] && d.Pks == [] && d.Uks == []
    ensures r == "" || EndsClause(r)
  {
    var a := ColumnsText(d.Fields);
    var b := ReferencesText(d.Owners, n.refTable, true);
    var c := ReferencesText(d.Refers, n.refTable, false);
    var p := KeyClause("primary key (", d.Pks);
    var u := KeyClause("unique (", d.Uks);
    ClausePair(a, b);
    ClausePair(a + b, c);
    ClausePair(a + b + c, p);
    ClausePair(a + b + c + p, u);
    a + b + c + p + u
  }

  function TableHead(n: Naming): string
  {
    "create table if not exists " + n.table + " ("
  }

  /** The create-table statement: the trailing commas are trimmed off before the closing parenthesis. */
  function CreateTableText(d: ResourceDescriptor, n: Naming): string
  {
    TrimRight(TableHead(n) + TableBody(d, n), ',') + ")"
  }

  /** The trim removes exactly the one comma that ends the last clause, and
      the statement never ends in ",)". */
  lemma CreateTableShape(d: ResourceDescriptor, n: Naming)
    ensures var body := TableBody(d, n);
      CreateTableText(d, n)
        == TableHead(n) + (if body == "" then "" else body[..|body| - 1]) + ")"
    ensures var s := CreateTableText(d, n); |s| >= 2 && s[|s| - 1] == ')' && s[|s| - 2] != ','
  {
    var h, body := TableHead(n), TableBody(d, n);
    LastAppend("create table if not exists " + n.table, " (");
    TrimRightAppend(h, body, ',');
    if body == "" {
      assert h + body == h;
    } else {
      var b' := body[..|body| - 1];
      assert TrimRight(body, ',') == TrimRight(b', ',');
      assert TrimRight(b', ',') == b';
    }
  }

  /** A descriptor with no columns, references or keys still yields a
      well-formed, empty column list. */
  lemma EmptyTable(d: ResourceDescriptor, n: Naming)
    requires d.Fields == [] && d.Owners == [] && d.Refers == [] && d.Pks == [] && d.Uks == []
    ensures CreateTableText(d, n) == TableHead(n) + ")"
  {
    CreateTableShape(d, n);
  }

  // ------------------------------------------------------------ indexes

  /** Names of the indexed columns that get a plain index, in field order. */
  function PlainIndexed(fs: seq<ResourceField>): seq<string>
  {
    if fs == [] then []
    else
      var f := fs[|fs| - 1];
      PlainIndexed(fs[..|fs| - 1]) + (if f.Index && !IsArrayType(f.Type) then [f.Name] else [])
  }

  /** Names of the indexed array columns, in field order. */
  function GinIndexed(fs: seq<ResourceField>): seq<string>
  {
    if fs == [] then []
    else
      var f := fs[|fs| - 1];
      GinIndexed(fs[..|fs| - 1]) + (if f.Index && IsArrayType(f.Type) then [f.Name] else [])
  }

  function IndexedNames(fs: seq<ResourceField>): seq<string>
  {
    if fs == [] then []
    else
      var f := fs[|fs| - 1];
      IndexedNames(fs[..|fs| - 1]) + (if f.Index then [f.Name] else [])
  }

  /** Every indexed column goes to exactly one of the two lists, and only
      array columns go to the gin list. */
  lemma {:induction false} IndexPartition(fs: seq<ResourceField>)
    ensures multiset(PlainIndexed(fs)) + multiset(GinIndexed(fs)) == multiset(IndexedNames(fs))
    ensures forall x :: x in GinIndexed(fs) ==> exists f :: f in fs && f.Index && IsArrayType(f.Type) && f.Name == x
    ensures forall x :: x in PlainIndexed(fs) ==> exists f :: f in fs && f.Index && !IsArrayType(f.Type) && f.Name == x
  {
    if fs != [] {
      var init, f := fs[..|fs| - 1], fs[|fs| - 1];
      IndexPartition(init);
      assert fs == init + [f];
      forall x | x in GinIndexed(fs)
        ensures exists g :: g in fs && g.Index && IsArrayType(g.Type) && g.Name == x
      {
        if x in GinIndexed(init) {
          var g :| g in init && g.Index && IsArrayType(g.Type) && g.Name == x;
          assert g in fs;
        } else {
          assert f in fs;
        }
      }
      forall x | x in PlainIndexed(fs)
        ensures exists g :: g in fs && g.Index && !IsArrayType(g.Type) && g.Name == x
      {
        if x in PlainIndexed(init) {
          var g :| g in init && g.Index && !IsArrayType(g.Type) && g.Name == x;
          assert g in fs;
        } else {
          assert f in fs;
        }
      }
    }
  }

  /** One index statement; `gin` adds " using gin" before the column list. */
  function IndexText(n: Naming, name: string, cols: string, gin: bool): string
  {
    "create index " + " if not exists " + n.indexPrefix + n.indexTable + "_" + name
      + " on " + n.indexTarget + (if gin then " using gin" else "") + " (" + cols + ")"
  }

  /** The gin flag changes the statement, and changes it exactly by the ten
      characters of " using gin". */
  lemma GinMarker(n: Naming, name: string, cols: string, gin: bool)
    ensures |IndexText(n, name, cols, gin)| == |IndexText(n, name, cols, false)| + (if gin then 10 else 0)
    ensures IndexText(n, name, cols, gin) == IndexText(n, name, cols, false) <==> !gin
  {
  }

  /** One single-column index statement per name, in order. */
  function SingleIndexes(n: Naming, cols: seq<string>, gin: bool): (r: seq<string>)
    ensures |r| == |cols|
    ensures forall j :: 0 <= j < |cols| ==> r[j] == IndexText(n, cols[j], cols[j], gin)
  {
    if cols == [] then []
    else SingleIndexes(n, cols[..|cols| - 1], gin) + [IndexText(n, cols[|cols| - 1], cols[|cols| - 1], gin)]
  }

  function CombinedIndex(d: ResourceDescriptor, n: Naming): seq<string>
  {
    if d.Idxes == [] then [] else [IndexText(n, Join(d.Idxes, "_"), Join(d.Idxes, ","), false)]
  }

  /** The index statements: the combined index first, then plain, then gin. */
  function IndexStatements(d: ResourceDescriptor, n: Naming): seq<string>
  {
    CombinedIndex(d, n) + SingleIndexes(n, PlainIndexed(d.Fields), false)
      + SingleIndexes(n, GinIndexed(d.Fields), n.gin)
  }

  /** One statement per indexed column, plus the combined one when there are Idxes. */
  lemma IndexCount(d: ResourceDescriptor, n: Naming)
    ensures |IndexStatements(d, n)| == |CombinedIndex(d, n)| + |IndexedNames(d.Fields)|
  {
    IndexPartition(d.Fields);
    var p, g := PlainIndexed(d.Fields), GinIndexed(d.Fields);
    assert |multiset(p)| + |multiset(g)| == |multiset(IndexedNames(d.Fields))|;
  }

  /** Where each statement sits: the combined index, then one per plain
      column, then one per gin column carrying the backend's gin flag. */
  lemma IndexOrder(d: ResourceDescriptor, n: Naming)
    ensures var c, p, g := |CombinedIndex(d, n)|, PlainIndexed(d.Fields), GinIndexed(d.Fields);
      var s := IndexStatements(d, n);
      |s| == c + |p| + |g| &&
      (d.Idxes != [] ==> s[0] == IndexText(n, Join(d.Idxes, "_"), Join(d.Idxes, ","), false)) &&
      (forall j :: 0 <= j < |p| ==> s[c + j] == IndexText(n, p[j], p[j], false)) &&
      (forall j :: 0 <= j < |g| ==> s[c + |p| + j] == IndexText(n, g[j], g[j], n.gin))
  {
    var c, p, g := CombinedIndex(d, n), PlainIndexed(d.Fields), GinIndexed(d.Fields);
    var sp, sg := SingleIndexes(n, p, false), SingleIndexes(n, g, n.gin);
    IndexPositions(c, sp, sg, IndexStatements(d, n));
  }

  /** Positions in the concatenation of three statement lists. */
  lemma IndexPositions(c: seq<string>, sp: seq<string>, sg: seq<string>, s: seq<string>)
    requires s == c + sp + sg
    ensures |s| == |c| + |sp| + |sg|
    ensures c != [] ==> s[0] == c[0]
    ensures forall j :: 0 <= j < |sp| ==> s[|c| + j] == sp[j]
    ensures forall j :: 0 <= j < |sg| ==> s[|c| + |sp| + j] == sg[j]
  {
  }

  // ------------------------------------------------------------ the builder

  /** The pk/uk loop: a comma before every key but the first. */
  method JoinKeys(ks: seq<string>) returns (s: string)
    ensures s == Join(ks, ",")
  {
    s := "";
    var i := 0;
    while i < |ks|
      invariant 0 <= i <= |ks|
      invariant s == Join(ks[..i], ",")
    {
      if i > 0 {
        s := s + ",";
      }
      s := s + ks[i];
      JoinAppend(ks[..i], ks[i], ",");
      assert ks[..i + 1] == ks[..i] + [ks[i]];
      i := i + 1;
    }
    assert ks[..|ks|] == ks;
  }

  /** The Idxes loop: a comma after every index but the last. */
  method JoinIndexColumns(ks: seq<string>) returns (s: string)
    ensures s == Join(ks, ",")
  {
    s := "";
    var i := 0;
    while i < |ks|
      invariant 0 <= i <= |ks|
      invariant s == if 0 < i < |ks| then Join(ks[..i], ",") + "," else Join(ks[..i], ",")
    {
      JoinAppend(ks[..i], ks[i], ",");
      assert ks[..i + 1] == ks[..i] + [ks[i]];
      s := s + ks[i];
      if i < |ks| - 1 {
        s := s + ",";
      }
      i := i + 1;
    }
    assert ks[..|ks|] == ks;
  }

  /** The part of the column loop that writes one column definition. */
  method WriteColumnDef(field: ResourceField) returns (def: string)
    ensures def == ColumnDef(field)
  {
    def := field.Name + " " + PostgresqlType(field.Type);
    if field.NotNull {
      def := def + " " + "not null";
    }
    if field.Unique {
      def := def + " " + "unique";
    }
    if field.Check == Positive {
      def := def + " check(" + field.Name + " > 0)";
    }
  }

  /** The column loop: writes each column clause and sorts indexed columns
      into the plain and gin lists. */
  method WriteColumns(fs: seq<ResourceField>) returns (cols: string, indexes: seq<string>, ginIndexes: seq<string>)
    ensures cols == ColumnsText(fs)
    ensures indexes == PlainIndexed(fs) && ginIndexes == GinIndexed(fs)
  {
    cols, indexes, ginIndexes := "", [], [];
    var i := 0;
    while i < |fs|
      invariant 0 <= i <= |fs|
      invariant cols == ColumnsText(fs[..i])
      invariant indexes == PlainIndexed(fs[..i]) && ginIndexes == GinIndexed(fs[..i])
    {
      var field := fs[i];
      assert fs[..i + 1][..i] == fs[..i];
      var def := WriteColumnDef(field);
      if field.Index {
        if IsArrayType(field.Type) {
          ginIndexes := ginIndexes + [field.Name];
        } else {
          indexes := indexes + [field.Name];
        }
      }
      cols := cols + (def + ",");
      i := i + 1;
    }
    assert fs[..|fs|] == fs;
  }

  /** The owner or refer loop. */
  method WriteReferences(ts: seq<ResourceType>, refTable: ResourceType -> string, cascade: bool) returns (s: string)
    ensures s == ReferencesText(ts, refTable, cascade)
  {
    s := "";
    var i := 0;
    while i < |ts|
      invariant 0 <= i <= |ts|
      invariant s == ReferencesText(ts[..i], refTable, cascade)
    {
      assert ts[..i + 1][..i] == ts[..i];
      var onDelete := if cascade then " (id) on delete cascade," else " (id) on delete restrict,";
      s := s + (ts[i] + " text not null references " + refTable(ts[i]) + onDelete);
      i := i + 1;
    }
    assert ts[..|ts|] == ts;
  }

  /** The single-column index loops. */
  method WriteIndexes(n: Naming, names: seq<string>, gin: bool) returns (stmts: seq<string>)
    ensures stmts == SingleIndexes(n, names, gin)
  {
    stmts := [];
    var i := 0;
    while i < |names|
      invariant 0 <= i <= |names|
      invariant stmts == SingleIndexes(n, names[..i], gin)
    {
      assert names[..i + 1][..i] == names[..i];
      stmts := stmts + [IndexText(n, names[i], names[i], gin)];
      i := i + 1;
    }
    assert names[..|names|] == names;
  }

  /** createTableSql: the table statement and the index statements of a descriptor. */
  method CreateTableSql(d: ResourceDescriptor, n: Naming) returns (table: string, createIndexes: seq<string>)
    ensures table == CreateTableText(d, n)
    ensures createIndexes == IndexStatements(d, n)
  {
    var head := "create table if not exists " + n.table + " (";
    var cols, indexes, ginIndexes := WriteColumns(d.Fields);
    var owners := WriteReferences(d.Owners, n.refTable, true);
    var refers := WriteReferences(d.Refers, n.refTable, false);
    var pk, uk := "", "";
    if |d.Pks| > 0 {
      var keys := JoinKeys(d.Pks);
      pk := "primary key (" + keys + "),";
    }
    if |d.Uks| > 0 {
      var keys := JoinKeys(d.Uks);
      uk := "unique (" + keys + "),";
    }
    var buf := head + (cols + owners + refers + pk + uk);

    createIndexes := [];
    if |d.Idxes| > 0 {
      var idxCols := JoinIndexColumns(d.Idxes);
      createIndexes := [IndexText(n, Join(d.Idxes, "_"), idxCols, false)];
    }
    var plain := WriteIndexes(n, indexes, false);
    var gin := WriteIndexes(n, ginIndexes, n.gin);
    createIndexes := createIndexes + plain + gin;
    table := TrimRight(buf, ',') + ")";
  }
}
