// The statements db/base_tx.go and db/sql.go build: select, count, delete,
// exists, update, insert and join-select. Each is a function of the
// descriptor lookup, the file's table-name function and the condition
// entries in Go's iteration order, and a method that builds it the way the
// Go code does, deleting the special keys from the caller's map in place.
module Builders {
  import opened Wrappers
  import opened Strs
  import opened Values
  import opened SqlText
  import opened Conds
  import opened Resources
  import opened Meta
  import opened Dml

  /** How a file names the table of a resource type. */
  type TableOf = ResourceType -> string

  /** `pre`, then the statement `q`, then `post`. */
  function Enclose(pre: string, q: Sql, post: string): (r: Sql)
    ensures Render(r) == pre + Render(q) + post
    ensures Markers(r) == Markers(q)
  {
    RenderAppend([Lit(pre)], q);
    RenderAppend([Lit(pre)] + q, [Lit(post)]);
    MarkersAppend([Lit(pre)], q);
    MarkersAppend([Lit(pre)] + q, [Lit(post)]);
    assert Render([Lit(pre)]) == pre && Render([Lit(post)]) == post;
    assert Markers([Lit(pre)]) == [] && Markers([Lit(post)]) == [];
    [Lit(pre)] + q + [Lit(post)]
  }

  function DescriptorErr(typ: ResourceType, e: string): string
  {
    "get descriptor for " + typ + " failed " + e
  }

  /** The terms of conditions that are not search or match-list keys. */
  function ValueFn(fill: bool): TermFn
  {
    TermFn_([], [], fill)
  }

  /** A statement and the condition entries left in the caller's map. */
  datatype Built = Built(res: Result<Stmt>, left: seq<Entry>)

  // ------------------------------------------------------------ select

  /** The ORDER BY part: by id unless an `orderby` entry names a column. */
  function OrderStat(es: seq<Entry>): (r: Result<string>)
    ensures r.Err? <==> Lookup(es, OrderByKey).Some? && !Lookup(es, OrderByKey).value.Str?
    ensures !HasKey(es, OrderByKey) ==> r == Ok("order by id")
  {
    match Lookup(es, OrderByKey)
    case None => Ok("order by id")
    case Some(Str(o)) => Ok("order by " + ToSnake(o))
    case Some(_) => Err("order argument isn't string")
  }

  function AfterOrder(es: seq<Entry>): seq<Entry>
  {
    if HasKey(es, OrderByKey) then Without(es, OrderByKey) else es
  }

  /** `limit` and `offset` are used only as a pair. */
  predicate Paged(es: seq<Entry>)
  {
    HasKey(es, LimitKey) && HasKey(es, OffsetKey)
  }

  /** `v.(int)` with the ok result ignored: 0 for a value that is not an int. */
  function IntOrZero(v: Value): int
  {
    if v.Int? then v.i else 0
  }

  function LimitStat(es: seq<Entry>): string
  {
    if Paged(es) then
      "limit " + Itoa(IntOrZero(Lookup(es, LimitKey).value)) + " offset " + Itoa(IntOrZero(Lookup(es, OffsetKey).value))
    else ""
  }

  function AfterLimit(es: seq<Entry>): seq<Entry>
  {
    if Paged(es) then Without(Without(es, LimitKey), OffsetKey) else es
  }

  /** The entries left for the WHERE clause once order and paging are consumed. */
  function SelectWhere(es: seq<Entry>): seq<Entry>
  {
    AfterLimit(AfterOrder(es))
  }

  /** The select statement around a WHERE clause: the WHERE part only when
      the clause has text. */
  function SelectStmt(table: string, order: string, limit: string, w: Stmt): Stmt
  {
    if Render(w.sql) == "" then Stmt([Lit("select * from  " + table + " " + order + " " + limit)], [])
    else Stmt(Enclose("select * from " + table + " where ", w.sql, " " + order + " " + limit), w.args)
  }

  /** selectSqlAndArgs. */
  function SelectSpec(d: Result<ResourceDescriptor>, tableOf: TableOf, typ: ResourceType, es: seq<Entry>): Built
  {
    if d.Err? then Built(Err(DescriptorErr(typ, d.error)), es)
    else if OrderStat(es).Err? then Built(Err(OrderStat(es).error), es)
    else
      var left := WhereEntries(SelectWhere(es));
      match WhereSpec(SelectWhere(es))
      case Err(e) => Built(Err(e), left)
      case Ok(w) => Built(Ok(SelectStmt(tableOf(d.value.Typ), OrderStat(es).value, LimitStat(AfterOrder(es)), w)), left)
  }

  /** The `orderby` step: the ORDER BY text, the entry deleted once accepted. */
  method TakeOrder(conds: CondMap) returns (r: Result<string>)
    modifies conds
    ensures r == OrderStat(old(conds.entries))
    ensures conds.entries == if r.Ok? then AfterOrder(old(conds.entries)) else old(conds.entries)
  {
    var o := conds.Get(OrderByKey);
    if o.Some? {
      if !o.value.Str? {
        return Err("order argument isn't string");
      }
      conds.Delete(OrderByKey);
      return Ok("order by " + ToSnake(o.value.s));
    }
    return Ok("order by id");
  }

  /** The `limit`/`offset` step: both entries are consumed, or neither. */
  method TakeLimit(conds: CondMap) returns (limitStat: string)
    modifies conds
    ensures limitStat == LimitStat(old(conds.entries))
    ensures conds.entries == AfterLimit(old(conds.entries))
  {
    ghost var es := conds.entries;
    limitStat := "";
    var l := conds.Get(LimitKey);
    if l.Some? {
      var off := conds.Get(OffsetKey);
      if off.Some? {
        limitStat := "limit " + Itoa(IntOrZero(l.value)) + " offset " + Itoa(IntOrZero(off.value));
        conds.Delete(LimitKey);
        conds.Delete(OffsetKey);
      }
    }
  }

  method Select(meta: ResourceMeta, tableOf: TableOf, typ: ResourceType, conds: CondMap) returns (r: Result<Stmt>)
    modifies conds
    ensures r == SelectSpec(meta.GetDescriptor(typ), tableOf, typ, old(conds.entries)).res
    ensures conds.entries == SelectSpec(meta.GetDescriptor(typ), tableOf, typ, old(conds.entries)).left
  {
    ghost var es := conds.entries;
    var d := meta.GetDescriptor(typ);
    if d.Err? {
      return Err(DescriptorErr(typ, d.error));
    }
    var orderStat := TakeOrder(conds);
    if orderStat.Err? {
      return Err(orderStat.error);
    }
    var limitStat := TakeLimit(conds);
    var w := WhereState(conds);
    if w.Err? {
      return Err(w.error);
    }
    return Ok(SelectStmt(tableOf(d.value.Typ), orderStat.value, limitStat, w.value));
  }

  /** For every map order, the placeholders of a select are $1..$N for its N arguments. */
  lemma SelectSequenced(d: Result<ResourceDescriptor>, tableOf: TableOf, typ: ResourceType, es: seq<Entry>)
    requires SelectSpec(d, tableOf, typ, es).res.Ok?
    ensures Sequenced(SelectSpec(d, tableOf, typ, es).res.value)
  {
    var es2 := SelectWhere(es);
    WhereSequenced(es2);
    var w := WhereSpec(es2).value;
    if Render(w.sql) == "" {
      assert Markers([Lit("select * from  " + tableOf(d.value.Typ) + " " + OrderStat(es).value + " " + LimitStat(AfterOrder(es)))]) == [];
      assert Range(1, 1) == [];
    }
  }

  /** The special keys are five different strings. */
  lemma SpecialKeysDistinct()
    ensures OrderByKey != LimitKey && OrderByKey != OffsetKey && OrderByKey != SearchKey && OrderByKey != MatchListKey
    ensures LimitKey != OffsetKey && LimitKey != SearchKey && LimitKey != MatchListKey
    ensures OffsetKey != SearchKey && OffsetKey != MatchListKey && SearchKey != MatchListKey
  {
    assert SearchKey[0] != OffsetKey[0];
  }

  /** What select leaves in the map: everything, when it fails before
      touching it; otherwise what the WHERE clause was built from. */
  lemma SelectLeft(d: Result<ResourceDescriptor>, tableOf: TableOf, typ: ResourceType, es: seq<Entry>)
    ensures SelectSpec(d, tableOf, typ, es).left ==
      if d.Err? || OrderStat(es).Err? then es else WhereEntries(SelectWhere(es))
  {
  }

  /** Deleting the special keys keeps every other entry. */
  lemma WhereEntriesKeep(es: seq<Entry>, k: string)
    requires k != OrderByKey && k != LimitKey && k != OffsetKey && k != SearchKey && k != MatchListKey
    ensures Lookup(WhereEntries(SelectWhere(es)), k) == Lookup(es, k)
  {
    var es1 := AfterOrder(es);
    if HasKey(es, OrderByKey) {
      LookupWithout(es, OrderByKey, k);
    }
    if Paged(es1) {
      LookupWithout(es1, LimitKey, k);
      LookupWithout(Without(es1, LimitKey), OffsetKey, k);
    }
    var es2 := AfterLimit(es1);
    LookupWithout(es2, SearchKey, k);
    LookupWithout(Without(es2, SearchKey), MatchListKey, k);
  }

  /** Only the five special keys leave the map; every other entry stays, and
      becomes a WHERE term. */
  lemma SelectKeepsOthers(d: Result<ResourceDescriptor>, tableOf: TableOf, typ: ResourceType, es: seq<Entry>, k: string)
    requires k != OrderByKey && k != LimitKey && k != OffsetKey && k != SearchKey && k != MatchListKey
    ensures Lookup(SelectSpec(d, tableOf, typ, es).left, k) == Lookup(es, k)
  {
    SelectLeft(d, tableOf, typ, es);
    WhereEntriesKeep(es, k);
  }

  /** `limit` survives the order and paging steps exactly when `offset` is missing. */
  lemma LimitSurvives(es: seq<Entry>)
    ensures HasKey(WhereEntries(SelectWhere(es)), LimitKey) <==> HasKey(es, LimitKey) && !HasKey(es, OffsetKey)
    ensures HasKey(WhereEntries(SelectWhere(es)), OffsetKey) <==> HasKey(es, OffsetKey) && !HasKey(es, LimitKey)
  {
    SpecialKeysDistinct();
    var es1 := AfterOrder(es);
    if HasKey(es, OrderByKey) {
      LookupWithout(es, OrderByKey, LimitKey);
      LookupWithout(es, OrderByKey, OffsetKey);
    }
    assert HasKey(es1, LimitKey) == HasKey(es, LimitKey) && HasKey(es1, OffsetKey) == HasKey(es, OffsetKey);
    var es2 := AfterLimit(es1);
    if Paged(es1) {
      LookupWithout(es1, LimitKey, LimitKey);
      LookupWithout(Without(es1, LimitKey), OffsetKey, LimitKey);
      LookupWithout(es1, LimitKey, OffsetKey);
      LookupWithout(Without(es1, LimitKey), OffsetKey, OffsetKey);
    }
    assert HasKey(es2, LimitKey) <==> HasKey(es, LimitKey) && !HasKey(es, OffsetKey);
    assert HasKey(es2, OffsetKey) <==> HasKey(es, OffsetKey) && !HasKey(es, LimitKey);
    LookupWithout(es2, SearchKey, LimitKey);
    LookupWithout(Without(es2, SearchKey), MatchListKey, LimitKey);
    LookupWithout(es2, SearchKey, OffsetKey);
    LookupWithout(Without(es2, SearchKey), MatchListKey, OffsetKey);
  }

  /** Once the descriptor and the order are accepted, `limit` stays in the
      map, as an equality condition, exactly when `offset` is missing. */
  lemma SelectLimitNeedsOffset(d: Result<ResourceDescriptor>, tableOf: TableOf, typ: ResourceType, es: seq<Entry>)
    requires d.Ok? && OrderStat(es).Ok?
    ensures HasKey(SelectSpec(d, tableOf, typ, es).left, LimitKey) <==> HasKey(es, LimitKey) && !HasKey(es, OffsetKey)
    ensures HasKey(SelectSpec(d, tableOf, typ, es).left, OffsetKey) <==> HasKey(es, OffsetKey) && !HasKey(es, LimitKey)
  {
    SelectLeft(d, tableOf, typ, es);
    LimitSurvives(es);
  }

  /** An unknown type, or an `orderby` that is not a string, fails before the
      map is touched. */
  lemma SelectEarlyErrors(d: Result<ResourceDescriptor>, tableOf: TableOf, typ: ResourceType, es: seq<Entry>)
    requires d.Err? || OrderStat(es).Err?
    ensures SelectSpec(d, tableOf, typ, es).res.Err?
    ensures SelectSpec(d, tableOf, typ, es).left == es
  {
  }

  lemma SelectStmtText(table: string, order: string, limit: string, w: Stmt)
    ensures Render(SelectStmt(table, order, limit, w).sql) ==
      if Render(w.sql) == "" then "select * from  " + table + " " + order + " " + limit
      else "select * from " + table + " where " + Render(w.sql) + " " + order + " " + limit
  {
    var s := "select * from  " + table + " " + order + " " + limit;
    assert Render([Lit(s)]) == s;
  }

  /** The text: the table, then the WHERE clause only when there are terms,
      then the order and limit parts. */
  lemma SelectText(d: Result<ResourceDescriptor>, tableOf: TableOf, typ: ResourceType, es: seq<Entry>)
    requires SelectSpec(d, tableOf, typ, es).res.Ok?
    ensures var t, w := tableOf(d.value.Typ), WhereSpec(SelectWhere(es)).value;
      var order, limit := OrderStat(es).value, LimitStat(AfterOrder(es));
      Render(SelectSpec(d, tableOf, typ, es).res.value.sql) ==
        if WhereEntries(SelectWhere(es)) == [] then "select * from  " + t + " " + order + " " + limit
        else "select * from " + t + " where " + Render(w.sql) + " " + order + " " + limit
  {
    var w := WhereSpec(SelectWhere(es)).value;
    WhereEmptyIff(SelectWhere(es));
    SelectStmtText(tableOf(d.value.Typ), OrderStat(es).value, LimitStat(AfterOrder(es)), w);
  }

  // ------------------------------------------------------------ count

  /** countSqlAndArgs. */
  function CountSpec(d: Result<ResourceDescriptor>, tableOf: TableOf, typ: ResourceType, es: seq<Entry>): Built
  {
    if d.Err? then Built(Err(DescriptorErr(typ, d.error)), es)
    else
      var table := tableOf(d.value.Typ);
      match WhereSpec(es)
      case Err(e) => Built(Err(e), WhereEntries(es))
      case Ok(w) =>
        if Render(w.sql) == "" then Built(Ok(Stmt([Lit("select count(*) from " + table)], [])), WhereEntries(es))
        else Built(Ok(Stmt(Enclose("select count(*) from " + table + " where ", w.sql, ""), w.args)), WhereEntries(es))
  }

  method Count(meta: ResourceMeta, tableOf: TableOf, typ: ResourceType, conds: CondMap) returns (r: Result<Stmt>)
    modifies conds
    ensures r == CountSpec(meta.GetDescriptor(typ), tableOf, typ, old(conds.entries)).res
    ensures conds.entries == CountSpec(meta.GetDescriptor(typ), tableOf, typ, old(conds.entries)).left
  {
    var d := meta.GetDescriptor(typ);
    if d.Err? {
      return Err(DescriptorErr(typ, d.error));
    }
    var w := WhereState(conds);
    var table := tableOf(d.value.Typ);
    if w.Err? {
      return Err(w.error);
    }
    if Render(w.value.sql) == "" {
      return Ok(Stmt([Lit("select count(*) from " + table)], []));
    }
    return Ok(Stmt(Enclose("select count(*) from " + table + " where ", w.value.sql, ""), w.value.args));
  }

  lemma CountSequenced(d: Result<ResourceDescriptor>, tableOf: TableOf, typ: ResourceType, es: seq<Entry>)
    requires CountSpec(d, tableOf, typ, es).res.Ok?
    ensures Sequenced(CountSpec(d, tableOf, typ, es).res.value)
  {
    WhereSequenced(es);
    if Render(WhereSpec(es).value.sql) == "" {
      assert Markers([Lit("select count(*) from " + tableOf(d.value.Typ))]) == [];
      assert Range(1, 1) == [];
    }
  }

  /** Without order or paging entries, count and select bind the same
      arguments and leave the same map. */
  lemma CountAgreesWithSelect(d: Result<ResourceDescriptor>, tableOf: TableOf, typ: ResourceType, es: seq<Entry>)
    requires !HasKey(es, OrderByKey) && !HasKey(es, LimitKey)
    ensures CountSpec(d, tableOf, typ, es).left == SelectSpec(d, tableOf, typ, es).left
    ensures CountSpec(d, tableOf, typ, es).res.Ok? <==> SelectSpec(d, tableOf, typ, es).res.Ok?
    ensures CountSpec(d, tableOf, typ, es).res.Ok? ==>
      CountSpec(d, tableOf, typ, es).res.value.args == SelectSpec(d, tableOf, typ, es).res.value.args
  {
    assert SelectWhere(es) == es;
  }

  // ------------------------------------------------------------ delete and exists

  /** The WHERE clause of delete, exists and update: every entry is a value
      term, a FillValue rendering itself only when `fill` is set. */
  function ValueWhere(es: seq<Entry>, fill: bool, base: nat): Result<Clauses>
  {
    Terms(es, ValueFn(fill), base)
  }

  /** deleteSqlAndArgs. */
  function DeleteSpec(d: Result<ResourceDescriptor>, tableOf: TableOf, typ: ResourceType, es: seq<Entry>, fill: bool): Result<Stmt>
  {
    if d.Err? then Err(DescriptorErr(typ, d.error))
    else
      var table := tableOf(d.value.Typ);
      if es == [] then Ok(Stmt([Lit("delete from " + table)], []))
      else
        match ValueWhere(es, fill, 1)
        case Err(e) => Err(e)
        case Ok(c) => Ok(Stmt(Enclose("delete from " + table + " where ", JoinSql(c.parts, " and "), ""), c.args))
  }

  method Delete(meta: ResourceMeta, tableOf: TableOf, typ: ResourceType, conds: seq<Entry>, fill: bool) returns (r: Result<Stmt>)
    ensures r == DeleteSpec(meta.GetDescriptor(typ), tableOf, typ, conds, fill)
  {
    var d := meta.GetDescriptor(typ);
    if d.Err? {
      return Err(DescriptorErr(typ, d.error));
    }
    var table := tableOf(d.value.Typ);
    if |conds| == 0 {
      return Ok(Stmt([Lit("delete from " + table)], []));
    }
    var c := BuildTerms(conds, [], [], fill, 1);
    if c.Err? {
      return Err(c.error);
    }
    r := Ok(Stmt(Enclose("delete from " + table + " where ", JoinSql(c.value.parts, " and "), ""), c.value.args));
  }

  /** existsSqlAndArgs. */
  function ExistsSpec(d: Result<ResourceDescriptor>, tableOf: TableOf, typ: ResourceType, es: seq<Entry>, fill: bool): Result<Stmt>
  {
    if d.Err? then Err(DescriptorErr(typ, d.error))
    else
      var table := tableOf(d.value.Typ);
      if es == [] then Ok(Stmt([Lit("select (exists (select 1 from " + table + " limit 1))")], []))
      else
        match ValueWhere(es, fill, 1)
        case Err(e) => Err(e)
        case Ok(c) => Ok(Stmt(Enclose("select (exists (select 1 from  " + table + " where ", JoinSql(c.parts, " and "), " limit 1))"), c.args))
  }

  method Exists(meta: ResourceMeta, tableOf: TableOf, typ: ResourceType, conds: seq<Entry>, fill: bool) returns (r: Result<Stmt>)
    ensures r == ExistsSpec(meta.GetDescriptor(typ), tableOf, typ, conds, fill)
  {
    var d := meta.GetDescriptor(typ);
    if d.Err? {
      return Err(DescriptorErr(typ, d.error));
    }
    var table := tableOf(d.value.Typ);
    if |conds| == 0 {
      return Ok(Stmt([Lit("select (exists (select 1 from " + table + " limit 1))")], []));
    }
    var c := BuildTerms(conds, [], [], fill, 1);
    if c.Err? {
      return Err(c.error);
    }
    r := Ok(Stmt(Enclose("select (exists (select 1 from  " + table + " where ", JoinSql(c.value.parts, " and "), " limit 1))"), c.value.args));
  }

  lemma ValueWhereSpans(es: seq<Entry>, fill: bool, base: nat)
    requires ValueWhere(es, fill, base).Ok?
    ensures Spans(ValueWhere(es, fill, base).value.parts, base, base + |ValueWhere(es, fill, base).value.args|)
  {
    TermForWellNumbered([], [], fill);
    TermsSequenced(es, ValueFn(fill), base);
  }

  lemma ValueWhereSequenced(es: seq<Entry>, fill: bool, base: nat)
    requires ValueWhere(es, fill, base).Ok?
    ensures var c := ValueWhere(es, fill, base).value;
      Markers(JoinSql(c.parts, " and ")) == Range(base, base + |c.args|)
  {
    ValueWhereSpans(es, fill, base);
    var c := ValueWhere(es, fill, base).value;
    MarkersJoinSql(c.parts, " and ");
  }

  /** ValueWhereSequenced, stated for the clause list it names. */
  lemma WhereMarked(es: seq<Entry>, fill: bool, base: nat) returns (c: Clauses)
    requires ValueWhere(es, fill, base).Ok?
    ensures ValueWhere(es, fill, base) == Ok(c) && Marked(c, " and ", base)
  {
    ValueWhereSequenced(es, fill, base);
    c := ValueWhere(es, fill, base).value;
  }

  lemma DeleteSequenced(d: Result<ResourceDescriptor>, tableOf: TableOf, typ: ResourceType, es: seq<Entry>, fill: bool)
    requires DeleteSpec(d, tableOf, typ, es, fill).Ok?
    ensures Sequenced(DeleteSpec(d, tableOf, typ, es, fill).value)
  {
    if es == [] {
      assert Markers([Lit("delete from " + tableOf(d.value.Typ))]) == [];
      assert Range(1, 1) == [];
    } else {
      ValueWhereSequenced(es, fill, 1);
    }
  }

  lemma ExistsSequenced(d: Result<ResourceDescriptor>, tableOf: TableOf, typ: ResourceType, es: seq<Entry>, fill: bool)
    requires ExistsSpec(d, tableOf, typ, es, fill).Ok?
    ensures Sequenced(ExistsSpec(d, tableOf, typ, es, fill).value)
  {
    if es == [] {
      assert Markers([Lit("select (exists (select 1 from " + tableOf(d.value.Typ) + " limit 1))")]) == [];
      assert Range(1, 1) == [];
    } else {
      ValueWhereSequenced(es, fill, 1);
    }
  }

  /** With no conditions, delete empties the whole table and binds nothing. */
  lemma DeleteAll(d: Result<ResourceDescriptor>, tableOf: TableOf, typ: ResourceType, fill: bool)
    requires d.Ok?
    ensures DeleteSpec(d, tableOf, typ, [], fill) == Ok(Stmt([Lit("delete from " + tableOf(d.value.Typ))], []))
    ensures Render(DeleteSpec(d, tableOf, typ, [], fill).value.sql) == "delete from " + tableOf(d.value.Typ)
  {
    assert Render([Lit("delete from " + tableOf(d.value.Typ))]) == "delete from " + tableOf(d.value.Typ);
  }

  /** Delete and exists accept the same maps and bind the same arguments. */
  lemma DeleteExistsAgree(d: Result<ResourceDescriptor>, tableOf: TableOf, typ: ResourceType, es: seq<Entry>, fill: bool)
    ensures DeleteSpec(d, tableOf, typ, es, fill).Ok? <==> ExistsSpec(d, tableOf, typ, es, fill).Ok?
    ensures DeleteSpec(d, tableOf, typ, es, fill).Ok? ==>
      DeleteSpec(d, tableOf, typ, es, fill).value.args == ExistsSpec(d, tableOf, typ, es, fill).value.args
  {
  }

  /** The values of the entries, in map order. */
  function EntryValues(es: seq<Entry>): (r: seq<Value>)
    ensures |r| == |es|
    ensures forall i :: 0 <= i < |es| ==> r[i] == es[i].1
  {
    if es == [] then [] else EntryValues(es[..|es| - 1]) + [es[|es| - 1].1]
  }

  /** `col=$n` for each entry, numbered from `base`. */
  function PlainParts(es: seq<Entry>, base: nat): (r: seq<Sql>)
    ensures |r| == |es|
    ensures forall i :: 0 <= i < |es| ==> r[i] == [Lit(ToSnake(es[i].0) + "="), Marker(base + i)]
  {
    if es == [] then [] else PlainParts(es[..|es| - 1], base) + [PlainTerm(es[|es| - 1].0, es[|es| - 1].1, base + |es| - 1).sql]
  }

  /** Without FillValue interpretation every entry is `col=$n` bound to its
      own value, so the arguments are the map's values in order. */
  lemma {:induction false} PlainWhere(es: seq<Entry>, base: nat)
    ensures ValueWhere(es, false, base) == Ok(Clauses(PlainParts(es, base), EntryValues(es)))
  {
    if es != [] {
      var init, e := es[..|es| - 1], es[|es| - 1];
      PlainWhere(init, base);
      var acc := Clauses(PlainParts(init, base), EntryValues(init));
      var t := PlainTerm(e.0, e.1, base + |init|);
      assert ValueFn(false)(e.0, e.1, base + |acc.args|) == Ok(t);
      assert Extend(Ok(acc), e, ValueFn(false), base) == Ok(Clauses(acc.parts + [t.sql], acc.args + t.args));
    }
  }

  // ------------------------------------------------------------ update

  /** `update T set <assignments> where <terms>`, the SET arguments first. */
  function UpdateStmt(table: string, assigns: Clauses, w: Clauses): Stmt
  {
    Stmt(Enclose("update " + table + " set ", JoinSql(assigns.parts, ","), " where ") + JoinSql(w.parts, " and "), assigns.args + w.args)
  }

  /** updateSqlAndArgs: SET terms numbered from $1, then the WHERE terms
      numbered on from there. */
  function UpdateSpec(d: Result<ResourceDescriptor>, tableOf: TableOf, typ: ResourceType, newVals: seq<Entry>, conds: seq<Entry>): Result<Stmt>
  {
    if d.Err? then Err(DescriptorErr(typ, d.error))
    else
      match ValueWhere(newVals, false, 1)
      case Err(e) => Err(e)
      case Ok(assigns) =>
        match ValueWhere(conds, true, 1 + |assigns.args|)
        case Err(e) => Err(e)
        case Ok(w) => Ok(UpdateStmt(tableOf(d.value.Typ), assigns, w))
  }

  method Update(meta: ResourceMeta, tableOf: TableOf, typ: ResourceType, newVals: seq<Entry>, conds: seq<Entry>) returns (r: Result<Stmt>)
    ensures r == UpdateSpec(meta.GetDescriptor(typ), tableOf, typ, newVals, conds)
  {
    var d := meta.GetDescriptor(typ);
    if d.Err? {
      return Err(DescriptorErr(typ, d.error));
    }
    var table := tableOf(d.value.Typ);
    var setState: seq<Sql> := [];
    var args: seq<Value> := [];
    var markerSeq := 1;
    for i := 0 to |newVals|
      invariant ValueWhere(newVals[..i], false, 1) == Ok(Clauses(setState, args))
      invariant markerSeq == 1 + |args|
    {
      assert newVals[..i + 1][..i] == newVals[..i] && newVals[..i + 1][i] == newVals[i];
      setState := setState + [[Lit(ToSnake(newVals[i].0) + "="), Marker(markerSeq)]];
      args := args + [newVals[i].1];
      markerSeq := markerSeq + 1;
    }
    assert newVals[..|newVals|] == newVals;
    var w := BuildTerms(conds, [], [], true, markerSeq);
    if w.Err? {
      return Err(w.error);
    }
    r := Ok(UpdateStmt(table, Clauses(setState, args), w.value));
  }

  /** The placeholders of a clause list joined by `sep` are $base, $base+1, ...,
      one per argument. */
  predicate Marked(c: Clauses, sep: string, base: nat)
  {
    Markers(JoinSql(c.parts, sep)) == Range(base, base + |c.args|)
  }

  lemma UpdateStmtSequenced(table: string, assigns: Clauses, w: Clauses)
    requires Marked(assigns, ",", 1) && Marked(w, " and ", 1 + |assigns.args|)
    ensures Sequenced(UpdateStmt(table, assigns, w))
  {
    var head := Enclose("update " + table + " set ", JoinSql(assigns.parts, ","), " where ");
    MarkersAppend(head, JoinSql(w.parts, " and "));
    RangeAppend(1, 1 + |assigns.args|, 1 + |assigns.args| + |w.args|);
  }

  /** The SET values come first, bound to $1..$k in map order; the WHERE
      arguments follow, and the whole statement is sequenced. */
  lemma UpdateSequenced(d: Result<ResourceDescriptor>, tableOf: TableOf, typ: ResourceType, newVals: seq<Entry>, conds: seq<Entry>)
    requires UpdateSpec(d, tableOf, typ, newVals, conds).Ok?
    ensures var st := UpdateSpec(d, tableOf, typ, newVals, conds).value;
      Sequenced(st) && |newVals| <= |st.args| && st.args[..|newVals|] == EntryValues(newVals)
  {
    var assigns, w := UpdateParts(d, tableOf, typ, newVals, conds);
    var a := PlainSetMarkers(newVals);
    var c := WhereMarked(conds, true, 1 + |assigns.args|);
    UpdateStmtSequenced(tableOf(d.value.Typ), assigns, w);
    var st := UpdateStmt(tableOf(d.value.Typ), assigns, w);
    assert st.args[..|newVals|] == assigns.args;
  }

  /** A successful update names its SET and WHERE clauses. */
  lemma UpdateParts(d: Result<ResourceDescriptor>, tableOf: TableOf, typ: ResourceType, newVals: seq<Entry>, conds: seq<Entry>)
    returns (assigns: Clauses, w: Clauses)
    requires UpdateSpec(d, tableOf, typ, newVals, conds).Ok?
    ensures d.Ok? && ValueWhere(newVals, false, 1) == Ok(assigns)
    ensures ValueWhere(conds, true, 1 + |assigns.args|) == Ok(w)
    ensures UpdateSpec(d, tableOf, typ, newVals, conds) == Ok(UpdateStmt(tableOf(d.value.Typ), assigns, w))
  {
    assigns := ValueWhere(newVals, false, 1).value;
    w := ValueWhere(conds, true, 1 + |assigns.args|).value;
  }

  /** The SET list: `col=$i` for the i-th entry, bound to its value. */
  lemma PlainSetMarkers(newVals: seq<Entry>) returns (assigns: Clauses)
    ensures ValueWhere(newVals, false, 1) == Ok(assigns)
    ensures assigns.args == EntryValues(newVals) && |assigns.args| == |newVals|
    ensures Marked(assigns, ",", 1)
  {
    PlainWhere(newVals, 1);
    ValueWhereSpans(newVals, false, 1);
    assigns := ValueWhere(newVals, false, 1).value;
    assert Spans(assigns.parts, 1, 1 + |assigns.args|);
    MarkersJoinSql(assigns.parts, ",");
  }

  /** With no conditions the statement still ends in ` where `, which is not
      valid SQL: callers must always pass a condition. */
  lemma UpdateWithoutConds(d: Result<ResourceDescriptor>, tableOf: TableOf, typ: ResourceType, newVals: seq<Entry>)
    requires d.Ok?
    ensures UpdateSpec(d, tableOf, typ, newVals, []).Ok?
    ensures var t := Render(UpdateSpec(d, tableOf, typ, newVals, []).value.sql);
      |t| >= 7 && t[|t| - 7..] == " where "
  {
    PlainWhere(newVals, 1);
    var assigns := ValueWhere(newVals, false, 1).value;
    assert ValueWhere([], true, 1 + |assigns.args|) == Ok(Clauses([], []));
    var head := Enclose("update " + tableOf(d.value.Typ) + " set ", JoinSql(assigns.parts, ","), " where ");
    assert JoinSql([], " and ") == [];
    assert head + [] == head;
  }

  // ------------------------------------------------------------ insert

  /** `$1`, ..., `$n`, one statement each. */
  function MarkerParts(n: nat): (r: seq<Sql>)
    ensures |r| == n
    ensures forall i :: 0 <= i < n ==> r[i] == [Marker(i + 1)]
  {
    if n == 0 then [] else MarkerParts(n - 1) + [[Marker(n)]]
  }

  /** The argument of one descriptor field: the id, the creation time, or the
      struct field behind the column. */
  function FieldArg(name: string, id: string, created: Value, column: string -> Value): Value
  {
    if name == IDField then Str(id)
    else if name == CreateTimeField then created
    else column(name)
  }

  function FieldArgs(fs: seq<ResourceField>, id: string, created: Value, column: string -> Value): (r: seq<Value>)
    ensures |r| == |fs|
    ensures forall i :: 0 <= i < |fs| ==> r[i] == FieldArg(fs[i].Name, id, created, column)
  {
    if fs == [] then [] else FieldArgs(fs[..|fs| - 1], id, created, column) + [FieldArg(fs[|fs| - 1].Name, id, created, column)]
  }

  function ColumnArgs(names: seq<ResourceType>, column: string -> Value): (r: seq<Value>)
    ensures |r| == |names|
    ensures forall i :: 0 <= i < |names| ==> r[i] == column(names[i])
  {
    if names == [] then [] else ColumnArgs(names[..|names| - 1], column) + [column(names[|names| - 1])]
  }

  /** The id the resource ends up with: a known type with an empty id gets the generated one. */
  function InsertID(d: Result<ResourceDescriptor>, id: string, generated: string): string
  {
    if d.Ok? && id == "" then generated else id
  }

  /** insertSqlArgsAndID of db/base_tx.go and db/sql.go. */
  function InsertSpec(d: Result<ResourceDescriptor>, tableOf: TableOf, typ: ResourceType, id: string, generated: string,
                      created: Value, isStructPtr: bool, column: string -> Value): Result<Stmt>
  {
    if d.Err? then Err("get " + typ + " descriptor failed " + d.error)
    else if !isStructPtr then Err("not pointer to resource")
    else
      var desc := d.value;
      var n := |desc.Fields| + |desc.Owners| + |desc.Refers|;
      var id' := InsertID(d, id, generated);
      Ok(Stmt(Enclose("insert into " + tableOf(desc.Typ) + " values( ", JoinSql(MarkerParts(n), ","), " )"),
              FieldArgs(desc.Fields, id', created, column) + ColumnArgs(desc.Owners, column) + ColumnArgs(desc.Refers, column)))
  }

  /** The markers loop: `$1` to `$n`. */
  method BuildMarkers(n: nat) returns (markers: seq<Sql>)
    ensures markers == MarkerParts(n)
  {
    markers := [];
    for i := 1 to n + 1
      invariant markers == MarkerParts(i - 1)
    {
      markers := markers + [[Marker(i)]];
    }
  }

  /** The loop over the descriptor fields. */
  method BuildFieldArgs(fs: seq<ResourceField>, id: string, created: Value, column: string -> Value) returns (args: seq<Value>)
    ensures args == FieldArgs(fs, id, created, column)
  {
    args := [];
    for i := 0 to |fs|
      invariant args == FieldArgs(fs[..i], id, created, column)
    {
      assert fs[..i + 1][..i] == fs[..i];
      var f := fs[i];
      if f.Name == IDField {
        args := args + [Str(id)];
      } else if f.Name == CreateTimeField {
        args := args + [created];
      } else {
        args := args + [column(f.Name)];
      }
    }
    assert fs[..|fs|] == fs;
  }

  /** The loops over the owners and over the references. */
  method BuildColumnArgs(names: seq<ResourceType>, column: string -> Value) returns (args: seq<Value>)
    ensures args == ColumnArgs(names, column)
  {
    args := [];
    for i := 0 to |names|
      invariant args == ColumnArgs(names[..i], column)
    {
      assert names[..i + 1][..i] == names[..i];
      args := args + [column(names[i])];
    }
    assert names[..|names|] == names;
  }

  /** `generated` stands for uuid.Gen(). */
  method Insert(meta: ResourceMeta, tableOf: TableOf, r: Resource, generated: string) returns (res: Result<Stmt>)
    modifies r
    ensures res == InsertSpec(meta.GetDescriptor(r.dbType), tableOf, r.dbType, old(r.id), generated, r.creationTimestamp, r.isStructPtr, r.column)
    ensures r.id == InsertID(meta.GetDescriptor(r.dbType), old(r.id), generated)
  {
    var typ := r.dbType;
    var d := meta.GetDescriptor(typ);
    if d.Err? {
      return Err("get " + typ + " descriptor failed " + d.error);
    }
    var desc := d.value;
    var markers := BuildMarkers(|desc.Fields| + |desc.Owners| + |desc.Refers|);
    var sql := Enclose("insert into " + tableOf(desc.Typ) + " values( ", JoinSql(markers, ","), " )");
    var id := r.id;
    if id == "" {
      id := generated;
      r.SetID(id);
    }
    if !r.isStructPtr {
      return Err("not pointer to resource");
    }
    var fieldArgs := BuildFieldArgs(desc.Fields, id, r.creationTimestamp, r.column);
    var ownerArgs := BuildColumnArgs(desc.Owners, r.column);
    var referArgs := BuildColumnArgs(desc.Refers, r.column);
    res := Ok(Stmt(sql, fieldArgs + ownerArgs + referArgs));
  }

  lemma {:induction false} MarkerPartsMarkers(n: nat)
    ensures Markers(JoinSql(MarkerParts(n), ",")) == Range(1, n + 1)
  {
    MarkersJoinSql(MarkerParts(n), ",");
    MarkersAllCount(n);
  }

  lemma {:induction false} MarkersAllCount(n: nat)
    ensures MarkersAll(MarkerParts(n)) == Range(1, n + 1)
  {
    if n > 0 {
      MarkersAllCount(n - 1);
      MarkersAllAppend(MarkerParts(n - 1), [Marker(n)]);
      RangeAppend(1, n, n + 1);
      assert Markers([Marker(n)]) == [n];
      assert Range(n, n + 1) == [n];
    }
  }

  /** An insert's argument list: the field values `fa`, then the column of
      each owner, then the column of each reference. */
  predicate ArgsInOrder(args: seq<Value>, fa: seq<Value>, owners: seq<ResourceType>, refers: seq<ResourceType>, column: string -> Value)
  {
    |args| == |fa| + |owners| + |refers| &&
    (forall i :: 0 <= i < |fa| ==> args[i] == fa[i]) &&
    (forall i :: 0 <= i < |owners| ==> args[|fa| + i] == column(owners[i])) &&
    (forall i :: 0 <= i < |refers| ==> args[|fa| + |owners| + i] == column(refers[i]))
  }

  /** One placeholder per field, owner and reference, numbered $1..$N, and N
      arguments: the fields in descriptor order, then the owners, then the
      references. */
  lemma InsertLayout(d: Result<ResourceDescriptor>, tableOf: TableOf, typ: ResourceType, id: string, generated: string,
                     created: Value, isStructPtr: bool, column: string -> Value)
    requires InsertSpec(d, tableOf, typ, id, generated, created, isStructPtr, column).Ok?
    ensures Sequenced(InsertSpec(d, tableOf, typ, id, generated, created, isStructPtr, column).value)
    ensures var fa := FieldArgs(d.value.Fields, InsertID(d, id, generated), created, column);
      ArgsInOrder(InsertSpec(d, tableOf, typ, id, generated, created, isStructPtr, column).value.args, fa, d.value.Owners, d.value.Refers, column)
    ensures var args := InsertSpec(d, tableOf, typ, id, generated, created, isStructPtr, column).value.args;
      forall i :: 0 <= i < |d.value.Fields| ==> args[i] == FieldArg(d.value.Fields[i].Name, InsertID(d, id, generated), created, column)
  {
    var desc := d.value;
    var fa := FieldArgs(desc.Fields, InsertID(d, id, generated), created, column);
    var args := fa + ColumnArgs(desc.Owners, column) + ColumnArgs(desc.Refers, column);
    MarkerPartsMarkers(|desc.Fields| + |desc.Owners| + |desc.Refers|);
    InsertShape("insert into " + tableOf(desc.Typ) + " values( ", JoinSql(MarkerParts(|desc.Fields| + |desc.Owners| + |desc.Refers|), ","),
                |desc.Fields| + |desc.Owners| + |desc.Refers|, InsertSpec(d, tableOf, typ, id, generated, created, isStructPtr, column).value);
    ColumnsInOrder(fa, desc.Owners, desc.Refers, column, args);
  }

  /** An insert with one placeholder per argument is sequenced. */
  lemma InsertShape(head: string, q: Sql, n: nat, st: Stmt)
    requires Markers(q) == Range(1, n + 1)
    requires st.sql == Enclose(head, q, " )") && |st.args| == n
    ensures Sequenced(st)
  {
  }

  /** Field values, then owner columns, then reference columns. */
  lemma ColumnsInOrder(fa: seq<Value>, owners: seq<ResourceType>, refers: seq<ResourceType>, column: string -> Value, args: seq<Value>)
    requires args == fa + ColumnArgs(owners, column) + ColumnArgs(refers, column)
    ensures ArgsInOrder(args, fa, owners, refers, column)
  {
    ArgsFrom(fa, ColumnArgs(owners, column), ColumnArgs(refers, column), owners, refers, column, args);
  }

  lemma ArgsFrom(fa: seq<Value>, oa: seq<Value>, ra: seq<Value>, owners: seq<ResourceType>, refers: seq<ResourceType>,
                 column: string -> Value, args: seq<Value>)
    requires args == fa + oa + ra
    requires |oa| == |owners| && forall i :: 0 <= i < |owners| ==> oa[i] == column(owners[i])
    requires |ra| == |refers| && forall i :: 0 <= i < |refers| ==> ra[i] == column(refers[i])
    ensures ArgsInOrder(args, fa, owners, refers, column)
  {
    ArgsThree(fa, oa, ra, args);
  }

  /** Where the field, owner and refer arguments sit in the argument list. */
  lemma ArgsThree(fa: seq<Value>, oa: seq<Value>, ra: seq<Value>, args: seq<Value>)
    requires args == fa + oa + ra
    ensures |args| == |fa| + |oa| + |ra|
    ensures forall i :: 0 <= i < |fa| ==> args[i] == fa[i]
    ensures forall i :: 0 <= i < |oa| ==> args[|fa| + i] == oa[i]
    ensures forall i :: 0 <= i < |ra| ==> args[|fa| + |oa| + i] == ra[i]
  {
  }

  /** A known type with an empty id gets the generated id, which is also the
      argument of its `id` column; any other id is kept. */
  lemma InsertFillsID(d: Result<ResourceDescriptor>, id: string, generated: string, created: Value, column: string -> Value)
    ensures InsertID(d, id, generated) == (if d.Ok? && id == "" then generated else id)
    ensures FieldArg(IDField, InsertID(d, id, generated), created, column) == Str(InsertID(d, id, generated))
  {
  }

  // ------------------------------------------------------------ join select

  /** The table that relates owner and owned resources. */
  function RelationType(owner: ResourceType, owned: ResourceType): ResourceType
  {
    ToLower(owner) + "_" + ToLower(owned)
  }

  /** joinSelectSqlAndArgs: the owned rows whose relation row names `ownerID`. */
  function JoinSelect(meta: ResourceMeta, tableOf: TableOf, owner: ResourceType, owned: ResourceType, ownerID: string): (r: Result<Stmt>)
    reads meta
    ensures r.Ok? <==> meta.Has(owned) && meta.Has(RelationType(owner, owned))
    ensures r.Ok? ==> r.value.args == [Str(ownerID)] && Sequenced(r.value)
    ensures r.Ok? ==>
      var ot, rt := tableOf(meta.descriptors[owned].Typ), tableOf(meta.descriptors[RelationType(owner, owned)].Typ);
      Render(r.value.sql) == "select " + ot + ".* from " + ot + " inner join " + rt + " on (" + ot + ".id=" + rt + "." + owned + " and " + rt + "." + owner + "=$1)"
  {
    var rel := RelationType(owner, owned);
    match meta.GetDescriptor(owned)
    case Err(e) => Err(DescriptorErr(owned, e))
    case Ok(od) =>
      match meta.GetDescriptor(rel)
      case Err(e) => Err(DescriptorErr(rel, e))
      case Ok(rd) =>
        var ot, rt := tableOf(od.Typ), tableOf(rd.Typ);
        var head := "select " + ot + ".* from " + ot + " inner join " + rt + " on (" + ot + ".id=" + rt + "." + owned + " and " + rt + "." + owner + "=";
        LitMarkerLit(head, 1, ")");
        assert Range(1, 2) == [1];
        Ok(Stmt([Lit(head), Marker(1), Lit(")")], [Str(ownerID)]))
  }
}
