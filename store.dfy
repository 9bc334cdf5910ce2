// db/store.go: the drivers, the transaction helper WithTx and
// GetResourceWithID, plus the drop order every store's Clean follows.
module Store {
  import opened Wrappers
  import opened Strs
  import opened Values
  import opened SqlText
  import opened Conds
  import opened Resources
  import opened Meta
  import opened Dml

  datatype Driver = DriverPostgresql | DriverOpenGauss | DriverMysql

  /** The driver names of store.go. */
  function DriverName(d: Driver): (s: string)
    ensures d == DriverOpenGauss <==> s == "openGauss"
  {
    match d
    case DriverPostgresql => "postgresql"
    case DriverOpenGauss => "openGauss"
    case DriverMysql => "mysql"
  }

  // ------------------------------------------------------------ Clean

  /** The drop statement of one table: the table name framed by fixed text. */
  function DropStatement(table: string): (s: string)
    ensures |s| == |table| + 29
  {
    "DROP TABLE IF EXISTS " + table + " CASCADE"
  }

  /** The statement is the table name between a fixed prefix and suffix. */
  lemma DropStatementFrames(table: string)
    ensures var s := DropStatement(table);
      s[..21] == "DROP TABLE IF EXISTS " && s[|s| - 8..] == " CASCADE" && s[21..|s| - 8] == table
  {
  }

  /** Different tables get different drop statements. */
  lemma DropStatementInjective(a: string, b: string)
    requires DropStatement(a) == DropStatement(b)
    ensures a == b
  {
    DropStatementFrames(a);
    DropStatementFrames(b);
  }

  /** The registered types, last first. */
  function Reversed(rs: seq<ResourceType>): (r: seq<ResourceType>)
    ensures |r| == |rs|
    ensures forall j :: 0 <= j < |rs| ==> r[j] == rs[|rs| - 1 - j]
  {
    seq(|rs|, j requires 0 <= j < |rs| => rs[|rs| - 1 - j])
  }

  /** One drop per registered type, the last registered dropped first. */
  function DropStatements(rs: seq<ResourceType>, tableOf: ResourceType -> string): (r: seq<string>)
    ensures |r| == |rs|
    ensures forall j :: 0 <= j < |rs| ==> r[j] == DropStatement(tableOf(Reversed(rs)[j]))
  {
    if rs == [] then []
    else
      var r := [DropStatement(tableOf(rs[|rs| - 1]))] + DropStatements(rs[..|rs| - 1], tableOf);
      assert forall j :: 1 <= j < |rs| ==> Reversed(rs)[j] == Reversed(rs[..|rs| - 1])[j - 1];
      r
  }

  /** Reversing twice gives the registration order back. */
  lemma ReversedTwice(rs: seq<ResourceType>)
    ensures Reversed(Reversed(rs)) == rs
  {
    var r := Reversed(Reversed(rs));
    forall j | 0 <= j < |rs| ensures r[j] == rs[j] {
      assert r[j] == Reversed(rs)[|rs| - 1 - j];
    }
  }

  /** Reversing a list with one more element at the front puts it last. */
  lemma ReversedFront(xs: seq<ResourceType>)
    requires xs != []
    ensures Reversed(xs) == Reversed(xs[1..]) + [xs[0]]
  {
    var a, b := Reversed(xs), Reversed(xs[1..]) + [xs[0]];
    assert |a| == |b|;
    forall j | 0 <= j < |a|
      ensures a[j] == b[j]
    {
    }
  }

  /** A Clean loop that has dropped the types from `i` on drops `rs[i - 1]` next. */
  lemma DropStatementsFront(rs: seq<ResourceType>, i: nat, tableOf: ResourceType -> string)
    requires 0 < i <= |rs|
    ensures DropStatements(rs[i - 1..], tableOf) == DropStatements(rs[i..], tableOf) + [DropStatement(tableOf(rs[i - 1]))]
  {
    var xs, ys := rs[i - 1..], rs[i..];
    ReversedFront(xs);
    assert xs[1..] == ys;
    var a, b := DropStatements(xs, tableOf), DropStatements(ys, tableOf) + [DropStatement(tableOf(xs[0]))];
    assert |a| == |b|;
    forall j | 0 <= j < |a|
      ensures a[j] == b[j]
    {
    }
  }

  /** Each type registered after every type it depends on. */
  ghost predicate DepsFirst(rs: seq<ResourceType>, ds: map<ResourceType, ResourceDescriptor>)
  {
    forall i :: 0 <= i < |rs| ==> rs[i] in ds && forall m :: m in Deps(ds[rs[i]]) ==> m in rs[..i]
  }

  /** Reverse registration order drops every table before the tables it
      references: the j-th dropped type's dependencies are all dropped later. */
  lemma DropsDependentsFirst(rs: seq<ResourceType>, ds: map<ResourceType, ResourceDescriptor>, j: nat, m: ResourceType)
    requires DepsFirst(rs, ds)
    requires j < |rs| && m in Deps(ds[Reversed(rs)[j]])
    ensures exists k :: j < k < |rs| && Reversed(rs)[k] == m
  {
    var i := |rs| - 1 - j;
    var q := DepEarlier(rs, ds, i, m);
    var k := |rs| - 1 - q;
    assert Reversed(rs)[k] == m;
  }

  /** Where a dependency of the i-th registered type was registered. */
  lemma DepEarlier(rs: seq<ResourceType>, ds: map<ResourceType, ResourceDescriptor>, i: nat, m: ResourceType) returns (q: nat)
    requires DepsFirst(rs, ds)
    requires i < |rs| && m in Deps(ds[rs[i]])
    ensures q < i && rs[q] == m
  {
    assert m in rs[..i];
    q :| q < i && rs[..i][q] == m;
  }

  /** A valid registry lists types in dependency order. */
  lemma ValidDepsFirst(meta: ResourceMeta)
    requires meta.Valid()
    ensures DepsFirst(meta.resources, meta.descriptors)
  {
  }

  // ------------------------------------------------------------ WithTx

  /** What WithTx does to the transaction, in order. */
  datatype Call = Begin | RunF | Commit(result: Option<string>) | Rollback

  datatype TxOutcome = TxOutcome(err: Option<string>, calls: seq<Call>)

  /** WithTx, given the outcome of Begin, of `f` and of Commit. */
  function WithTxSpec(beginErr: Option<string>, fErr: Option<string>, commitErr: Option<string>): TxOutcome
  {
    if beginErr.Some? then TxOutcome(beginErr, [Begin])
    else if fErr.None? then TxOutcome(None, [Begin, RunF, Commit(commitErr)])
    else TxOutcome(fErr, [Begin, RunF, Rollback])
  }

  function Commits(calls: seq<Call>): nat
  {
    if calls == [] then 0 else (if calls[0].Commit? then 1 else 0) + Commits(calls[1..])
  }

  function Rollbacks(calls: seq<Call>): nat
  {
    if calls == [] then 0 else (if calls[0] == Rollback then 1 else 0) + Rollbacks(calls[1..])
  }

  method WithTx(beginErr: Option<string>, fErr: Option<string>, commitErr: Option<string>) returns (err: Option<string>, calls: seq<Call>)
    ensures TxOutcome(err, calls) == WithTxSpec(beginErr, fErr, commitErr)
  {
    calls := [Begin];
    err := beginErr;
    if err.None? {
      calls := calls + [RunF];
      err := fErr;
      if err.None? {
        calls := calls + [Commit(commitErr)];
      } else {
        calls := calls + [Rollback];
      }
    }
  }

  /** A failed Begin runs nothing else and is the result. */
  lemma BeginFailure(beginErr: Option<string>, fErr: Option<string>, commitErr: Option<string>)
    requires beginErr.Some?
    ensures var o := WithTxSpec(beginErr, fErr, commitErr);
      o.err == beginErr && RunF !in o.calls && Commits(o.calls) == 0 && Rollbacks(o.calls) == 0
  {
  }

  /** Once begun, f runs once and is followed by exactly one of Commit (when
      f succeeds) and Rollback (when it fails); f's error is the result. */
  lemma CommitXorRollback(fErr: Option<string>, commitErr: Option<string>)
    ensures var o := WithTxSpec(None, fErr, commitErr);
      o.err == fErr &&
      Commits(o.calls) == (if fErr.None? then 1 else 0) &&
      Rollbacks(o.calls) == (if fErr.Some? then 1 else 0) &&
      o.calls[..2] == [Begin, RunF]
  {
    var o := WithTxSpec(None, fErr, commitErr);
    var last := if fErr.None? then Commit(commitErr) else Rollback;
    assert o.calls == [Begin, RunF, last];
    assert o.calls[1..] == [RunF, last] && o.calls[1..][1..] == [last] && [last][1..] == [];
    assert Commits([last]) == (if fErr.None? then 1 else 0);
    assert Rollbacks([last]) == (if fErr.Some? then 1 else 0);
  }

  /** The error of Commit is dropped: the result does not depend on it. */
  lemma CommitErrorIgnored(beginErr: Option<string>, fErr: Option<string>, c1: Option<string>, c2: Option<string>)
    ensures WithTxSpec(beginErr, fErr, c1).err == WithTxSpec(beginErr, fErr, c2).err
    ensures beginErr.None? && fErr.None? ==> WithTxSpec(beginErr, fErr, c1).err == None
  {
  }

  // ------------------------------------------------------------ GetResourceWithID

  /** The condition GetResourceWithID fills with. */
  function IDCond(id: string): seq<Entry>
  {
    [(IDField, Str(id))]
  }

  /** The condition becomes the one term `id=$1`, bound to the id. */
  lemma IDCondWhere(id: string)
    ensures WhereSpec(IDCond(id)) == Ok(Stmt([Lit("id="), Marker(1)], [Str(id)]))
  {
    var es := IDCond(id);
    assert ToSnake("id") == "id" by { SnakeOfSnake("id"); }
    LookupWithout(es, SearchKey, MatchListKey);
    assert Lookup(es, SearchKey) == None && Lookup(es, MatchListKey) == None;
    assert Without(es, SearchKey) == es;
    assert Without(es, MatchListKey) == es;
    assert WhereEntries(es) == es;
    assert ListedKeys(es, SearchKey) == [] && ListedKeys(es, MatchListKey) == [];
    var t := Stmt([Lit("id="), Marker(1)], [Str(id)]);
    assert PlainTerm(IDField, Str(id), 1) == t by { assert "id" + "=" == "id="; }
    assert TermFor(IDField, Str(id), [], [], true, 1) == Ok(t);
    assert WhereTermFn(es)(IDField, Str(id), 1) == Ok(t);
    assert es[..0] == [];
    assert Terms(es, WhereTermFn(es), 1) == Ok(Clauses([] + [t.sql], [] + [t.args[0]]));
    assert [] + [t.sql] == [t.sql] && [] + [t.args[0]] == t.args;
    assert JoinSql([t.sql], " and ") == t.sql;
  }

  /** GetResourceWithID: a row is found when the transaction succeeds and the
      fill yields exactly one row; zero or several rows are "not found". `fill`
      stands for the transaction's Fill, given the condition. */
  function GetResourceWithIDSpec(id: string, beginErr: Option<string>, fill: seq<Entry> -> (Option<string>, seq<Value>),
                                 commitErr: Option<string>): (r: Result<Value>)
    ensures var rows := fill(IDCond(id)).1;
      r.Ok? <==> beginErr.None? && fill(IDCond(id)).0.None? && |rows| == 1
    ensures r.Ok? ==> r.value == fill(IDCond(id)).1[0]
    ensures beginErr.Some? ==> r == Err(beginErr.value)
    ensures beginErr.None? && fill(IDCond(id)).0.Some? ==> r == Err(fill(IDCond(id)).0.value)
  {
    var (fe, rows) := fill(IDCond(id));
    var o := WithTxSpec(beginErr, fe, commitErr);
    if o.err.Some? then Err(o.err.value)
    else if |rows| == 1 then Ok(rows[0])
    else Err("not found")
  }

  method GetResourceWithID(id: string, beginErr: Option<string>, fill: seq<Entry> -> (Option<string>, seq<Value>),
                           commitErr: Option<string>) returns (r: Result<Value>)
    ensures r == GetResourceWithIDSpec(id, beginErr, fill, commitErr)
  {
    var (fe, rows) := fill(IDCond(id));
    var err, _ := WithTx(beginErr, fe, commitErr);
    if err.Some? {
      return Err(err.value);
    }
    if |rows| == 1 {
      r := Ok(rows[0]);
    } else {
      r := Err("not found");
    }
  }
}
