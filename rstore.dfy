// db/rstore.go: the original store, on the legacy `lx.gr_` tables. Clean
// drops in reverse registration order; BatchInsert cuts the rows into
// chunks small enough for the placeholder budget and sends one multi-row
// insert per chunk.
module RStore {
  import opened Wrappers
  import opened Strs
  import opened Values
  import opened GoTypes
  import opened Resources
  import opened Meta
  import LegacySql
  import Store
  import GaussArray

  // ------------------------------------------------------------ Clean

  /** Clean: the drop statements, last registered type first. */
  method Clean(meta: ResourceMeta) returns (stmts: seq<string>)
    ensures stmts == Store.DropStatements(meta.resources, LegacySql.LegacyTables())
  {
    var rs := meta.resources;
    stmts := [];
    var i := |rs|;
    assert rs[i..] == [];
    while i > 0
      invariant 0 <= i <= |rs|
      invariant stmts == Store.DropStatements(rs[i..], LegacySql.LegacyTables())
    {
      var tableName := LegacySql.ResourceTableName(rs[i - 1]);
      Store.DropStatementsFront(rs, i, LegacySql.LegacyTables());
      stmts := stmts + ["DROP TABLE IF EXISTS " + tableName + " CASCADE"];
      i := i - 1;
    }
    assert rs[0..] == rs;
  }

  // ------------------------------------------------------------ execBatchInsert

  /** One statement sent to the connection. */
  datatype BatchExec = BatchExec(sql: string, args: seq<Value>)

  /** genBatchInsertSql(descriptor, row, fieldCount, offset), which is not
      part of this model: one row's `( $offset,... )` fragment and its arguments. */
  type RowSql = (ResourceDescriptor, Value, nat, nat) -> Result<(string, seq<Value>)>

  /** The connection's Exec: the affected row count or an error. */
  type Exec = BatchExec -> Result<int>

  function BatchHead(table: string): string
  {
    "insert into " + table + " values "
  }

  /** The placeholder the k-th row of a chunk starts at. */
  function RowOffset(k: nat, fieldCount: nat): (o: nat)
    ensures o >= 1
    ensures o == 1 + k * fieldCount
  {
    1 + k * fieldCount
  }

  function Indices(n: nat): (r: seq<nat>)
    ensures |r| == n
    ensures forall k :: 0 <= k < n ==> r[k] == k
  {
    if n == 0 then [] else Indices(n - 1) + [n - 1]
  }

  /** Each row's fragment, row k numbered from RowOffset(k); the first failing row's error. */
  function RowParts(d: ResourceDescriptor, rows: seq<Value>, fieldCount: nat, gen: RowSql): Result<seq<(string, seq<Value>)>>
  {
    GaussArray.Convert(Indices(|rows|),
      (k: nat) => if k < |rows| then gen(d, rows[k], fieldCount, RowOffset(k, fieldCount)) else Err(""))
  }

  function Frags(parts: seq<(string, seq<Value>)>): (r: seq<string>)
    ensures |r| == |parts|
    ensures forall k :: 0 <= k < |parts| ==> r[k] == parts[k].0
  {
    if parts == [] then [] else Frags(parts[..|parts| - 1]) + [parts[|parts| - 1].0]
  }

  /** The rows' arguments, one row after the other. */
  function ArgsOf(parts: seq<(string, seq<Value>)>): seq<Value>
  {
    if parts == [] then [] else ArgsOf(parts[..|parts| - 1]) + parts[|parts| - 1].1
  }

  /** execBatchInsert: `insert into T values ` and the row fragments joined
      by commas, sent in one Exec; a row that cannot be rendered is the
      error and nothing is sent. */
  function ExecBatchSpec(d: ResourceDescriptor, table: string, fieldCount: nat, rows: seq<Value>, gen: RowSql, exec: Exec)
    : (r: (Result<int>, seq<BatchExec>))
    ensures |r.1| <= 1
    ensures r.1 == [] ==> r.0.Err?
    ensures r.1 != [] ==> r.0 == exec(r.1[0])
  {
    match RowParts(d, rows, fieldCount, gen)
    case Err(e) => (Err(e), [])
    case Ok(parts) =>
      var st := BatchExec(BatchHead(table) + Join(Frags(parts), ","), ArgsOf(parts));
      (exec(st), [st])
  }

  /** The buffer once the given rows are written: their fragments, a comma
      after each but the last of all n rows. */
  function Written(head: string, parts: seq<(string, seq<Value>)>, n: nat): string
  {
    head + (if 0 < |parts| < n then Join(Frags(parts), ",") + "," else Join(Frags(parts), ","))
  }

  lemma WrittenStep(head: string, parts: seq<(string, seq<Value>)>, p: (string, seq<Value>), n: nat)
    requires |parts| < n
    ensures Written(head, parts + [p], n) == Written(head, parts, n) + p.0 + (if |parts| < n - 1 then "," else "")
  {
    var next := parts + [p];
    PrefixOfAppend(parts, [p]);
    JoinAppend(Frags(parts), p.0, ",");
    assert Frags(next) == Frags(parts) + [p.0];
    var j := Join(Frags(parts), ",");
    var j' := Join(Frags(next), ",");
    if parts != [] {
      assert j' == j + "," + p.0;
      AppendAssoc(head, j + ",", p.0);
    }
    if |parts| < n - 1 {
      AppendAssoc(head, j', ",");
    }
  }

  lemma ArgsStep(parts: seq<(string, seq<Value>)>, p: (string, seq<Value>))
    ensures ArgsOf(parts + [p]) == ArgsOf(parts) + p.1
  {
    PrefixOfAppend(parts, [p]);
  }

  method ExecBatchInsert(d: ResourceDescriptor, table: string, fieldCount: nat, rows: seq<Value>, gen: RowSql, exec: Exec)
    returns (r: Result<int>, sent: seq<BatchExec>)
    ensures (r, sent) == ExecBatchSpec(d, table, fieldCount, rows, gen, exec)
  {
    var f := (k: nat) => if k < |rows| then gen(d, rows[k], fieldCount, RowOffset(k, fieldCount)) else Err("");
    var head := BatchHead(table);
    var buf := head;
    var args: seq<Value> := [];
    var offset := 1;
    ghost var parts: seq<(string, seq<Value>)> := [];
    for i := 0 to |rows|
      invariant offset == RowOffset(i, fieldCount)
      invariant |parts| == i
      invariant forall k :: 0 <= k < i ==> f(Indices(|rows|)[k]) == Ok(parts[k])
      invariant buf == Written(head, parts, |rows|)
      invariant args == ArgsOf(parts)
    {
      var g := gen(d, rows[i], fieldCount, offset);
      if g.Err? {
        assert f(Indices(|rows|)[i]) == g;
        GaussArray.ConvertFirstError(Indices(|rows|), f, i);
        return Err(g.error), [];
      }
      var (sql, argOne) := g.value;
      WrittenStep(head, parts, g.value, |rows|);
      ArgsStep(parts, g.value);
      buf := buf + sql;
      if i < |rows| - 1 {
        buf := buf + ",";
      }
      args := args + argOne;
      parts := parts + [g.value];
      offset := offset + fieldCount;
    }
    assert GaussArray.Convert(Indices(|rows|), f).value == parts;
    var st := BatchExec(buf, args);
    r := exec(st);
    sent := [st];
  }

  /** When every row renders `fieldCount` arguments, row k's arguments sit at
      positions k * fieldCount and on, where its placeholders start
      (RowOffset is one-based). */
  lemma {:induction false} ArgsAligned(parts: seq<(string, seq<Value>)>, fieldCount: nat, k: nat, j: nat)
    requires forall m :: 0 <= m < |parts| ==> |parts[m].1| == fieldCount
    requires k < |parts| && j < fieldCount
    ensures |ArgsOf(parts)| == |parts| * fieldCount
    ensures RowOffset(k, fieldCount) - 1 + j < |ArgsOf(parts)|
    ensures ArgsOf(parts)[RowOffset(k, fieldCount) - 1 + j] == parts[k].1[j]
    decreases |parts|
  {
    var n := |parts|;
    var init := parts[..n - 1];
    ArgsLength(init, fieldCount);
    assert |ArgsOf(parts)| == (n - 1) * fieldCount + fieldCount;
    if k < n - 1 {
      ArgsAligned(init, fieldCount, k, j);
      assert ArgsOf(parts)[k * fieldCount + j] == ArgsOf(init)[k * fieldCount + j];
    } else {
      assert k * fieldCount == (n - 1) * fieldCount;
    }
  }

  lemma {:induction false} ArgsLength(parts: seq<(string, seq<Value>)>, fieldCount: nat)
    requires forall m :: 0 <= m < |parts| ==> |parts[m].1| == fieldCount
    ensures |ArgsOf(parts)| == |parts| * fieldCount
    decreases |parts|
  {
    if parts != [] {
      var n := |parts|;
      ArgsLength(parts[..n - 1], fieldCount);
      assert |ArgsOf(parts)| == (n - 1) * fieldCount + fieldCount;
    }
  }

  // ------------------------------------------------------------ prepareBatchInsert

  /** The fields, owners and references: the placeholders one row takes. */
  function FieldCount(d: ResourceDescriptor): nat
  {
    |d.Fields| + |d.Owners| + |d.Refers|
  }

  /** The rows per statement: the batch size, or as many rows as fit in it
      when all the rows together would not. */
  function ChunkSize(fieldCount: nat, n: nat, batchSize: nat): (size: nat)
    ensures fieldCount * n > batchSize ==> fieldCount * size <= batchSize
    ensures fieldCount * n <= batchSize ==> size == batchSize
  {
    if fieldCount * n > batchSize then batchSize / fieldCount else batchSize
  }

  /** A zero chunk size, for which the Go loop never advances, happens
      exactly when the batch size is zero or one row alone is over it. */
  lemma ChunkSizeZero(fieldCount: nat, n: nat, batchSize: nat)
    ensures ChunkSize(fieldCount, n, batchSize) == 0 <==> batchSize == 0 || (n > 0 && fieldCount > batchSize)
  {
    if n > 0 && fieldCount > batchSize {
      assert fieldCount * n >= fieldCount;
    }
  }

  /** One round of the loop: the rows [lo, hi) of the slice. */
  datatype Chunk = Chunk(lo: nat, hi: nat)

  /** `ends`: i + size, cut at the end of the rows. */
  function ChunkEnd(i: nat, n: nat, size: nat): (e: nat)
    ensures i <= n ==> i <= e <= n
    ensures size > 0 && i < n ==> i < e
    ensures e - i <= size
  {
    if i + size > n then n else i + size
  }

  /** The loop's chunks from `i` on. */
  function ChunksFrom(i: nat, n: nat, size: nat): (cs: seq<Chunk>)
    requires size > 0 || i >= n
    ensures cs == [] <==> i >= n
    decreases n - i
  {
    if i >= n then [] else [Chunk(i, ChunkEnd(i, n, size))] + ChunksFrom(i + size, n, size)
  }

  /** The k-th chunk starts at i + k * size and holds `size` rows, or the
      rest; each is non-empty and ends where the next begins, and the last
      ends at n. */
  lemma {:induction false} ChunksShape(i: nat, n: nat, size: nat, k: nat)
    requires size > 0 && k < |ChunksFrom(i, n, size)|
    ensures var c := ChunksFrom(i, n, size)[k];
      c.lo == i + k * size && c.hi == ChunkEnd(c.lo, n, size) && c.lo < c.hi <= n
    ensures k + 1 < |ChunksFrom(i, n, size)| ==> ChunksFrom(i, n, size)[k + 1].lo == ChunksFrom(i, n, size)[k].hi
    ensures k + 1 == |ChunksFrom(i, n, size)| ==> ChunksFrom(i, n, size)[k].hi == n
    decreases n - i
  {
    var cs := ChunksFrom(i, n, size);
    assert cs[1..] == ChunksFrom(i + size, n, size);
    if k > 0 {
      ChunksShape(i + size, n, size, k - 1);
      assert (i + size) + (k - 1) * size == i + k * size;
    } else if 1 < |cs| {
      ChunksShape(i + size, n, size, 0);
    }
  }

  /** Every chunk lies within the rows. */
  ghost predicate InRows(cs: seq<Chunk>, n: nat)
  {
    forall k :: 0 <= k < |cs| ==> cs[k].lo <= cs[k].hi <= n
  }

  lemma ChunksInRows(i: nat, n: nat, size: nat)
    requires size > 0
    ensures InRows(ChunksFrom(i, n, size), n)
  {
    var cs := ChunksFrom(i, n, size);
    forall k | 0 <= k < |cs|
      ensures cs[k].lo <= cs[k].hi <= n
    {
      ChunksShape(i, n, size, k);
    }
  }

  lemma InRowsAppend(cs: seq<Chunk>, c: Chunk, n: nat)
    requires InRows(cs, n) && c.lo <= c.hi <= n
    ensures InRows(cs + [c], n)
  {
    var ds := cs + [c];
    forall k | 0 <= k < |ds|
      ensures ds[k].lo <= ds[k].hi <= n
    {
      if k < |cs| {
        assert ds[k] == cs[k];
      }
    }
  }

  lemma AppendAssoc<T>(a: seq<T>, b: seq<T>, c: seq<T>)
    ensures a + (b + c) == (a + b) + c
  {
  }

  lemma PrefixOfAppend<T>(a: seq<T>, b: seq<T>)
    ensures (a + b)[..|a|] == a
  {
  }

  /** The rows of the chunks, one chunk after the other. */
  function ChunkRows(rows: seq<Value>, cs: seq<Chunk>): seq<Value>
    requires InRows(cs, |rows|)
  {
    if cs == [] then [] else rows[cs[0].lo..cs[0].hi] + ChunkRows(rows, cs[1..])
  }

  /** The chunks cover the rows from i on, in order, each row once. */
  lemma {:induction false} ChunksCover(rows: seq<Value>, i: nat, size: nat)
    requires size > 0 && i <= |rows|
    ensures InRows(ChunksFrom(i, |rows|, size), |rows|)
    ensures ChunkRows(rows, ChunksFrom(i, |rows|, size)) == rows[i..]
    decreases |rows| - i
  {
    var n := |rows|;
    ChunksInRows(i, n, size);
    if i < n {
      var cs := ChunksFrom(i, n, size);
      var e := ChunkEnd(i, n, size);
      assert cs[0] == Chunk(i, e) && cs[1..] == ChunksFrom(i + size, n, size);
      if i + size <= n {
        ChunksCover(rows, i + size, size);
        assert rows[i..e] + rows[e..] == rows[i..];
      } else {
        assert rows[i..e] + [] == rows[i..];
      }
    }
  }

  /** No chunk needs more placeholders than the batch size allows. */
  lemma ChunkWithinBudget(fieldCount: nat, n: nat, batchSize: nat, k: nat)
    requires ChunkSize(fieldCount, n, batchSize) > 0
    requires k < |ChunksFrom(0, n, ChunkSize(fieldCount, n, batchSize))|
    ensures var c := ChunksFrom(0, n, ChunkSize(fieldCount, n, batchSize))[k];
      c.lo <= c.hi && fieldCount * (c.hi - c.lo) <= batchSize
  {
    var size := ChunkSize(fieldCount, n, batchSize);
    ChunksShape(0, n, size, k);
    var c := ChunksFrom(0, n, size)[k];
    var len := c.hi - c.lo;
    assert len <= size && len <= n;
    if fieldCount * n > batchSize {
      MulMono(fieldCount, len, size);
    } else {
      MulMono(fieldCount, len, n);
    }
  }

  lemma MulMono(a: nat, b: nat, c: nat)
    requires b <= c
    ensures a * b <= a * c
  {
  }

  /** What sending one chunk's rows yields: execBatchInsert with the
      descriptor, table, field count, renderer and connection fixed. */
  type ChunkRun = seq<Value> -> (Result<int>, seq<BatchExec>)

  function BatchRun(d: ResourceDescriptor, table: string, fieldCount: nat, gen: RowSql, exec: Exec): ChunkRun
  {
    (chunk: seq<Value>) => ExecBatchSpec(d, table, fieldCount, chunk, gen, exec)
  }

  /** `run` sends what execBatchInsert sends. */
  ghost predicate SendsBatches(run: ChunkRun, d: ResourceDescriptor, table: string, fieldCount: nat, gen: RowSql, exec: Exec)
  {
    forall chunk {:trigger ExecBatchSpec(d, table, fieldCount, chunk, gen, exec)} ::
      run(chunk) == ExecBatchSpec(d, table, fieldCount, chunk, gen, exec)
  }

  lemma BatchRunSends(d: ResourceDescriptor, table: string, fieldCount: nat, gen: RowSql, exec: Exec)
    ensures SendsBatches(BatchRun(d, table, fieldCount, gen, exec), d, table, fieldCount, gen, exec)
  {
  }

  /** The chunks, sent one after the other until one fails; the affected
      rows add up. */
  function RunChunks(rows: seq<Value>, cs: seq<Chunk>, run: ChunkRun): (r: (Result<int>, seq<BatchExec>))
    requires InRows(cs, |rows|)
    decreases |cs|
  {
    if cs == [] then (Ok(0), [])
    else
      var init := cs[..|cs| - 1];
      assert InRows(init, |rows|) by {
        assert forall k :: 0 <= k < |init| ==> init[k] == cs[k];
      }
      var pre := RunChunks(rows, init, run);
      if pre.0.Err? then pre
      else
        var c := cs[|cs| - 1];
        var last := run(rows[c.lo..c.hi]);
        (if last.0.Err? then Err(last.0.error) else Ok(pre.0.value + last.0.value), pre.1 + last.1)
  }

  /** A chunk that succeeds sends exactly one statement. */
  ghost predicate OneSendPerChunk(run: ChunkRun)
  {
    forall chunk :: run(chunk).0.Ok? ==> |run(chunk).1| == 1
  }

  lemma BatchRunOneSend(d: ResourceDescriptor, table: string, fieldCount: nat, gen: RowSql, exec: Exec)
    ensures OneSendPerChunk(BatchRun(d, table, fieldCount, gen, exec))
  {
  }

  /** The run succeeds exactly when every chunk does, and then it has sent
      one statement per chunk. */
  lemma {:induction false} RunChunksOk(rows: seq<Value>, cs: seq<Chunk>, run: ChunkRun)
    requires InRows(cs, |rows|) && OneSendPerChunk(run)
    ensures var r := RunChunks(rows, cs, run);
      (r.0.Ok? <==> forall k :: 0 <= k < |cs| ==> run(rows[cs[k].lo..cs[k].hi]).0.Ok?) &&
      (r.0.Ok? ==> |r.1| == |cs|)
    decreases |cs|
  {
    if cs != [] {
      var init := cs[..|cs| - 1];
      assert forall k :: 0 <= k < |init| ==> init[k] == cs[k];
      RunChunksOk(rows, init, run);
      var c := cs[|cs| - 1];
      var pre := RunChunks(rows, init, run);
      var last := run(rows[c.lo..c.hi]);
      var all := forall k :: 0 <= k < |cs| ==> run(rows[cs[k].lo..cs[k].hi]).0.Ok?;
      if all {
        assert forall k :: 0 <= k < |init| ==> run(rows[init[k].lo..init[k].hi]).0.Ok?;
        assert last.0.Ok?;
      } else {
        var k :| 0 <= k < |cs| && !run(rows[cs[k].lo..cs[k].hi]).0.Ok?;
        if k < |init| {
          assert !run(rows[init[k].lo..init[k].hi]).0.Ok?;
        }
      }
    }
  }

  /** Once a chunk has failed, later chunks are neither sent nor counted. */
  lemma {:induction false} FailureStops(rows: seq<Value>, cs: seq<Chunk>, run: ChunkRun, k: nat)
    requires InRows(cs, |rows|) && k <= |cs|
    requires RunChunks(rows, cs[..k], run).0.Err?
    ensures RunChunks(rows, cs, run) == RunChunks(rows, cs[..k], run)
    decreases |cs| - k
  {
    if k < |cs| {
      var init := cs[..|cs| - 1];
      assert init[..k] == cs[..k];
      FailureStops(rows, init, run, k);
    } else {
      assert cs[..k] == cs;
    }
  }

  /** The loop's next round is the next chunk. */
  lemma ChunkStep(cs: seq<Chunk>, done: seq<Chunk>, i: nat, n: nat, size: nat)
    requires size > 0 && i < n && cs == done + ChunksFrom(i, n, size) && InRows(done, n)
    ensures cs == (done + [Chunk(i, ChunkEnd(i, n, size))]) + ChunksFrom(i + size, n, size)
    ensures InRows(done + [Chunk(i, ChunkEnd(i, n, size))], n)
    ensures cs[..|done| + 1] == done + [Chunk(i, ChunkEnd(i, n, size))]
  {
    var c := Chunk(i, ChunkEnd(i, n, size));
    InRowsAppend(done, c, n);
    var rest := ChunksFrom(i + size, n, size);
    assert ChunksFrom(i, n, size) == [c] + rest;
    AppendAssoc(done, [c], rest);
    PrefixOfAppend(done + [c], rest);
  }

  /** One round of prepareBatchInsert's loop: the chunk from `i` is sent;
      on failure the whole run ends there, otherwise it is counted. */
  lemma SendStep(rows: seq<Value>, cs: seq<Chunk>, done: seq<Chunk>, i: nat, size: nat, run: ChunkRun,
                 effectRows: int, sent: seq<BatchExec>, c: Result<int>, s: seq<BatchExec>)
    requires size > 0 && i < |rows| && cs == done + ChunksFrom(i, |rows|, size)
    requires InRows(done, |rows|) && InRows(cs, |rows|)
    requires (Ok(effectRows), sent) == RunChunks(rows, done, run)
    requires (c, s) == run(rows[i..ChunkEnd(i, |rows|, size)])
    ensures var next := done + [Chunk(i, ChunkEnd(i, |rows|, size))];
      cs == next + ChunksFrom(i + size, |rows|, size) && InRows(next, |rows|) &&
      (c.Err? ==> RunChunks(rows, cs, run) == (Err(c.error), sent + s)) &&
      (c.Ok? ==> RunChunks(rows, next, run) == (Ok(effectRows + c.value), sent + s))
  {
    var next := done + [Chunk(i, ChunkEnd(i, |rows|, size))];
    ChunkStep(cs, done, i, |rows|, size);
    RunStep(rows, done, Chunk(i, ChunkEnd(i, |rows|, size)), run);
    if c.Err? {
      FailureStops(rows, cs, run, |next|);
    }
  }

  /** Sending one more chunk after the ones that succeeded. */
  lemma RunStep(rows: seq<Value>, done: seq<Chunk>, c: Chunk, run: ChunkRun)
    requires InRows(done, |rows|) && c.lo <= c.hi <= |rows|
    requires RunChunks(rows, done, run).0.Ok?
    ensures InRows(done + [c], |rows|)
    ensures var pre := RunChunks(rows, done, run);
      var last := run(rows[c.lo..c.hi]);
      InRows(done + [c], |rows|) &&
      RunChunks(rows, done + [c], run)
        == (if last.0.Err? then Err(last.0.error) else Ok(pre.0.value + last.0.value), pre.1 + last.1)
  {
    InRowsAppend(done, c, |rows|);
    PrefixOfAppend(done, [c]);
  }

  /** prepareBatchInsert's outcome: Go's `(n, nil)`, `(0, err)`, or a loop that never ends. */
  datatype Outcome = Affected(rows: int) | Failed(error: string) | Stuck

  /** prepareBatchInsert, given GetStructPointerInSlice's element struct.
      With a zero chunk size the empty chunk [0, 0) is sent over and over:
      its error ends the loop, its success repeats it forever. */
  function PrepareSpec(meta: ResourceMeta, rows: seq<Value>, elem: Result<GoStruct>, batchSize: nat, gen: RowSql, exec: Exec)
    : (r: (Outcome, seq<BatchExec>))
    reads meta
    ensures r.0.Stuck? ==> rows != [] && |r.1| == 1
    ensures r.0.Affected? ==> elem.Ok? && meta.Has(ResourceDBType(elem.value))
  {
    if elem.Err? then (Failed(elem.error), [])
    else
      var typ := ResourceDBType(elem.value);
      var d := meta.GetDescriptor(typ);
      if d.Err? then (Failed("get " + typ + " descriptor failed " + d.error), [])
      else
        var table := LegacySql.ResourceTableName(typ);
        var fieldCount := FieldCount(d.value);
        var size := ChunkSize(fieldCount, |rows|, batchSize);
        if rows == [] then (Affected(0), [])
        else if size == 0 then
          var once := ExecBatchSpec(d.value, table, fieldCount, [], gen, exec);
          (if once.0.Err? then Failed(once.0.error) else Stuck, once.1)
        else
          var cs := ChunksFrom(0, |rows|, size);
          ChunksInRows(0, |rows|, size);
          var run := RunChunks(rows, cs, BatchRun(d.value, table, fieldCount, gen, exec));
          (if run.0.Err? then Failed(run.0.error) else Affected(run.0.value), run.1)
  }

  /** prepareBatchInsert. A loop that would never end stops after its first
      round with Stuck. */
  method PrepareBatchInsert(meta: ResourceMeta, rows: seq<Value>, elem: Result<GoStruct>, batchSize: nat, gen: RowSql, exec: Exec)
    returns (r: Outcome, sent: seq<BatchExec>)
    ensures (r, sent) == PrepareSpec(meta, rows, elem, batchSize, gen, exec)
  {
    if elem.Err? {
      return Failed(elem.error), [];
    }
    var typ := ResourceDBType(elem.value);
    var d := meta.GetDescriptor(typ);
    if d.Err? {
      return Failed("get " + typ + " descriptor failed " + d.error), [];
    }
    var desc := d.value;
    var table := LegacySql.ResourceTableName(typ);
    var fieldCount := FieldCount(desc);
    var size := batchSize;
    if fieldCount * |rows| > size {
      size := size / fieldCount;
    }
    sent := [];
    if |rows| > 0 && size == 0 {
      var c, s := ExecBatchInsert(desc, table, fieldCount, rows[0..0], gen, exec);
      assert rows[0..0] == [];
      if c.Err? {
        return Failed(c.error), s;
      }
      return Stuck, s;
    }
    if |rows| == 0 {
      return Affected(0), [];
    }
    ChunksInRows(0, |rows|, size);
    var c;
    BatchRunSends(desc, table, fieldCount, gen, exec);
    c, sent := SendChunks(desc, table, fieldCount, rows, size, gen, exec, BatchRun(desc, table, fieldCount, gen, exec));
    if c.Err? {
      return Failed(c.error), sent;
    }
    r := Affected(c.value);
  }

  /** One execBatchInsert call of the loop, seen as a chunk run. */
  method SendChunk(desc: ResourceDescriptor, table: string, fieldCount: nat, chunk: seq<Value>, gen: RowSql, exec: Exec,
                   ghost run: ChunkRun)
    returns (c: Result<int>, s: seq<BatchExec>)
    requires SendsBatches(run, desc, table, fieldCount, gen, exec)
    ensures (c, s) == run(chunk)
  {
    c, s := ExecBatchInsert(desc, table, fieldCount, chunk, gen, exec);
  }

  /** prepareBatchInsert's loop: chunk after chunk of `size` rows, stopping
      at the first error. */
  method SendChunks(desc: ResourceDescriptor, table: string, fieldCount: nat, rows: seq<Value>, size: nat, gen: RowSql, exec: Exec,
                    ghost run: ChunkRun)
    returns (r: Result<int>, sent: seq<BatchExec>)
    requires size > 0 && InRows(ChunksFrom(0, |rows|, size), |rows|)
    requires SendsBatches(run, desc, table, fieldCount, gen, exec)
    ensures (r, sent) == RunChunks(rows, ChunksFrom(0, |rows|, size), run)
  {
    ghost var cs := ChunksFrom(0, |rows|, size);
    ghost var done: seq<Chunk> := [];
    ghost var rest := cs;
    var effectRows := 0;
    sent := [];
    var i := 0;
    while i < |rows|
      invariant rest == ChunksFrom(i, |rows|, size)
      invariant cs == done + rest
      invariant InRows(done, |rows|)
      invariant (Ok(effectRows), sent) == RunChunks(rows, done, run)
      decreases |rows| - i
    {
      var ends := i + size;
      if ends > |rows| {
        ends := |rows|;
      }
      assert ends == ChunkEnd(i, |rows|, size);
      var c, s := SendChunk(desc, table, fieldCount, rows[i..ends], gen, exec, run);
      SendStep(rows, cs, done, i, size, run, effectRows, sent, c, s);
      ghost var next := done + [Chunk(i, ends)];
      if c.Err? {
        return Err(c.error), sent + s;
      }
      effectRows := effectRows + c.value;
      sent := sent + s;
      done, rest, i := next, ChunksFrom(i + size, |rows|, size), i + size;
    }
    assert done == cs;
    r := Ok(effectRows);
  }

  // ------------------------------------------------------------ BatchInsert

  /** BatchInsert's argument: a (pointer to a) slice of resources, or anything else. */
  datatype Batch = NotSlice | Slice(rows: seq<Value>)

  function BatchInsertSpec(meta: ResourceMeta, value: Batch, elem: Result<GoStruct>, batchSize: nat, gen: RowSql, exec: Exec)
    : (r: (Outcome, seq<BatchExec>))
    reads meta
    ensures value.NotSlice? ==> r == (Failed("only support pointer of slice"), [])
    ensures value.Slice? && value.rows == [] ==> r == (Affected(0), [])
    ensures value.Slice? && |value.rows| > MaxBatchSize ==> r == (Failed("the limit size of batch insert is 65535"), [])
    ensures value.Slice? && 0 < |value.rows| <= MaxBatchSize ==> r == PrepareSpec(meta, value.rows, elem, batchSize, gen, exec)
  {
    match value
    case NotSlice => (Failed("only support pointer of slice"), [])
    case Slice(rows) =>
      if |rows| == 0 then (Affected(0), [])
      else if |rows| > MaxBatchSize then (Failed("the limit size of batch insert is 65535"), [])
      else PrepareSpec(meta, rows, elem, batchSize, gen, exec)
  }

  method BatchInsert(meta: ResourceMeta, value: Batch, elem: Result<GoStruct>, batchSize: nat, gen: RowSql, exec: Exec)
    returns (r: Outcome, sent: seq<BatchExec>)
    ensures (r, sent) == BatchInsertSpec(meta, value, elem, batchSize, gen, exec)
  {
    if value.NotSlice? {
      return Failed("only support pointer of slice"), [];
    }
    var n := |value.rows|;
    if n == 0 {
      return Affected(0), [];
    } else if n > MaxBatchSize {
      return Failed("the limit size of batch insert is 65535"), [];
    }
    r, sent := PrepareBatchInsert(meta, value.rows, elem, batchSize, gen, exec);
  }

  /** A registered type whose rows fit the budget one at a time inserts in
      chunks that cover the rows in order, and succeeds exactly when every
      chunk does, one statement per chunk. */
  lemma BatchInChunks(meta: ResourceMeta, rows: seq<Value>, elem: Result<GoStruct>, batchSize: nat, gen: RowSql, exec: Exec)
    requires 0 < |rows| <= MaxBatchSize && elem.Ok? && meta.Has(ResourceDBType(elem.value))
    requires 0 < FieldCount(meta.descriptors[ResourceDBType(elem.value)]) <= batchSize
    ensures var typ := ResourceDBType(elem.value);
      var d := meta.descriptors[typ];
      var size := ChunkSize(FieldCount(d), |rows|, batchSize);
      var cs := ChunksFrom(0, |rows|, size);
      var r := BatchInsertSpec(meta, Slice(rows), elem, batchSize, gen, exec);
      size > 0 && InRows(cs, |rows|) && ChunkRows(rows, cs) == rows &&
      (r.0.Affected? <==>
        forall k :: 0 <= k < |cs| ==>
          ExecBatchSpec(d, LegacySql.ResourceTableName(typ), FieldCount(d), rows[cs[k].lo..cs[k].hi], gen, exec).0.Ok?) &&
      (r.0.Affected? ==> |r.1| == |cs|) &&
      !r.0.Stuck?
  {
    var typ := ResourceDBType(elem.value);
    var d := meta.descriptors[typ];
    var fc := FieldCount(d);
    var size := ChunkSize(fc, |rows|, batchSize);
    var cs := ChunksFrom(0, |rows|, size);
    var run := BatchRun(d, LegacySql.ResourceTableName(typ), fc, gen, exec);
    BatchRunsChunks(meta, rows, elem, batchSize, gen, exec);
    ChunksCover(rows, 0, size);
    assert rows[0..] == rows;
    BatchRunOneSend(d, LegacySql.ResourceTableName(typ), fc, gen, exec);
    RunChunksOk(rows, cs, run);
  }

  /** Under BatchInChunks' conditions BatchInsert is the chunk loop. */
  lemma BatchRunsChunks(meta: ResourceMeta, rows: seq<Value>, elem: Result<GoStruct>, batchSize: nat, gen: RowSql, exec: Exec)
    requires 0 < |rows| <= MaxBatchSize && elem.Ok? && meta.Has(ResourceDBType(elem.value))
    requires 0 < FieldCount(meta.descriptors[ResourceDBType(elem.value)]) <= batchSize
    ensures var size := ChunkSize(FieldCount(meta.descriptors[ResourceDBType(elem.value)]), |rows|, batchSize);
      size > 0 && InRows(ChunksFrom(0, |rows|, size), |rows|)
    ensures var typ := ResourceDBType(elem.value);
      var d := meta.descriptors[typ];
      var size := ChunkSize(FieldCount(d), |rows|, batchSize);
      var run := RunChunks(rows, ChunksFrom(0, |rows|, size), BatchRun(d, LegacySql.ResourceTableName(typ), FieldCount(d), gen, exec));
      BatchInsertSpec(meta, Slice(rows), elem, batchSize, gen, exec) == (if run.0.Err? then Failed(run.0.error) else Affected(run.0.value), run.1)
  {
    var typ := ResourceDBType(elem.value);
    var d := meta.descriptors[typ];
    ChunkSizeZero(FieldCount(d), |rows|, batchSize);
    ChunksInRows(0, |rows|, ChunkSize(FieldCount(d), |rows|, batchSize));
  }
}
