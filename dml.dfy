// The WHERE clause of the SQL builders of db/base_tx.go and db/sql.go:
// getSqlWhereState, which takes the `search` and `match_list` entries out of
// the condition map, and the condition loop that turns every other entry into
// a term with consecutively numbered placeholders.
module Dml {
  import opened Wrappers
  import opened Strs
  import opened Values
  import opened SqlText
  import opened FillValues
  import opened Conds
  import opened Resources
  import opened Meta

  const SearchKey := "search"
  const MatchListKey := "match_list"
  const OrderByKey := "orderby"
  const LimitKey := "limit"
  const OffsetKey := "offset"

  // ------------------------------------------------------------ one condition

  /** `col=$n`, bound to the value itself. */
  function PlainTerm(k: string, v: Value, n: nat): Stmt
  {
    Stmt([Lit(ToSnake(k) + "="), Marker(n)], [v])
  }

  /** A search key: `col like $n` bound to the value wrapped in `%`. */
  function SearchTerm(k: string, v: Value, n: nat): Result<Stmt>
  {
    if v.Str? then Ok(Stmt([Lit(ToSnake(k) + " like "), Marker(n)], [Str("%" + v.s + "%")]))
    else Err("search condition isn't string")
  }

  /** `col=$n`, `col=$n+1`, ... for the match-list values. */
  function MatchSegs(col: string, n: nat, vals: seq<string>): (r: seq<Sql>)
    ensures |r| == |vals|
    ensures forall i :: 0 <= i < |vals| ==> r[i] == [Lit(col + "="), Marker(n + i)]
  {
    if vals == [] then []
    else MatchSegs(col, n, vals[..|vals| - 1]) + [[Lit(col + "="), Marker(n + |vals| - 1)]]
  }

  function StrValues(vals: seq<string>): (r: seq<Value>)
    ensures |r| == |vals|
    ensures forall i :: 0 <= i < |vals| ==> r[i] == Str(vals[i])
  {
    if vals == [] then [] else StrValues(vals[..|vals| - 1]) + [Str(vals[|vals| - 1])]
  }

  /** A match-list key: `( col=$n or col=$n+1 ...)`, one placeholder per comma-separated value. */
  function MatchTerm(k: string, v: Value, n: nat): Result<Stmt>
  {
    if v.Str? then
      var vals := Split(v.s, ',');
      Ok(Stmt([Lit("( ")] + JoinSql(MatchSegs(ToSnake(k), n, vals), " or ") + [Lit(")")], StrValues(vals)))
    else Err("match condition isn't string")
  }

  /** Any other key: a FillValue renders itself when `fill` is set, anything else is equality. */
  function ValueTerm(k: string, v: Value, n: nat, fill: bool): Result<Stmt>
  {
    if fill && v.Fill? then
      match BuildSql(v.op, v.operand, k, n)
      case Ok(f) => Ok(Stmt(f.sql, [f.arg]))
      case Err(e) => Err(e)
    else Ok(PlainTerm(k, v, n))
  }

  /** The WHERE term for one entry; a search key wins over a match-list key. */
  function TermFor(k: string, v: Value, sk: seq<string>, mk: seq<string>, fill: bool, n: nat): Result<Stmt>
  {
    if k in sk then SearchTerm(k, v, n)
    else if k in mk then MatchTerm(k, v, n)
    else ValueTerm(k, v, n, fill)
  }

  lemma {:induction false} MatchSegsMarkers(col: string, n: nat, vals: seq<string>)
    ensures MarkersAll(MatchSegs(col, n, vals)) == Range(n, n + |vals|)
  {
    if vals != [] {
      var init := vals[..|vals| - 1];
      MatchSegsMarkers(col, n, init);
      assert MatchSegs(col, n, vals) == MatchSegs(col, n, init) + [[Lit(col + "="), Marker(n + |init|)]];
      MarkersAllAppend(MatchSegs(col, n, init), [Lit(col + "="), Marker(n + |init|)]);
      LitMarker(col + "=", n + |init|);
      RangeAppend(n, n + |init|, n + |vals|);
      assert Range(n + |init|, n + |vals|) == [n + |init|];
    }
  }

  /** Each term binds its arguments to consecutive placeholders starting at n. */
  lemma TermMarkers(k: string, v: Value, sk: seq<string>, mk: seq<string>, fill: bool, n: nat)
    requires TermFor(k, v, sk, mk, fill, n).Ok?
    ensures var t := TermFor(k, v, sk, mk, fill, n).value;
      |t.args| >= 1 && Markers(t.sql) == Range(n, n + |t.args|)
  {
    if k in sk {
      SearchNumbered(k, v, n);
    } else if k in mk {
      MatchNumbered(k, v, n);
    } else {
      ValueNumbered(k, v, n, fill);
    }
    assert Numbered(TermFor(k, v, sk, mk, fill, n), n);
  }

  lemma SearchNumbered(k: string, v: Value, n: nat)
    ensures Numbered(SearchTerm(k, v, n), n)
  {
    LitMarker(ToSnake(k) + " like ", n);
    assert Range(n, n + 1) == [n];
  }

  lemma MatchNumbered(k: string, v: Value, n: nat)
    ensures Numbered(MatchTerm(k, v, n), n)
  {
    if v.Str? {
      var vals := Split(v.s, ',');
      var segs := MatchSegs(ToSnake(k), n, vals);
      MatchSegsMarkers(ToSnake(k), n, vals);
      MarkersJoinSql(segs, " or ");
      MarkersAppend([Lit("( ")], JoinSql(segs, " or "));
      MarkersAppend([Lit("( ")] + JoinSql(segs, " or "), [Lit(")")]);
      assert Markers([Lit("( ")]) == [] && Markers([Lit(")")]) == [];
    }
  }

  lemma ValueNumbered(k: string, v: Value, n: nat, fill: bool)
    ensures Numbered(ValueTerm(k, v, n, fill), n)
  {
    if fill && v.Fill? {
      if BuildSql(v.op, v.operand, k, n).Ok? {
        BuildSqlMarker(v.op, v.operand, k, n);
      }
    } else {
      LitMarker(ToSnake(k) + "=", n);
    }
    assert Range(n, n + 1) == [n];
  }

  // ------------------------------------------------------------ many conditions

  /** How a builder turns one entry into a term, given its first placeholder. */
  type TermFn = (string, Value, nat) -> Result<Stmt>

  function TermFn_(sk: seq<string>, mk: seq<string>, fill: bool): TermFn
  {
    (k: string, v: Value, n: nat) => TermFor(k, v, sk, mk, fill, n)
  }

  ghost predicate Numbered(t: Result<Stmt>, n: nat)
  {
    t.Ok? ==> |t.value.args| >= 1 && Markers(t.value.sql) == Range(n, n + |t.value.args|)
  }

  /** Every term binds its arguments to consecutive placeholders starting at the one it is given. */
  ghost predicate WellNumbered(term: TermFn)
  {
    forall k: string, v: Value, n: nat :: Numbered(term(k, v, n), n)
  }

  lemma TermForWellNumbered(sk: seq<string>, mk: seq<string>, fill: bool)
    ensures WellNumbered(TermFn_(sk, mk, fill))
  {
    forall k: string, v: Value, n: nat
      ensures Numbered(TermFn_(sk, mk, fill)(k, v, n), n)
    {
      assert TermFn_(sk, mk, fill)(k, v, n) == TermFor(k, v, sk, mk, fill, n);
      if TermFor(k, v, sk, mk, fill, n).Ok? {
        TermMarkers(k, v, sk, mk, fill, n);
      }
    }
  }

  datatype Clauses = Clauses(parts: seq<Sql>, args: seq<Value>)

  /** The terms of the entries in map order; the first placeholder is `base`
      and each term continues where the previous one stopped. The first
      failing entry's error is the result. */
  function Terms(es: seq<Entry>, term: TermFn, base: nat): (r: Result<Clauses>)
    ensures r.Ok? ==> |r.value.parts| == |es|
  {
    if es == [] then Ok(Clauses([], []))
    else Extend(Terms(es[..|es| - 1], term, base), es[|es| - 1], term, base)
  }

  /** One more entry: its term starts at the placeholder after the previous arguments. */
  function Extend(acc: Result<Clauses>, e: Entry, term: TermFn, base: nat): (r: Result<Clauses>)
    ensures r.Ok? ==> acc.Ok? && |r.value.parts| == |acc.value.parts| + 1
  {
    if acc.Err? then acc
    else
      var t := term(e.0, e.1, base + |acc.value.args|);
      if t.Err? then Err(t.error)
      else Ok(Clauses(acc.value.parts + [t.value.sql], acc.value.args + t.value.args))
  }

  /** Placeholders base, base + 1, ... in text order, one per argument, and
      at least one per entry. */
  lemma {:induction false} TermsSequenced(es: seq<Entry>, term: TermFn, base: nat)
    requires WellNumbered(term)
    requires Terms(es, term, base).Ok?
    ensures |Terms(es, term, base).value.args| >= |es|
    ensures Stepped(Terms(es, term, base).value, base)
  {
    if es == [] {
      assert Range(base, base) == [];
    } else {
      TermsSequenced(es[..|es| - 1], term, base);
      TermsSequencedStep(es, term, base);
    }
  }

  /** The step of TermsSequenced: from the entries before the last to all of them. */
  lemma TermsSequencedStep(es: seq<Entry>, term: TermFn, base: nat)
    requires WellNumbered(term)
    requires es != [] && Terms(es, term, base).Ok?
    requires Terms(es[..|es| - 1], term, base).Ok?
    requires |Terms(es[..|es| - 1], term, base).value.args| >= |es| - 1
    requires Stepped(Terms(es[..|es| - 1], term, base).value, base)
    ensures |Terms(es, term, base).value.args| >= |es|
    ensures Stepped(Terms(es, term, base).value, base)
  {
    var c, t := TermsLastNumbered(es, term, base);
    SequencedStep(c, t, Terms(es, term, base).value, base);
  }

  /** TermsLast, with the last term's placeholders. */
  lemma TermsLastNumbered(es: seq<Entry>, term: TermFn, base: nat) returns (c: Clauses, t: Stmt)
    requires WellNumbered(term)
    requires es != [] && Terms(es, term, base).Ok?
    ensures Terms(es[..|es| - 1], term, base) == Ok(c)
    ensures |t.args| >= 1 && Markers(t.sql) == Range(base + |c.args|, base + |c.args| + |t.args|)
    ensures Terms(es, term, base).value == Clauses(c.parts + [t.sql], c.args + t.args)
  {
    c, t := TermsLast(es, term, base);
    var e := es[|es| - 1];
    assert Numbered(term(e.0, e.1, base + |c.args|), base + |c.args|);
  }

  ghost predicate Spans(parts: seq<Sql>, lo: nat, hi: nat)
  {
    MarkersAll(parts) == Range(lo, hi)
  }

  /** The placeholders of `c` are base, base + 1, ..., one per argument. */
  ghost predicate Stepped(c: Clauses, base: nat)
  {
    Spans(c.parts, base, base + |c.args|)
  }

  /** The last entry's term extends the terms of the entries before it. */
  lemma TermsLast(es: seq<Entry>, term: TermFn, base: nat) returns (c: Clauses, t: Stmt)
    requires es != [] && Terms(es, term, base).Ok?
    ensures Terms(es[..|es| - 1], term, base) == Ok(c)
    ensures term(es[|es| - 1].0, es[|es| - 1].1, base + |c.args|) == Ok(t)
    ensures Terms(es, term, base).value == Clauses(c.parts + [t.sql], c.args + t.args)
  {
    c := Terms(es[..|es| - 1], term, base).value;
    t := term(es[|es| - 1].0, es[|es| - 1].1, base + |c.args|).value;
  }

  /** One more term, numbered on from the previous arguments, keeps the
      placeholders in step with the arguments. */
  lemma SequencedStep(c: Clauses, t: Stmt, r: Clauses, base: nat)
    requires Stepped(c, base)
    requires |t.args| >= 1 && Markers(t.sql) == Range(base + |c.args|, base + |c.args| + |t.args|)
    requires r == Clauses(c.parts + [t.sql], c.args + t.args)
    ensures |r.args| >= |c.args| + 1 && Stepped(r, base)
  {
    SpansStep(c.parts, t.sql, base, base + |c.args|, base + |c.args| + |t.args|);
  }

  lemma SpansStep(ps: seq<Sql>, q: Sql, lo: nat, mid: nat, hi: nat)
    requires lo <= mid <= hi
    requires Spans(ps, lo, mid)
    requires Markers(q) == Range(mid, hi)
    ensures Spans(ps + [q], lo, hi)
  {
    MarkersAllAppend(ps, q);
    RangeAppend(lo, mid, hi);
  }

  /** Once an entry fails, the whole condition list fails with its error. */
  lemma {:induction false} TermsErrStays(es: seq<Entry>, term: TermFn, base: nat, j: nat)
    requires j <= |es|
    requires Terms(es[..j], term, base).Err?
    ensures Terms(es, term, base) == Terms(es[..j], term, base)
    decreases |es| - j
  {
    if j < |es| {
      assert es[..|es| - 1][..j] == es[..j];
      TermsErrStays(es[..|es| - 1], term, base, j);
    } else {
      assert es[..j] == es;
    }
  }

  /** The terms of a prefix of the entries are a prefix of the terms, and
      their arguments a prefix of the arguments. */
  lemma {:induction false} TermsPrefix(es: seq<Entry>, term: TermFn, base: nat, j: nat)
    requires j <= |es|
    requires Terms(es, term, base).Ok?
    ensures Terms(es[..j], term, base).Ok?
    ensures IsPrefix(Terms(es[..j], term, base).value, Terms(es, term, base).value)
    decreases |es|
  {
    if j == |es| {
      assert es[..j] == es;
    } else {
      var init := es[..|es| - 1];
      var ci := Terms(init, term, base).value;
      var t := term(es[|es| - 1].0, es[|es| - 1].1, base + |ci.args|).value;
      assert Terms(es, term, base).value == Clauses(ci.parts + [t.sql], ci.args + t.args);
      TermsPrefix(init, term, base, j);
      assert init[..j] == es[..j];
      PrefixStep(Terms(es[..j], term, base).value, ci, t);
    }
  }

  predicate IsPrefix(a: Clauses, b: Clauses)
  {
    a.parts <= b.parts && a.args <= b.args
  }

  lemma PrefixStep(a: Clauses, c: Clauses, t: Stmt)
    requires IsPrefix(a, c)
    ensures IsPrefix(a, Clauses(c.parts + [t.sql], c.args + t.args))
  {
  }

  /** Entry j's own term sits at position j, bound to the arguments right
      after those of the entries before it. */
  lemma TermsBinding(es: seq<Entry>, term: TermFn, base: nat, j: nat)
    requires j < |es|
    requires Terms(es, term, base).Ok?
    ensures Terms(es[..j], term, base).Ok?
    ensures var c, pre := Terms(es, term, base).value, Terms(es[..j], term, base).value;
      var t := term(es[j].0, es[j].1, base + |pre.args|);
      t.Ok? && c.parts[j] == t.value.sql &&
      |pre.args| + |t.value.args| <= |c.args| &&
      c.args[|pre.args|..|pre.args| + |t.value.args|] == t.value.args
  {
    TermsPrefix(es, term, base, j + 1);
    assert es[..j + 1][..j] == es[..j];
    assert es[..j + 1][j] == es[j];
    var pre := Terms(es[..j], term, base).value;
    var t := term(es[j].0, es[j].1, base + |pre.args|).value;
    assert Terms(es[..j + 1], term, base).value == Clauses(pre.parts + [t.sql], pre.args + t.args);
    BindingAt(pre, t, Terms(es, term, base).value);
  }

  lemma BindingAt(pre: Clauses, t: Stmt, c: Clauses)
    requires IsPrefix(Clauses(pre.parts + [t.sql], pre.args + t.args), c)
    ensures |pre.parts| < |c.parts| && c.parts[|pre.parts|] == t.sql
    ensures |pre.args| + |t.args| <= |c.args|
    ensures c.args[|pre.args|..|pre.args| + |t.args|] == t.args
  {
    assert (pre.parts + [t.sql])[|pre.parts|] == t.sql;
    assert (pre.args + t.args)[|pre.args|..] == t.args;
  }

  // ------------------------------------------------------------ getSqlWhereState

  /** The keys a special entry lists, when its value is a string. */
  function ListedKeys(es: seq<Entry>, key: string): seq<string>
  {
    match Lookup(es, key)
    case Some(Str(s)) => Split(s, ',')
    case _ => []
  }

  /** The entries left once the search and match_list entries are deleted. */
  function WhereEntries(es: seq<Entry>): seq<Entry>
  {
    Without(Without(es, SearchKey), MatchListKey)
  }

  function WhereTermFn(es: seq<Entry>): TermFn
  {
    TermFn_(ListedKeys(es, SearchKey), ListedKeys(es, MatchListKey), true)
  }

  /** getSqlWhereState: the terms joined by " and ", and their arguments. */
  function WhereSpec(es: seq<Entry>): Result<Stmt>
  {
    if es == [] then Ok(Stmt([], []))
    else
      match Terms(WhereEntries(es), WhereTermFn(es), 1)
      case Err(e) => Err(e)
      case Ok(c) => Ok(Stmt(JoinSql(c.parts, " and "), c.args))
  }

  /** For any map order the clause is sequenced: $1..$N in text order, N arguments. */
  lemma WhereSequenced(es: seq<Entry>)
    requires WhereSpec(es).Ok?
    ensures Sequenced(WhereSpec(es).value)
  {
    if es != [] {
      TermForWellNumbered(ListedKeys(es, SearchKey), ListedKeys(es, MatchListKey), true);
      TermsSequenced(WhereEntries(es), WhereTermFn(es), 1);
      MarkersJoinSql(Terms(WhereEntries(es), WhereTermFn(es), 1).value.parts, " and ");
      assert Spans(Terms(WhereEntries(es), WhereTermFn(es), 1).value.parts, 1, 1 + |Terms(WhereEntries(es), WhereTermFn(es), 1).value.args|);
    }
  }

  /** The search and match_list entries never become terms of their own. */
  lemma SpecialKeysNotTerms(es: seq<Entry>)
    ensures !HasKey(WhereEntries(es), SearchKey) && !HasKey(WhereEntries(es), MatchListKey)
  {
    LookupWithout(Without(es, SearchKey), MatchListKey, SearchKey);
    LookupWithout(es, SearchKey, SearchKey);
    LookupWithout(Without(es, SearchKey), MatchListKey, MatchListKey);
  }

  /** A placeholder is printed as text, so a statement with one is never empty text. */
  lemma {:induction false} MarkersNeedText(q: Sql)
    requires Markers(q) != []
    ensures Render(q) != ""
  {
    if !q[0].Marker? {
      MarkersNeedText(q[1..]);
    }
  }

  /** Only an empty remaining map gives the empty clause. */
  lemma WhereEmptyIff(es: seq<Entry>)
    requires WhereSpec(es).Ok?
    ensures Render(WhereSpec(es).value.sql) == "" <==> WhereEntries(es) == []
  {
    if es == [] {
      assert WhereEntries(es) == [];
    } else if WhereEntries(es) != [] {
      var c := Terms(WhereEntries(es), WhereTermFn(es), 1).value;
      TermForWellNumbered(ListedKeys(es, SearchKey), ListedKeys(es, MatchListKey), true);
      TermsSequenced(WhereEntries(es), WhereTermFn(es), 1);
      MarkersJoinSql(c.parts, " and ");
      assert Markers(JoinSql(c.parts, " and ")) != [];
      MarkersNeedText(JoinSql(c.parts, " and "));
    } else {
      assert Terms(WhereEntries(es), WhereTermFn(es), 1) == Ok(Clauses([], []));
    }
  }

  // ------------------------------------------------------------ the loops

  /** The `for _, sk := range keys { if k == sk { ...; break } }` scan. */
  method Contains(keys: seq<string>, k: string) returns (found: bool)
    ensures found <==> k in keys
  {
    var i := 0;
    while i < |keys|
      invariant 0 <= i <= |keys|
      invariant k !in keys[..i]
    {
      if keys[i] == k {
        return true;
      }
      i := i + 1;
    }
    assert keys[..i] == keys;
    return false;
  }

  /** The match-list loop: one `col=$n` segment and one argument per value. */
  method BuildMatchTerm(k: string, s: string, n: nat) returns (t: Stmt)
    ensures MatchTerm(k, Str(s), n) == Ok(t)
  {
    var col := ToSnake(k);
    var vals := Split(s, ',');
    var segs: seq<Sql> := [];
    var args: seq<Value> := [];
    var markerSeq := n;
    for i := 0 to |vals|
      invariant segs == MatchSegs(col, n, vals[..i])
      invariant args == StrValues(vals[..i])
      invariant markerSeq == n + i
    {
      assert vals[..i + 1][..i] == vals[..i];
      segs := segs + [[Lit(col + "="), Marker(markerSeq)]];
      markerSeq := markerSeq + 1;
      args := args + [Str(vals[i])];
    }
    assert vals[..|vals|] == vals;
    t := Stmt([Lit("( ")] + JoinSql(segs, " or ") + [Lit(")")], args);
  }

  /** The body of the condition loop for one entry. */
  method BuildTerm(k: string, v: Value, sk: seq<string>, mk: seq<string>, fill: bool, n: nat) returns (r: Result<Stmt>)
    ensures r == TermFor(k, v, sk, mk, fill, n)
  {
    var isSearchKey := Contains(sk, k);
    var isMatchListKey := Contains(mk, k);
    if isSearchKey {
      r := SearchTerm(k, v, n);
    } else if isMatchListKey {
      if v.Str? {
        var t := BuildMatchTerm(k, v.s, n);
        r := Ok(t);
      } else {
        r := Err("match condition isn't string");
      }
    } else {
      r := ValueTerm(k, v, n, fill);
    }
  }

  /** The condition loop's spec one entry further on. */
  lemma TermsNext(es: seq<Entry>, term: TermFn, base: nat, i: nat, parts: seq<Sql>, args: seq<Value>, t: Result<Stmt>)
    requires i < |es|
    requires Terms(es[..i], term, base) == Ok(Clauses(parts, args))
    requires t == term(es[i].0, es[i].1, base + |args|)
    ensures t.Err? ==> Terms(es[..i + 1], term, base) == Err(t.error)
    ensures t.Ok? ==> Terms(es[..i + 1], term, base) == Ok(Clauses(parts + [t.value.sql], args + t.value.args))
  {
    assert es[..i + 1][..i] == es[..i] && es[..i + 1][i] == es[i];
  }

  /** The condition loop: appends each entry's term and arguments and
      advances markerSeq past them; the first error ends it. */
  method BuildTerms(es: seq<Entry>, sk: seq<string>, mk: seq<string>, fill: bool, base: nat) returns (r: Result<Clauses>)
    ensures r == Terms(es, TermFn_(sk, mk, fill), base)
  {
    var parts: seq<Sql> := [];
    var args: seq<Value> := [];
    var markerSeq := base;
    ghost var term := TermFn_(sk, mk, fill);
    for i := 0 to |es|
      invariant Terms(es[..i], term, base) == Ok(Clauses(parts, args))
      invariant markerSeq == base + |args|
    {
      var t := BuildTerm(es[i].0, es[i].1, sk, mk, fill, markerSeq);
      assert t == term(es[i].0, es[i].1, markerSeq);
      TermsNext(es, term, base, i, parts, args, t);
      if t.Err? {
        TermsErrStays(es, term, base, i + 1);
        return Err(t.error);
      }
      parts := parts + [t.value.sql];
      args := args + t.value.args;
      markerSeq := markerSeq + |t.value.args|;
    }
    assert es[..|es|] == es;
    r := Ok(Clauses(parts, args));
  }

  /** The keys a special entry lists, and the entry deleted from the map
      whatever its value. */
  method TakeListedKeys(conds: CondMap, key: string) returns (keys: seq<string>)
    modifies conds
    ensures keys == ListedKeys(old(conds.entries), key)
    ensures conds.entries == Without(old(conds.entries), key)
  {
    keys := [];
    var v := conds.Get(key);
    if v.Some? {
      if v.value.Str? {
        keys := Split(v.value.s, ',');
      }
      conds.Delete(key);
    } else {
      WithoutAbsent(conds.entries, key);
    }
  }

  /** getSqlWhereState: deletes `search` and `match_list` from the map and
      builds the clause from what is left. */
  method WhereState(conds: CondMap) returns (r: Result<Stmt>)
    modifies conds
    ensures r == WhereSpec(old(conds.entries))
    ensures conds.entries == WhereEntries(old(conds.entries))
  {
    ghost var es := conds.entries;
    if |conds.entries| == 0 {
      return Ok(Stmt([], []));
    }
    var searchKeys := TakeListedKeys(conds, SearchKey);
    var matchListKeys := TakeListedKeys(conds, MatchListKey);
    LookupWithout(es, SearchKey, MatchListKey);
    assert matchListKeys == ListedKeys(es, MatchListKey);
    assert TermFn_(searchKeys, matchListKeys, true) == WhereTermFn(es);
    var c := BuildTerms(conds.entries, searchKeys, matchListKeys, true, 1);
    if c.Err? {
      return Err(c.error);
    }
    r := Ok(Stmt(JoinSql(c.value.parts, " and "), c.value.args));
  }
}
