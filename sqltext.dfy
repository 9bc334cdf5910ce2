// A statement as the core builds it: literal text with numbered `$n`
// placeholders in between, plus the argument list bound to them.
module SqlText {
  import opened Strs
  import opened Values

  datatype Piece = Lit(text: string) | Marker(n: nat)

  type Sql = seq<Piece>

  /** A statement and the arguments for its placeholders, in order. */
  datatype Stmt = Stmt(sql: Sql, args: seq<Value>)

  /** The text sent to the database: a marker n is printed as "$n". */
  function Render(q: Sql): string
  {
    if q == [] then ""
    else (match q[0] case Lit(t) => t case Marker(n) => "$" + Itoa(n)) + Render(q[1..])
  }

  /** The placeholder numbers of a statement, in the order they appear. */
  function Markers(q: Sql): seq<nat>
  {
    if q == [] then [] else (if q[0].Marker? then [q[0].n] else []) + Markers(q[1..])
  }

  /** lo, lo + 1, ..., hi - 1. */
  function Range(lo: nat, hi: nat): (r: seq<nat>)
    ensures |r| == if lo <= hi then hi - lo else 0
    ensures forall i :: 0 <= i < |r| ==> r[i] == lo + i
    decreases hi - lo
  {
    if lo >= hi then [] else [lo] + Range(lo + 1, hi)
  }

  /** A statement whose placeholders are exactly $1, $2, ..., $|args|, in that order. */
  predicate Sequenced(st: Stmt)
  {
    Markers(st.sql) == Range(1, |st.args| + 1)
  }

  /** strings.Join lifted to statements: the separator is literal text. */
  function JoinSql(parts: seq<Sql>, sep: string): Sql
  {
    if |parts| == 0 then []
    else if |parts| == 1 then parts[0]
    else parts[0] + [Lit(sep)] + JoinSql(parts[1..], sep)
  }

  function RenderAll(parts: seq<Sql>): (r: seq<string>)
    ensures |r| == |parts|
    ensures forall i :: 0 <= i < |parts| ==> r[i] == Render(parts[i])
  {
    if parts == [] then [] else [Render(parts[0])] + RenderAll(parts[1..])
  }

  function MarkersAll(parts: seq<Sql>): seq<nat>
  {
    if parts == [] then [] else Markers(parts[0]) + MarkersAll(parts[1..])
  }

  /** The common fragment shape `text $n`. */
  lemma LitMarker(t: string, n: nat)
    ensures Render([Lit(t), Marker(n)]) == t + "$" + Itoa(n)
    ensures Markers([Lit(t), Marker(n)]) == [n]
  {
    assert [Lit(t), Marker(n)][1..] == [Marker(n)];
    assert Render([Marker(n)]) == "$" + Itoa(n) + Render([]);
    assert Markers([Marker(n)]) == [n] + Markers([]);
  }

  /** The fragment shape `text $n text`. */
  lemma LitMarkerLit(t: string, n: nat, u: string)
    ensures Render([Lit(t), Marker(n), Lit(u)]) == t + "$" + Itoa(n) + u
    ensures Markers([Lit(t), Marker(n), Lit(u)]) == [n]
  {
    assert [Lit(t), Marker(n), Lit(u)][1..] == [Marker(n), Lit(u)];
    assert [Marker(n), Lit(u)][1..] == [Lit(u)];
    assert Render([Lit(u)]) == u + Render([]);
    assert Markers([Lit(u)]) == [] + Markers([]);
  }

  lemma {:induction false} RenderAppend(a: Sql, b: Sql)
    ensures Render(a + b) == Render(a) + Render(b)
  {
    if a != [] {
      assert (a + b)[1..] == a[1..] + b;
      RenderAppend(a[1..], b);
    } else {
      assert a + b == b;
    }
  }

  lemma {:induction false} MarkersAppend(a: Sql, b: Sql)
    ensures Markers(a + b) == Markers(a) + Markers(b)
  {
    if a != [] {
      assert (a + b)[1..] == a[1..] + b;
      MarkersAppend(a[1..], b);
    } else {
      assert a + b == b;
    }
  }

  lemma {:induction false} RangeAppend(lo: nat, mid: nat, hi: nat)
    requires lo <= mid <= hi
    ensures Range(lo, mid) + Range(mid, hi) == Range(lo, hi)
  {
    assert |Range(lo, mid) + Range(mid, hi)| == |Range(lo, hi)|;
    forall i | 0 <= i < hi - lo
      ensures (Range(lo, mid) + Range(mid, hi))[i] == Range(lo, hi)[i]
    {
      if i < mid - lo {
      } else {
        assert (Range(lo, mid) + Range(mid, hi))[i] == Range(mid, hi)[i - (mid - lo)];
      }
    }
  }

  /** Joining renders as strings.Join of the rendered parts. */
  lemma {:induction false} RenderJoinSql(parts: seq<Sql>, sep: string)
    ensures Render(JoinSql(parts, sep)) == Join(RenderAll(parts), sep)
  {
    if |parts| > 1 {
      RenderJoinSql(parts[1..], sep);
      RenderAppend(parts[0] + [Lit(sep)], JoinSql(parts[1..], sep));
      RenderAppend(parts[0], [Lit(sep)]);
      assert Render([Lit(sep)]) == sep;
      assert RenderAll(parts)[1..] == RenderAll(parts[1..]);
    }
  }

  /** A literal separator adds no placeholder: the joined markers are the parts' markers in order. */
  lemma {:induction false} MarkersJoinSql(parts: seq<Sql>, sep: string)
    ensures Markers(JoinSql(parts, sep)) == MarkersAll(parts)
  {
    if |parts| == 1 {
      assert MarkersAll(parts) == Markers(parts[0]) + MarkersAll([]);
    } else if |parts| > 1 {
      MarkersJoinSql(parts[1..], sep);
      MarkersAppend(parts[0] + [Lit(sep)], JoinSql(parts[1..], sep));
      MarkersAppend(parts[0], [Lit(sep)]);
      assert Markers([Lit(sep)]) == [];
    }
  }

  lemma {:induction false} MarkersAllAppend(parts: seq<Sql>, p: Sql)
    ensures MarkersAll(parts + [p]) == MarkersAll(parts) + Markers(p)
  {
    if parts == [] {
      assert MarkersAll([p]) == Markers(p) + MarkersAll([]);
    } else {
      assert (parts + [p])[1..] == parts[1..] + [p];
      MarkersAllAppend(parts[1..], p);
    }
  }
}
