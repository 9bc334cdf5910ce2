// db/fill_value.go: a condition value that carries its own comparison
// operator, and the WHERE fragment it renders to.
module FillValues {
  import opened Wrappers
  import opened Strs
  import opened Values
  import opened SqlText

  const OperatorEq := "="
  const OperatorNe := "!="
  const OperatorLt := "<"
  const OperatorLte := "<="
  const OperatorGt := ">"
  const OperatorGte := ">="
  const OperatorLike := "%like%"
  const OperatorLikeSuffix := "like%"
  const OperatorLikePrefix := "%like"
  const OperatorAny := "any"
  const OperatorOverlap := "&&"
  const OperatorSubnetContain := ">>"
  const OperatorSubnetContainEq := ">>="
  const OperatorSubnetContainBy := "<<"
  const OperatorSubnetContainEqBy := "<<="

  /** The operators that are printed as themselves, between the column and the placeholder. */
  const VerbatimOperators: set<string> :=
    {OperatorNe, OperatorLt, OperatorLte, OperatorGt, OperatorGte,
     OperatorSubnetContain, OperatorSubnetContainEq, OperatorSubnetContainBy, OperatorSubnetContainEqBy}

  const KnownOperators: set<string> :=
    VerbatimOperators + {OperatorLike, OperatorLikeSuffix, OperatorLikePrefix, OperatorAny, OperatorOverlap}

  /** What buildSql returns besides the error: the fragment and its one argument. */
  datatype Fragment = Fragment(sql: Sql, arg: Value)

  /** reflect.TypeOf(v).Kind() == reflect.Slice: a Go slice, or a net.IP, which is a []byte. */
  predicate IsSlice(v: Value) { (v.List? && v.container == GoSlice) || v.NetIP? }

  /** FillValue.buildSql: the fragment for condition `key` with placeholder `markerSeq`. */
  function BuildSql(op: string, value: Value, key: string, markerSeq: nat): (r: Result<Fragment>)
    // the only failures: a non-string for the two anchored matches, a non-slice for any/&&
    ensures r.Err? <==>
      ((op == OperatorLikeSuffix || op == OperatorLikePrefix) && !value.Str?) ||
      ((op == OperatorAny || op == OperatorOverlap) && !IsSlice(value))
    // the argument is the value itself, except that the anchored matches anchor their pattern
    ensures r.Ok? && op == OperatorLikeSuffix ==> r.value.arg == Str("^" + value.s)
    ensures r.Ok? && op == OperatorLikePrefix ==> r.value.arg == Str(value.s + "$")
    ensures r.Ok? && op != OperatorLikeSuffix && op != OperatorLikePrefix ==> r.value.arg == value
  {
    var col := ToSnake(key);
    var m := Marker(markerSeq);
    if op == OperatorNe then Ok(Fragment([Lit(col + " != "), m], value))
    else if op == OperatorLt then Ok(Fragment([Lit(col + " < "), m], value))
    else if op == OperatorLte then Ok(Fragment([Lit(col + " <= "), m], value))
    else if op == OperatorGt then Ok(Fragment([Lit(col + " > "), m], value))
    else if op == OperatorGte then Ok(Fragment([Lit(col + " >= "), m], value))
    else if op == OperatorLike then Ok(Fragment([Lit(col + " ~ "), m], value))
    else if op == OperatorLikeSuffix then
      if value.Str? then Ok(Fragment([Lit(col + " ~ "), m], Str("^" + value.s)))
      else Err("match condition isn't string")
    else if op == OperatorLikePrefix then
      if value.Str? then Ok(Fragment([Lit(col + " ~ "), m], Str(value.s + "$")))
      else Err("match condition isn't string")
    else if op == OperatorAny then
      if !IsSlice(value) then Err("any value should be slice")
      else Ok(Fragment([Lit(col + " = ANY("), m, Lit(")")], value))
    else if op == OperatorOverlap then
      if !IsSlice(value) then Err("any value should be slice")
      else Ok(Fragment([Lit(col + " && "), m], value))
    else if op == OperatorSubnetContain then Ok(Fragment([Lit(col + " >> "), m], value))
    else if op == OperatorSubnetContainEq then Ok(Fragment([Lit(col + " >>= "), m], value))
    else if op == OperatorSubnetContainBy then Ok(Fragment([Lit(col + " << "), m], value))
    else if op == OperatorSubnetContainEqBy then Ok(Fragment([Lit(col + " <<= "), m], value))
    else Ok(Fragment([Lit(col + " = "), m], value))
  }

  /** Every fragment holds exactly one placeholder, the one it was given. */
  lemma BuildSqlMarker(op: string, value: Value, key: string, n: nat)
    requires BuildSql(op, value, key, n).Ok?
    ensures Markers(BuildSql(op, value, key, n).value.sql) == [n]
  {
    var col := ToSnake(key);
    if op == OperatorAny {
      LitMarkerLit(col + " = ANY(", n, ")");
    } else if op == OperatorOverlap {
      LitMarker(col + " && ", n);
    } else if op == OperatorLike || op == OperatorLikeSuffix || op == OperatorLikePrefix {
      LitMarker(col + " ~ ", n);
    } else if op in VerbatimOperators {
      VerbatimText(op, value, key, n);
      LitMarker(col + " " + op + " ", n);
    } else {
      LitMarker(col + " = ", n);
    }
  }

  /** A verbatim operator is printed as itself between spaces; the value is the argument. */
  lemma VerbatimText(op: string, value: Value, key: string, n: nat)
    requires op in VerbatimOperators
    ensures BuildSql(op, value, key, n) == Ok(Fragment([Lit(ToSnake(key) + " " + op + " "), Marker(n)], value))
    ensures Render(BuildSql(op, value, key, n).value.sql) == ToSnake(key) + " " + op + " $" + Itoa(n)
  {
    var col := ToSnake(key);
    assert col + " " + op + " " == col + (" " + op + " ");
    if op == OperatorNe { assert " " + op + " " == " != "; }
    else if op == OperatorLt { assert " " + op + " " == " < "; }
    else if op == OperatorLte { assert " " + op + " " == " <= "; }
    else if op == OperatorGt { assert " " + op + " " == " > "; }
    else if op == OperatorGte { assert " " + op + " " == " >= "; }
    else if op == OperatorSubnetContain { assert " " + op + " " == " >> "; }
    else if op == OperatorSubnetContainEq { assert " " + op + " " == " >>= "; }
    else if op == OperatorSubnetContainBy { assert " " + op + " " == " << "; }
    else { assert " " + op + " " == " <<= "; }
    LitMarker(col + " " + op + " ", n);
    assert col + " " + op + " " + "$" + Itoa(n) == col + " " + op + " $" + Itoa(n);
  }

  /** The three pattern operators render as the regular-expression match `~`. */
  lemma MatchText(op: string, value: Value, key: string, n: nat)
    requires op in {OperatorLike, OperatorLikeSuffix, OperatorLikePrefix}
    requires BuildSql(op, value, key, n).Ok?
    ensures Render(BuildSql(op, value, key, n).value.sql) == ToSnake(key) + " ~ $" + Itoa(n)
  {
    LitMarker(ToSnake(key) + " ~ ", n);
  }

  /** any renders as `= ANY($n)`, && as itself; both only for a slice. */
  lemma SliceOperatorText(op: string, value: Value, key: string, n: nat)
    requires IsSlice(value)
    ensures op == OperatorAny ==>
      Render(BuildSql(op, value, key, n).value.sql) == ToSnake(key) + " = ANY($" + Itoa(n) + ")"
    ensures op == OperatorOverlap ==>
      Render(BuildSql(op, value, key, n).value.sql) == ToSnake(key) + " && $" + Itoa(n)
  {
    LitMarkerLit(ToSnake(key) + " = ANY(", n, ")");
    LitMarker(ToSnake(key) + " && ", n);
  }

  /** A net.IP passes the slice test of any and &&, and is itself the argument. */
  lemma NetIPIsSliceOperand(op: string, ip: string, key: string, n: nat)
    requires op == OperatorAny || op == OperatorOverlap
    ensures BuildSql(op, NetIP(ip), key, n).Ok?
    ensures BuildSql(op, NetIP(ip), key, n).value.arg == NetIP(ip)
    ensures op == OperatorAny ==>
      Render(BuildSql(op, NetIP(ip), key, n).value.sql) == ToSnake(key) + " = ANY($" + Itoa(n) + ")"
  {
    SliceOperatorText(op, NetIP(ip), key, n);
  }

  /** Every other operator, the empty one and `=` included, is plain equality. */
  lemma DefaultText(op: string, value: Value, key: string, n: nat)
    requires op !in KnownOperators
    ensures BuildSql(op, value, key, n) == Ok(Fragment([Lit(ToSnake(key) + " = "), Marker(n)], value))
    ensures Render(BuildSql(op, value, key, n).value.sql) == ToSnake(key) + " = $" + Itoa(n)
  {
    LitMarker(ToSnake(key) + " = ", n);
  }
}
