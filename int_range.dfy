// resource/schema/resourcefield/validator/intrange.go: the `min=`/`max=`
// validator of integer fields, its builder FromTags and the kinds it applies to.
module IntRange {
  import opened Wrappers
  import opened Strs

  /** util.Kind, the kinds a resource field can have. util is not part of
      this model; the kinds the validator does not name are OtherKind, with
      their printed name. */
  datatype Kind = Int | Uint | IntSlice | UintSlice | StringIntMap | StringUintMap | OtherKind(name: string)

  function KindText(k: Kind): string
  {
    match k
    case Int => "int"
    case Uint => "uint"
    case IntSlice => "intSlice"
    case UintSlice => "uintSlice"
    case StringIntMap => "stringIntMap"
    case StringUintMap => "stringUintMap"
    case OtherKind(name) => name
  }

  newtype uint64 = x: int | 0 <= x < 0x1_0000_0000_0000_0000

  /** A value handed to Validate, as reflect sees it: its Int() or Uint()
      for the integer kinds, only its kind otherwise. */
  datatype FieldValue = IntValue(i: int) | UintValue(u: uint64) | OtherValue(kind: Kind)

  /** Go's int64(u): a uint64 above MaxInt64 wraps around to a negative number. */
  function ToInt64(u: uint64): (i: int)
    ensures MinInt64 <= i <= MaxInt64
    ensures i == u as int || i == u as int - 0x1_0000_0000_0000_0000
  {
    if u as int <= MaxInt64 then u as int else u as int - 0x1_0000_0000_0000_0000
  }

  /** intRangeValidator: an optional lower bound and an optional exclusive upper bound. */
  datatype IntRangeValidator = IntRangeValidator(min: Option<int>, max: Option<int>)
  {
    /** validateValueRange. `None` is Go's nil error. */
    function ValidateValueRange(i: int): (err: Option<string>)
      ensures err.None? <==> (min.None? || i >= min.value) && (max.None? || i < max.value)
      ensures err.Some? && min.Some? && i < min.value ==>
        err.value == "exceed the range limit, (" + Itoa(i) + " should >= " + Itoa(min.value) + ")"
      ensures err.Some? && !(min.Some? && i < min.value) ==>
        err.value == "exceed the range limit, (" + Itoa(i) + " should < " + Itoa(max.value) + ")"
    {
      if min.Some? && i < min.value then
        Some("exceed the range limit, (" + Itoa(i) + " should >= " + Itoa(min.value) + ")")
      else if max.Some? && i >= max.value then
        Some("exceed the range limit, (" + Itoa(i) + " should < " + Itoa(max.value) + ")")
      else None
    }

    /** Validate: signed values are checked as they are, unsigned ones after
        Go's int64 conversion; any other kind is an error. */
    function Validate(val: FieldValue): (err: Option<string>)
      ensures val.IntValue? ==> err == ValidateValueRange(val.i)
      ensures val.UintValue? ==> err == ValidateValueRange(ToInt64(val.u))
      ensures val.OtherValue? ==> err == Some("int range apply to non-int type:" + KindText(val.kind))
    {
      match val
      case IntValue(i) => ValidateValueRange(i)
      case UintValue(u) => ValidateValueRange(ToInt64(u))
      case OtherValue(kind) => Some("int range apply to non-int type:" + KindText(kind))
    }
  }

  /** An unsigned value above MaxInt64 is checked as a negative number, so a
      validator with a lower bound of zero or more rejects it. */
  lemma LargeUintWraps(v: IntRangeValidator, u: uint64)
    requires u as int > MaxInt64
    ensures ToInt64(u) < 0
    ensures v.min.Some? && v.min.value >= 0 ==> v.Validate(UintValue(u)).Some?
  {
  }

  const MinPrefix: string := "min="
  const MaxPrefix: string := "max="

  predicate HasPrefix(s: string, p: string)
  {
    |p| <= |s| && s[..|p|] == p
  }

  /** The loop over the tags: the text after the last `min=` and `max=`
      seen, or the duplicate-tag error once a second one follows a
      non-empty first one. Tags with neither prefix are skipped. */
  function ScanTags(tags: seq<string>): (r: Result<(string, string)>)
    decreases |tags|
  {
    if tags == [] then Ok(("", ""))
    else
      var pre := ScanTags(tags[..|tags| - 1]);
      if pre.Err? then pre
      else
        var (minStr, maxStr) := pre.value;
        var tag := tags[|tags| - 1];
        if HasPrefix(tag, MinPrefix) then
          if minStr != "" then Err("int range has duplicate min tag") else Ok((tag[|MinPrefix|..], maxStr))
        else if HasPrefix(tag, MaxPrefix) then
          if maxStr != "" then Err("int range has duplicate max tag") else Ok((minStr, tag[|MaxPrefix|..]))
        else pre
  }

  /** Once the scan has failed, later tags change nothing. */
  lemma {:induction false} ScanErrStops(tags: seq<string>, k: nat)
    requires k <= |tags| && ScanTags(tags[..k]).Err?
    ensures ScanTags(tags) == ScanTags(tags[..k])
    decreases |tags| - k
  {
    if k < |tags| {
      var init := tags[..|tags| - 1];
      assert init[..k] == tags[..k];
      ScanErrStops(init, k);
    } else {
      assert tags[..k] == tags;
    }
  }

  /** Tags with neither prefix leave the scan where it was. */
  lemma {:induction false} OtherTagsIgnored(tags: seq<string>, other: string)
    requires !HasPrefix(other, MinPrefix) && !HasPrefix(other, MaxPrefix)
    ensures ScanTags(tags + [other]) == ScanTags(tags)
  {
    assert (tags + [other])[..|tags|] == tags;
  }

  /** A second non-empty `min=` is an error, wherever it comes. */
  lemma {:induction false} DuplicateMin(tags: seq<string>, m: string, middle: seq<string>, m2: string)
    requires ScanTags(tags).Ok? && m != ""
    requires forall j :: 0 <= j < |middle| ==> !HasPrefix(middle[j], MinPrefix)
    ensures ScanTags(tags + [MinPrefix + m] + middle + [MinPrefix + m2]).Err?
  {
    var first := tags + [MinPrefix + m];
    assert first[..|tags|] == tags;
    assert (MinPrefix + m)[..|MinPrefix|] == MinPrefix && (MinPrefix + m)[|MinPrefix|..] == m;
    var all := first + middle + [MinPrefix + m2];
    if ScanTags(first).Err? {
      assert all[..|first|] == first;
      ScanErrStops(all, |first|);
    } else {
      assert ScanTags(first).value.0 == m;
      MinKept(first, middle);
      assert all[..|all| - 1] == first + middle;
      assert (MinPrefix + m2)[..|MinPrefix|] == MinPrefix;
    }
  }

  /** Tags without the `min=` prefix keep the min text already scanned. */
  lemma {:induction false} MinKept(tags: seq<string>, middle: seq<string>)
    requires ScanTags(tags).Ok?
    requires forall j :: 0 <= j < |middle| ==> !HasPrefix(middle[j], MinPrefix)
    ensures ScanTags(tags + middle).Err? || ScanTags(tags + middle).value.0 == ScanTags(tags).value.0
    decreases |middle|
  {
    if middle != [] {
      var init := middle[..|middle| - 1];
      MinKept(tags, init);
      var all := tags + middle;
      assert all[..|all| - 1] == tags + init;
    } else {
      assert tags + middle == tags;
    }
  }

  /** strconv's error for a text ParseInt refuses: a syntax error unless it
      is a well-formed number out of the int64 range. */
  function ParseIntErrorText(s: string): string
  {
    var signed := s != "" && (s[0] == '+' || s[0] == '-');
    var digits := if signed then s[1..] else s;
    var reason := if s != "" && digits != "" && AllDigits(digits) then "value out of range" else "invalid syntax";
    "strconv.ParseInt: parsing \"" + s + "\": " + reason
  }

  /** FromTags. `Ok(None)` is Go's nil validator with a nil error. */
  function FromTagsSpec(tags: seq<string>): (r: Result<Option<IntRangeValidator>>)
  {
    match ScanTags(tags)
    case Err(e) => Err(e)
    case Ok((minStr, maxStr)) =>
      if minStr == "" && maxStr == "" then Ok(None)
      else
        var min := if minStr != "" then ParseInt10(minStr) else None;
        var max := if maxStr != "" then ParseInt10(maxStr) else None;
        if minStr != "" && min.None? then Err("min value isn't valid int:" + ParseIntErrorText(minStr))
        else if maxStr != "" && max.None? then Err("max value isn't valid int:" + ParseIntErrorText(maxStr))
        else if min.Some? && max.Some? && min.value >= max.value then Err("min value should smaller than max")
        else Ok(Some(IntRangeValidator(min, max)))
  }

  method FromTags(tags: seq<string>) returns (r: Result<Option<IntRangeValidator>>)
    ensures r == FromTagsSpec(tags)
  {
    var minStr, maxStr := "", "";
    for i := 0 to |tags|
      invariant ScanTags(tags[..i]) == Ok((minStr, maxStr))
    {
      var tag := tags[i];
      assert tags[..i + 1][..i] == tags[..i];
      if HasPrefix(tag, MinPrefix) {
        if minStr != "" {
          ScanErrStops(tags, i + 1);
          return Err("int range has duplicate min tag");
        }
        minStr := tag[|MinPrefix|..];
      } else if HasPrefix(tag, MaxPrefix) {
        if maxStr != "" {
          ScanErrStops(tags, i + 1);
          return Err("int range has duplicate max tag");
        }
        maxStr := tag[|MaxPrefix|..];
      }
    }
    assert tags[..|tags|] == tags;
    if minStr == "" && maxStr == "" {
      return Ok(None);
    }
    var min, max: Option<int> := None, None;
    if minStr != "" {
      min := ParseInt10(minStr);
      if min.None? {
        return Err("min value isn't valid int:" + ParseIntErrorText(minStr));
      }
    }
    if maxStr != "" {
      max := ParseInt10(maxStr);
      if max.None? {
        return Err("max value isn't valid int:" + ParseIntErrorText(maxStr));
      }
    }
    if min.Some? && max.Some? && min.value >= max.value {
      return Err("min value should smaller than max");
    }
    r := Ok(Some(IntRangeValidator(min, max)));
  }

  /** The outcomes of FromTags: no bounds, no validator; a bound that is
      not an int64 or an empty range, an error; otherwise a validator with
      exactly the parsed bounds. */
  lemma FromTagsOutcomes(tags: seq<string>)
    requires ScanTags(tags).Ok?
    ensures var (minStr, maxStr) := ScanTags(tags).value;
      var r := FromTagsSpec(tags);
      (r == Ok(None) <==> minStr == "" && maxStr == "") &&
      (r.Ok? && r.value.Some? <==>
        (minStr != "" || maxStr != "") &&
        (minStr != "" ==> ParseInt10(minStr).Some?) && (maxStr != "" ==> ParseInt10(maxStr).Some?) &&
        !(minStr != "" && maxStr != "" && ParseInt10(minStr).value >= ParseInt10(maxStr).value)) &&
      (r.Ok? && r.value.Some? ==>
        r.value.value.min == (if minStr == "" then None else ParseInt10(minStr)) &&
        r.value.value.max == (if maxStr == "" then None else ParseInt10(maxStr)))
  {
  }

  /** Tags written from two int64 bounds a < b give back a validator that
      accepts exactly a <= i < b. */
  lemma {:induction false} BoundsRoundTrip(a: int, b: int, i: int)
    requires MinInt64 <= a < b <= MaxInt64
    ensures FromTagsSpec([MinPrefix + Itoa(a), MaxPrefix + Itoa(b)]) == Ok(Some(IntRangeValidator(Some(a), Some(b))))
    ensures IntRangeValidator(Some(a), Some(b)).ValidateValueRange(i).None? <==> a <= i < b
  {
    var t1, t2 := MinPrefix + Itoa(a), MaxPrefix + Itoa(b);
    var tags: seq<string> := [t1, t2];
    var one: seq<string> := [t1];
    assert tags[..1] == one && one[..0] == [];
    assert t1[..|MinPrefix|] == MinPrefix && t1[|MinPrefix|..] == Itoa(a);
    assert t2[..|MaxPrefix|] == MaxPrefix && t2[|MaxPrefix|..] == Itoa(b);
    assert !HasPrefix(t2, MinPrefix) by { assert t2[0] == 'm' && t2[1] == 'a'; }
    assert ScanTags(one) == Ok((Itoa(a), ""));
    assert ScanTags(tags) == Ok((Itoa(a), Itoa(b)));
    ParseItoa(a);
    ParseItoa(b);
  }

  /** SupportKind: the integer kinds and the slices and string-keyed maps of them. */
  function SupportKind(kind: Kind): (ok: bool)
    ensures ok <==> kind in {Int, Uint, IntSlice, UintSlice, StringIntMap, StringUintMap}
    ensures ok ==> !kind.OtherKind?
  {
    kind == Int || kind == Uint || kind == IntSlice || kind == UintSlice || kind == StringIntMap || kind == StringUintMap
  }

  /** Validate rejects every value that is not one of the two scalar kinds,
      and every other kind SupportKind admits is a slice or a map. */
  lemma ValidateScalarsOnly(v: IntRangeValidator, kind: Kind)
    ensures v.Validate(OtherValue(kind)).Some?
    ensures SupportKind(kind) && kind != Int && kind != Uint ==> kind in {IntSlice, UintSlice, StringIntMap, StringUintMap}
  {
  }
}
