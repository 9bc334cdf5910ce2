// db/gauss_array.go: the array values sent to and read from openGauss.
// PQArray picks the driver.Valuer for a slice; the five arrays of this file
// print `{a,b,c}` and post-process what pq's array parser returns.
module GaussArray {
  import opened Wrappers
  import opened Strs
  import Values

  // ------------------------------------------------------------ PQArray

  /** The element type an encoder is for; GenericArray is for none in particular. */
  function EncodedElem(e: Values.Encoder): (t: Option<Values.ElemType>)
    ensures t.None? <==> e == Values.GenericArray
  {
    match e
    case BoolArray => Some(Values.EBool)
    case Float64Array => Some(Values.EFloat64)
    case Float32Array => Some(Values.EFloat32)
    case Int64Array => Some(Values.EInt64)
    case Int32Array => Some(Values.EInt32)
    case StringArray => Some(Values.EString)
    case ByteaArray => Some(Values.EBytes)
    case IntArray => Some(Values.EInt)
    case Uint32Array => Some(Values.EUint32)
    case Uint64Array => Some(Values.EUint64)
    case IPArray => Some(Values.ENetIP)
    case IPNetArray => Some(Values.ENetIPNet)
    case GenericArray => None
  }

  /** Different encoders are for different element types. */
  lemma EncodedElemInjective(a: Values.Encoder, b: Values.Encoder)
    requires EncodedElem(a) == EncodedElem(b) && EncodedElem(a).Some?
    ensures a == b
  {
  }

  /** PQArray: a slice of one of the twelve supported element types gets the
      encoder for that type; an array, a slice of anything else and any
      other value get GenericArray. `viaPointer` says the argument was a
      pointer to the value (`*[]int` rather than `[]int`). */
  function PQArray(v: Values.Value, viaPointer: bool): (r: Values.Value)
    ensures r.Encoded? && r.inner == v
    ensures r.encoder != Values.GenericArray <==> v.List? && v.container == Values.GoSlice && !v.elem.EOther?
    ensures r.encoder != Values.GenericArray ==> EncodedElem(r.encoder) == Some(v.elem)
  {
    var e :=
      if !v.List? || v.container != Values.GoSlice then Values.GenericArray
      else match v.elem
        case EBool => Values.BoolArray
        case EFloat64 => Values.Float64Array
        case EFloat32 => Values.Float32Array
        case EInt64 => Values.Int64Array
        case EInt32 => Values.Int32Array
        case EString => Values.StringArray
        case EBytes => Values.ByteaArray
        case EInt => Values.IntArray
        case EUint32 => Values.Uint32Array
        case EUint64 => Values.Uint64Array
        case ENetIP => Values.IPArray
        case ENetIPNet => Values.IPNetArray
        case EOther(_) => Values.GenericArray;
    Values.Encoded(e, v)
  }

  /** A slice and a pointer to it get the same encoder. */
  lemma PointerSameEncoder(v: Values.Value)
    ensures PQArray(v, true) == PQArray(v, false)
  {
    var p, q := PQArray(v, true), PQArray(v, false);
    if p.encoder != Values.GenericArray {
      EncodedElemInjective(p.encoder, q.encoder);
    }
  }

  // ------------------------------------------------------------ Value

  /** Each element's text, in order. */
  function Texts<T>(a: seq<T>, text: T -> string): (r: seq<string>)
    ensures |r| == |a|
    ensures forall i :: 0 <= i < |a| ==> r[i] == text(a[i])
  {
    if a == [] then [] else Texts(a[..|a| - 1], text) + [text(a[|a| - 1])]
  }

  /** The array literal of the element texts. */
  function ArrayText(elems: seq<string>): string
  {
    if elems == [] then "{}" else "{" + Join(elems, ",") + "}"
  }

  /** The element texts of an array literal, or None when `t` is not one. */
  function ArrayElems(t: string): Option<seq<string>>
  {
    if |t| < 2 || t[0] != '{' || t[|t| - 1] != '}' then None
    else if |t| == 2 then Some([])
    else Some(Split(t[1..|t| - 1], ','))
  }

  lemma {:induction false} JoinNonEmpty(parts: seq<string>, sep: string)
    requires parts != [] && parts[0] != ""
    ensures Join(parts, sep) != ""
  {
    if |parts| > 1 {
      assert Join(parts, sep) == parts[0] + sep + Join(parts[1..], sep);
    }
  }

  /** An array literal of non-empty, comma-free texts gives those texts back. */
  lemma ArrayElemsText(elems: seq<string>)
    requires forall i :: 0 <= i < |elems| ==> elems[i] != "" && ',' !in elems[i]
    ensures ArrayElems(ArrayText(elems)) == Some(elems)
  {
    if elems != [] {
      var j := Join(elems, ",");
      JoinNonEmpty(elems, ",");
      var t := "{" + j + "}";
      assert t[1..|t| - 1] == j;
      SplitJoin(elems, ',');
    }
  }

  function Quoted(s: string): string
  {
    "\"" + s + "\""
  }

  /** IntArray.Value's element text. */
  function IntText(v: int): string { Itoa(v) }

  /** FormatUint(v, 10), the element text of Uint64Array and Uint32Array. */
  function UintText(v: nat): string { NatText(v) }

  /** The text of IntArray.Value. */
  function IntArrayText(a: seq<int>): string { ArrayText(Texts(a, IntText)) }

  /** The text of Uint64Array.Value and Uint32Array.Value. */
  function UintArrayText(a: seq<nat>): string { ArrayText(Texts(a, UintText)) }

  /** The text of IPArray.Value and IPNetArray.Value, given each element's String(). */
  function QuotedArrayText(a: seq<string>): string { ArrayText(Texts(a, Quoted)) }

  /** The shared loop of the Value methods: each element's text into strArr, joined. */
  method ArrayValue<T>(a: seq<T>, text: T -> string) returns (v: string)
    ensures v == ArrayText(Texts(a, text))
  {
    if |a| == 0 {
      return "{}";
    }
    var strArr := new string[|a|];
    for i := 0 to |a|
      invariant forall j :: 0 <= j < i ==> strArr[j] == text(a[j])
    {
      strArr[i] := text(a[i]);
    }
    assert strArr[..] == Texts(a, text);
    v := "{" + Join(strArr[..], ",") + "}";
  }

  lemma ItoaNoComma(n: int)
    ensures Itoa(n) != "" && ',' !in Itoa(n)
  {
    if n < 0 {
      var s := Itoa(n);
      assert s == "-" + NatText(-n);
      forall i | 0 <= i < |s| ensures s[i] != ',' {
        if i > 0 { assert s[i] == NatText(-n)[i - 1]; }
      }
    }
  }

  /** An unsigned element prints as the same digits whichever Value printed it. */
  lemma UintTextIsIntText(a: seq<nat>)
    ensures UintArrayText(a) == IntArrayText(a)
  {
    var ai: seq<int> := a;
    var u, t := Texts(a, UintText), Texts(ai, IntText);
    assert forall i :: 0 <= i < |a| ==> u[i] == t[i];
    assert u == t;
    assert IntArrayText(ai) == ArrayText(t);
  }

  /** Empty arrays print as `{}`, and [1,2,3] as `{1,2,3}`. */
  lemma ValueExamples()
    ensures IntArrayText([]) == "{}" && UintArrayText([]) == "{}" && QuotedArrayText([]) == "{}"
    ensures IntArrayText([1, 2, 3]) == "{1,2,3}"
  {
    var t := Texts([1, 2, 3], IntText);
    assert t == ["1", "2", "3"];
    assert Join(t, ",") == "1" + "," + Join(["2", "3"], ",");
  }

  // ------------------------------------------------------------ reading the text back

  /** A decimal element, as pq.Int64Array reads it. */
  function IntElem(s: string): Result<int>
  {
    match ParseInt10(s)
    case Some(v) => Ok(v)
    case None => Err("parsing array element: " + s)
  }

  /** A quoted element loses its quotes. */
  function Unquote(s: string): string
  {
    if |s| >= 2 && s[0] == '"' && s[|s| - 1] == '"' then s[1..|s| - 1] else s
  }

  /** A reading of an integer array literal, standing in for pq.Int64Array's parser. */
  function ParseIntArray(t: string): Result<seq<int>>
  {
    match ArrayElems(t)
    case None => Err("unable to parse array")
    case Some(es) => Convert(es, IntElem)
  }

  const MinInt32: int := -0x8000_0000
  const MaxInt32: int := 0x7FFF_FFFF

  /** A decimal element, as pq.Int32Array reads it: it must fit a signed 32-bit integer. */
  function Int32Elem(s: string): (r: Result<int>)
    ensures r.Ok? <==> ParseInt10(s).Some? && MinInt32 <= ParseInt10(s).value <= MaxInt32
    ensures r.Ok? ==> r.value == ParseInt10(s).value
  {
    match ParseInt10(s)
    case Some(v) => if MinInt32 <= v <= MaxInt32 then Ok(v) else Err("parsing array element: " + s)
    case None => Err("parsing array element: " + s)
  }

  /** A reading of an integer array literal, standing in for pq.Int32Array's parser. */
  function ParseInt32Array(t: string): Result<seq<int>>
  {
    match ArrayElems(t)
    case None => Err("unable to parse array")
    case Some(es) => Convert(es, Int32Elem)
  }

  /** A reading of a string array literal, standing in for pq.StringArray's parser. */
  function ParseStringArray(t: string): Result<seq<string>>
  {
    match ArrayElems(t)
    case None => Err("unable to parse array")
    case Some(es) => Ok(Texts(es, Unquote))
  }

  /** What IntArray.Value prints reads back as the same numbers, for every 64-bit value. */
  lemma IntArrayRoundTrip(a: seq<int>)
    requires forall i :: 0 <= i < |a| ==> MinInt64 <= a[i] <= MaxInt64
    ensures ParseIntArray(IntArrayText(a)) == Ok(a)
  {
    var t := Texts(a, IntText);
    forall i | 0 <= i < |t| ensures t[i] != "" && ',' !in t[i] && IntElem(t[i]) == Ok(a[i]) {
      ItoaNoComma(a[i]);
      ParseItoa(a[i]);
    }
    ArrayElemsText(t);
    var r := Convert(t, IntElem);
    assert r.value == a;
  }

  /** What IPArray.Value and IPNetArray.Value print reads back as the same
      element texts, when no text holds a comma or a quote. */
  lemma QuotedArrayRoundTrip(a: seq<string>)
    requires forall i :: 0 <= i < |a| ==> ',' !in a[i] && '"' !in a[i]
    ensures ParseStringArray(QuotedArrayText(a)) == Ok(a)
  {
    var t := Texts(a, Quoted);
    forall i | 0 <= i < |t| ensures t[i] != "" && ',' !in t[i] && Unquote(t[i]) == a[i] {
      assert t[i] == "\"" + a[i] + "\"";
      assert t[i][1..|t[i]| - 1] == a[i];
    }
    ArrayElemsText(t);
    assert Texts(t, Unquote) == a;
  }

  // ------------------------------------------------------------ Scan

  /** What Scan is given: SQL NULL, or the outcome of pq's parser on the text. */
  datatype Src<T> = SrcNil | SrcParsed(parsed: Result<seq<T>>)

  /** Convert each element in order; the first element that fails is the error. */
  function Convert<S, T>(xs: seq<S>, f: S -> Result<T>): (r: Result<seq<T>>)
    ensures r.Ok? <==> forall i :: 0 <= i < |xs| ==> f(xs[i]).Ok?
    ensures r.Ok? ==> |r.value| == |xs| && forall i :: 0 <= i < |xs| ==> r.value[i] == f(xs[i]).value
    ensures r.Err? ==>
      exists i :: 0 <= i < |xs| && f(xs[i]).Err? && r.error == f(xs[i]).error && forall j :: 0 <= j < i ==> f(xs[j]).Ok?
    decreases |xs|
  {
    if xs == [] then Ok([])
    else
      var init := Convert(xs[..|xs| - 1], f);
      var last := f(xs[|xs| - 1]);
      if init.Err? then
        assert forall j :: 0 <= j < |xs| - 1 ==> xs[..|xs| - 1][j] == xs[j];
        Err(init.error)
      else if last.Err? then Err(last.error)
      else Ok(init.value + [last.value])
  }

  /** The error is that of the first element that fails. */
  lemma ConvertFirstError<S, T>(xs: seq<S>, f: S -> Result<T>, i: nat)
    requires i < |xs| && f(xs[i]).Err?
    requires forall j :: 0 <= j < i ==> f(xs[j]).Ok?
    ensures Convert(xs, f) == Err(f(xs[i]).error)
  {
    var r := Convert(xs, f);
    var k :| 0 <= k < |xs| && f(xs[k]).Err? && r.error == f(xs[k]).error && forall j :: 0 <= j < k ==> f(xs[j]).Ok?;
    assert k == i;
  }

  /** Scan: NULL sets nil; a parse error is returned; otherwise the
      converted elements, unless one fails to convert. */
  function ScanSpec<S, T>(src: Src<S>, f: S -> Result<T>): (r: Result<Option<seq<T>>>)
    ensures src.SrcNil? ==> r == Ok(None)
    ensures r.Ok? && r.value.Some? ==> src.SrcParsed? && src.parsed.Ok? && |r.value.value| == |src.parsed.value|
  {
    match src
    case SrcNil => Ok(None)
    case SrcParsed(Err(e)) => Err(e)
    case SrcParsed(Ok(xs)) =>
      match Convert(xs, f)
      case Ok(ys) => Ok(Some(ys))
      case Err(e) => Err(e)
  }

  /** IntArray.Scan: int(v). */
  function ToInt(v: int): Result<int> { Ok(v) }

  /** Uint64Array.Scan and Uint32Array.Scan: negative elements are refused. */
  function ToUnsigned(v: int): Result<nat>
  {
    if v < 0 then Err("invalid value: expected unsigned integer but got negative " + Itoa(v)) else Ok(v as nat)
  }

  /** IPArray.Scan; `parseIP` is net.ParseIP, giving the parsed IP's String(). */
  function ToIP(parseIP: string -> Option<string>): string -> Result<string>
  {
    s => if parseIP(s).None? then Err("invalid IP format: " + s) else Ok(parseIP(s).value)
  }

  /** IPNetArray.Scan; `parseCIDR` is net.ParseCIDR, giving the network's String(). */
  function ToIPNet(parseCIDR: string -> Option<string>): string -> Result<string>
  {
    s => if parseCIDR(s).None? then Err("invalid CIDR format: " + s) else Ok(parseCIDR(s).value)
  }

  /** The shared loop of the Scan methods. */
  method ScanInto<S, T>(src: Src<S>, f: S -> Result<T>) returns (r: Result<Option<seq<T>>>)
    ensures r == ScanSpec(src, f)
  {
    if src.SrcNil? {
      return Ok(None);
    }
    if src.parsed.Err? {
      return Err(src.parsed.error);
    }
    var xs := src.parsed.value;
    var out: seq<T> := [];
    for i := 0 to |xs|
      invariant |out| == i
      invariant forall j :: 0 <= j < i ==> f(xs[j]).Ok? && out[j] == f(xs[j]).value
    {
      var y := f(xs[i]);
      if y.Err? {
        ConvertFirstError(xs, f, i);
        return Err(y.error);
      }
      out := out + [y.value];
    }
    assert Convert(xs, f).value == out;
    r := Ok(Some(out));
  }

  /** A slice-typed array that Scan overwrites in place; None is a nil slice. */
  class IntArray {
    var a: Option<seq<int>>

    constructor (a: Option<seq<int>>)
      ensures this.a == a
    {
      this.a := a;
    }

    method Value() returns (v: string)
      ensures v == IntArrayText(if a.None? then [] else a.value)
    {
      v := ArrayValue(if a.None? then [] else a.value, IntText);
    }

    method Scan(src: Src<int>) returns (err: Option<string>)
      modifies this
      ensures var s := ScanSpec(src, ToInt);
        (s.Ok? ==> err.None? && a == s.value) && (s.Err? ==> err == Some(s.error) && a == old(a))
    {
      var r := ScanInto(src, ToInt);
      if r.Err? {
        return Some(r.error);
      }
      a := r.value;
      err := None;
    }
  }

  class Uint64Array {
    var a: Option<seq<nat>>

    constructor (a: Option<seq<nat>>)
      ensures this.a == a
    {
      this.a := a;
    }

    method Value() returns (v: string)
      ensures v == UintArrayText(if a.None? then [] else a.value)
    {
      v := ArrayValue(if a.None? then [] else a.value, UintText);
    }

    /** `src` is what pq.Int64Array parsed. */
    method Scan(src: Src<int>) returns (err: Option<string>)
      modifies this
      ensures var s := ScanSpec(src, ToUnsigned);
        (s.Ok? ==> err.None? && a == s.value) && (s.Err? ==> err == Some(s.error) && a == old(a))
    {
      var r := ScanInto(src, ToUnsigned);
      if r.Err? {
        return Some(r.error);
      }
      a := r.value;
      err := None;
    }
  }

  class Uint32Array {
    var a: Option<seq<nat>>

    constructor (a: Option<seq<nat>>)
      ensures this.a == a
    {
      this.a := a;
    }

    method Value() returns (v: string)
      ensures v == UintArrayText(if a.None? then [] else a.value)
    {
      v := ArrayValue(if a.None? then [] else a.value, UintText);
    }

    /** `src` is what pq.Int32Array parsed. */
    method Scan(src: Src<int>) returns (err: Option<string>)
      modifies this
      ensures var s := ScanSpec(src, ToUnsigned);
        (s.Ok? ==> err.None? && a == s.value) && (s.Err? ==> err == Some(s.error) && a == old(a))
    {
      var r := ScanInto(src, ToUnsigned);
      if r.Err? {
        return Some(r.error);
      }
      a := r.value;
      err := None;
    }
  }

  /** The elements are kept as their String() texts. */
  class IPArray {
    var a: Option<seq<string>>

    constructor (a: Option<seq<string>>)
      ensures this.a == a
    {
      this.a := a;
    }

    method Value() returns (v: string)
      ensures v == QuotedArrayText(if a.None? then [] else a.value)
    {
      v := ArrayValue(if a.None? then [] else a.value, Quoted);
    }

    /** `src` is what pq.StringArray parsed. */
    method Scan(src: Src<string>, parseIP: string -> Option<string>) returns (err: Option<string>)
      modifies this
      ensures var s := ScanSpec(src, ToIP(parseIP));
        (s.Ok? ==> err.None? && a == s.value) && (s.Err? ==> err == Some(s.error) && a == old(a))
    {
      var r := ScanInto(src, ToIP(parseIP));
      if r.Err? {
        return Some(r.error);
      }
      a := r.value;
      err := None;
    }
  }

  class IPNetArray {
    var a: Option<seq<string>>

    constructor (a: Option<seq<string>>)
      ensures this.a == a
    {
      this.a := a;
    }

    method Value() returns (v: string)
      ensures v == QuotedArrayText(if a.None? then [] else a.value)
    {
      v := ArrayValue(if a.None? then [] else a.value, Quoted);
    }

    /** `src` is what pq.StringArray parsed. */
    method Scan(src: Src<string>, parseCIDR: string -> Option<string>) returns (err: Option<string>)
      modifies this
      ensures var s := ScanSpec(src, ToIPNet(parseCIDR));
        (s.Ok? ==> err.None? && a == s.value) && (s.Err? ==> err == Some(s.error) && a == old(a))
    {
      var r := ScanInto(src, ToIPNet(parseCIDR));
      if r.Err? {
        return Some(r.error);
      }
      a := r.value;
      err := None;
    }
  }

  // ------------------------------------------------------------ properties of Scan

  /** Uint64Array and Uint32Array fail exactly when some element is
      negative, with the first negative element in the message. */
  lemma UnsignedRejectsNegative(xs: seq<int>)
    ensures ScanSpec(SrcParsed(Ok(xs)), ToUnsigned).Err? <==> exists i :: 0 <= i < |xs| && xs[i] < 0
    ensures forall i :: 0 <= i < |xs| && xs[i] < 0 && (forall j :: 0 <= j < i ==> xs[j] >= 0) ==>
      ScanSpec(SrcParsed(Ok(xs)), ToUnsigned)
        == Err("invalid value: expected unsigned integer but got negative " + Itoa(xs[i]))
  {
    var c := Convert(xs, ToUnsigned);
    if c.Ok? {
      assert forall i :: 0 <= i < |xs| ==> ToUnsigned(xs[i]).Ok?;
    }
    forall i | 0 <= i < |xs| && xs[i] < 0 && (forall j :: 0 <= j < i ==> xs[j] >= 0)
      ensures ScanSpec(SrcParsed(Ok(xs)), ToUnsigned)
        == Err("invalid value: expected unsigned integer but got negative " + Itoa(xs[i]))
    {
      ConvertFirstError(xs, ToUnsigned, i);
    }
  }

  /** IPArray fails exactly when some element does not parse as an IP, and
      otherwise keeps every parsed IP in order. */
  lemma IPRejectsUnparsable(xs: seq<string>, parseIP: string -> Option<string>)
    ensures ScanSpec(SrcParsed(Ok(xs)), ToIP(parseIP)).Err? <==> exists i :: 0 <= i < |xs| && parseIP(xs[i]).None?
    ensures var s := ScanSpec(SrcParsed(Ok(xs)), ToIP(parseIP));
      s.Ok? ==>
        s.value.Some? && |s.value.value| == |xs| && forall i :: 0 <= i < |xs| ==> Some(s.value.value[i]) == parseIP(xs[i])
  {
    var c := Convert(xs, ToIP(parseIP));
    if c.Err? {
      var k :| 0 <= k < |xs| && ToIP(parseIP)(xs[k]).Err?;
      assert parseIP(xs[k]).None?;
    } else {
      assert forall i :: 0 <= i < |xs| ==> ToIP(parseIP)(xs[i]).Ok?;
    }
  }

  /** IPNetArray fails exactly when some element does not parse as a CIDR. */
  lemma IPNetRejectsUnparsable(xs: seq<string>, parseCIDR: string -> Option<string>)
    ensures ScanSpec(SrcParsed(Ok(xs)), ToIPNet(parseCIDR)).Err? <==> exists i :: 0 <= i < |xs| && parseCIDR(xs[i]).None?
    ensures var s := ScanSpec(SrcParsed(Ok(xs)), ToIPNet(parseCIDR));
      s.Ok? ==>
        s.value.Some? && |s.value.value| == |xs| && forall i :: 0 <= i < |xs| ==> Some(s.value.value[i]) == parseCIDR(xs[i])
  {
    var c := Convert(xs, ToIPNet(parseCIDR));
    if c.Err? {
      var k :| 0 <= k < |xs| && ToIPNet(parseCIDR)(xs[k]).Err?;
      assert parseCIDR(xs[k]).None?;
    } else {
      assert forall i :: 0 <= i < |xs| ==> ToIPNet(parseCIDR)(xs[i]).Ok?;
    }
  }

  /** IntArray.Scan never fails after a successful parse and keeps every element. */
  lemma IntScanKeeps(xs: seq<int>)
    ensures ScanSpec(SrcParsed(Ok(xs)), ToInt) == Ok(Some(xs))
  {
    var c := Convert(xs, ToInt);
    assert c.Ok?;
    assert c.value == xs;
  }

  /** Value then Scan gives a Uint64Array back, for elements up to the
      largest signed 64-bit value. */
  lemma UintValueScan(a: seq<nat>)
    requires forall i :: 0 <= i < |a| ==> a[i] <= MaxInt64
    ensures ScanSpec(SrcParsed(ParseIntArray(UintArrayText(a))), ToUnsigned) == Ok(Some(a))
  {
    UintTextIsIntText(a);
    IntArrayRoundTrip(a);
    UnsignedKeeps(a);
  }

  /** Scanning non-negative numbers keeps them all. */
  lemma UnsignedKeeps(xs: seq<int>)
    requires forall i :: 0 <= i < |xs| ==> xs[i] >= 0
    ensures var s := ScanSpec(SrcParsed(Ok(xs)), ToUnsigned); s.Ok? && s.value.Some? && s.value.value == xs
  {
    var c := Convert(xs, ToUnsigned);
    assert forall i :: 0 <= i < |xs| ==> ToUnsigned(xs[i]) == Ok(xs[i]);
    assert c.value == xs;
  }

  /** Uint64Array.Scan reads through pq.Int64Array, so an element above the
      largest signed 64-bit value that Value printed cannot be read back. */
  lemma UintAboveInt64Unreadable(n: nat)
    requires n > MaxInt64
    ensures ParseIntArray(UintArrayText([n])).Err?
    ensures ScanSpec(SrcParsed(ParseIntArray(UintArrayText([n]))), ToUnsigned).Err?
  {
    var t := Texts([n], UintText);
    assert t == [NatText(n)];
    assert UintArrayText([n]) == "{" + NatText(n) + "}";
    ArrayElemsText(t);
    DigitsValueNatText(n);
    assert IntElem(NatText(n)).Err?;
    ConvertFirstError(t, IntElem, 0);
  }

  /** Value then Scan gives a Uint32Array back, for elements up to the
      largest signed 32-bit value. */
  lemma Uint32ValueScan(a: seq<nat>)
    requires forall i :: 0 <= i < |a| ==> a[i] <= MaxInt32
    ensures ScanSpec(SrcParsed(ParseInt32Array(UintArrayText(a))), ToUnsigned) == Ok(Some(a))
  {
    var t := Texts(a, UintText);
    forall i | 0 <= i < |t| ensures t[i] != "" && ',' !in t[i] && Int32Elem(t[i]) == Ok(a[i]) {
      assert t[i] == Itoa(a[i]);
      ItoaNoComma(a[i]);
      ParseItoa(a[i]);
    }
    ArrayElemsText(t);
    var r := Convert(t, Int32Elem);
    assert r.value == a;
    UnsignedKeeps(a);
  }

  /** Uint32Array.Scan reads through pq.Int32Array, so an element above the
      largest signed 32-bit value that Value printed cannot be read back. */
  lemma Uint32AboveInt32Unreadable(n: nat)
    requires MaxInt32 < n <= 0xFFFF_FFFF
    ensures ParseInt32Array(UintArrayText([n])).Err?
    ensures ScanSpec(SrcParsed(ParseInt32Array(UintArrayText([n]))), ToUnsigned).Err?
  {
    var t := Texts([n], UintText);
    assert t == [NatText(n)];
    assert UintArrayText([n]) == "{" + NatText(n) + "}";
    ArrayElemsText(t);
    assert NatText(n) == Itoa(n);
    ParseItoa(n);
    assert Int32Elem(NatText(n)).Err?;
    ConvertFirstError(t, Int32Elem, 0);
  }

  /** Value then Scan gives an IPArray back when every element is an IP
      that net.ParseIP reads as itself. */
  lemma IPValueScan(a: seq<string>, parseIP: string -> Option<string>)
    requires forall i :: 0 <= i < |a| ==> ',' !in a[i] && '"' !in a[i] && parseIP(a[i]) == Some(a[i])
    ensures ScanSpec(SrcParsed(ParseStringArray(QuotedArrayText(a))), ToIP(parseIP)) == Ok(Some(a))
  {
    QuotedArrayRoundTrip(a);
    var c := Convert(a, ToIP(parseIP));
    assert forall i :: 0 <= i < |a| ==> ToIP(parseIP)(a[i]) == Ok(a[i]);
    assert c.value == a;
  }
}
