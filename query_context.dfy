// resource/context.go: the request context. Query parameters become filters
// (`name_modifier=values`) and pagination (`page_size`, `page_num`); the
// context also carries a key/value store for handlers.
module QueryContext {
  import opened Wrappers
  import opened Strs
  import ApiError

  // ------------------------------------------------------------ modifiers

  datatype Modifier = Eq | Ne | Lt | Gt | Lte | Gte | Prefix | Suffix | Like | NotLike | Null | NotNull

  /** The modifier constants of context.go. */
  function ModifierText(m: Modifier): (s: string)
    ensures |s| >= 2 && '_' !in s
  {
    match m
    case Eq => "eq"
    case Ne => "ne"
    case Lt => "lt"
    case Gt => "gt"
    case Lte => "lte"
    case Gte => "gte"
    case Prefix => "prefix"
    case Suffix => "suffix"
    case Like => "like"
    case NotLike => "notlike"
    case Null => "null"
    case NotNull => "notnull"
  }

  /** VerifyModifier: the modifier a suffix names; Eq for every other text,
      `eq` included. */
  function VerifyModifier(str: string): (m: Modifier)
    ensures m != Eq ==> ModifierText(m) == str
  {
    match str
    case "ne" => Ne
    case "lt" => Lt
    case "gt" => Gt
    case "lte" => Lte
    case "gte" => Gte
    case "prefix" => Prefix
    case "suffix" => Suffix
    case "like" => Like
    case "notlike" => NotLike
    case "null" => Null
    case "notnull" => NotNull
    case _ => Eq
  }

  /** Eq is the answer exactly for the texts that name no other modifier. */
  lemma VerifyModifierEq(str: string)
    ensures VerifyModifier(str) == Eq <==>
      str !in {"ne", "lt", "gt", "lte", "gte", "prefix", "suffix", "like", "notlike", "null", "notnull"}
  {
  }

  /** Every modifier's text maps back to it, Eq's `eq` by the default. */
  lemma VerifyModifierText(m: Modifier)
    ensures VerifyModifier(ModifierText(m)) == m
  {
  }

  // ------------------------------------------------------------ filters

  /** A filter on one field: its name, how to compare and the values. */
  datatype Filter = Filter(name: string, modifier: Modifier, values: seq<string>)

  /** The two parameters read into pagination; the fields of Pagination
      other than these are not part of this model. */
  datatype Pagination = Pagination(pageSize: int, pageNum: int)

  const FilterNamePageSize: string := "page_size"
  const FilterNamePageNum: string := "page_num"

  /** One query key and its values as a filter: the text after the last
      `_` is the modifier when it names one (or is `eq`), and then the name
      is what comes before; otherwise the whole key is the name, with Eq. */
  function ParseFilter(k: string, v: seq<string>): (f: Filter)
    ensures f.values == v
    ensures '_' !in k ==> f == Filter(k, Eq, v)
  {
    var i := LastIndexOf(k, '_');
    if i < 0 then Filter(k, Eq, v)
    else
      var suffix := k[i + 1..];
      var m := VerifyModifier(suffix);
      if m != Eq || suffix == "eq" then Filter(k[..i], m, v) else Filter(k, Eq, v)
  }

  /** The last `_` of `prefix + "_" + suffix`, when the suffix has none, is
      the one between them. */
  lemma LastUnderscore(prefix: string, suffix: string)
    requires '_' !in suffix
    ensures var k := prefix + "_" + suffix;
      LastIndexOf(k, '_') == |prefix| && k[..|prefix|] == prefix && k[|prefix| + 1..] == suffix
  {
    var k := prefix + "_" + suffix;
    assert k[|prefix|] == '_' && k[|prefix| + 1..] == suffix;
  }

  /** A split key is the name, `_` and the modifier's text: parsing loses nothing. */
  lemma ParseFilterSplit(k: string, v: seq<string>)
    ensures var f := ParseFilter(k, v);
      f.name == k || (|f.name| < |k| && k == f.name + "_" + ModifierText(f.modifier))
  {
    var i := LastIndexOf(k, '_');
    if i >= 0 {
      var suffix := k[i + 1..];
      var m := VerifyModifier(suffix);
      if m != Eq || suffix == "eq" {
        assert ModifierText(m) == suffix;
        assert k == k[..i] + "_" + suffix;
      }
    }
  }

  /** A key written as name, `_` and a modifier's text parses back to that
      name and modifier, whatever `_` the name holds. */
  lemma KeyRoundTrip(name: string, m: Modifier, v: seq<string>)
    ensures ParseFilter(name + "_" + ModifierText(m), v) == Filter(name, m, v)
  {
    LastUnderscore(name, ModifierText(m));
    VerifyModifierText(m);
  }

  /** A last `_`-suffix that names no modifier leaves the key whole:
      `page_size` and `parent_id` are plain names with Eq. */
  lemma UnknownSuffixKept(k: string, v: seq<string>)
    requires '_' in k
    requires var s := k[LastIndexOf(k, '_') + 1..]; VerifyModifier(s) == Eq && s != "eq"
    ensures ParseFilter(k, v) == Filter(k, Eq, v)
  {
  }

  /** `page_size` is read as the plain name `page_size`: `size` is no modifier. */
  lemma PageSizeIsPlain(v: seq<string>)
    ensures ParseFilter(FilterNamePageSize, v) == Filter(FilterNamePageSize, Eq, v)
  {
    assert FilterNamePageSize == "page" + "_" + "size";
    LastUnderscore("page", "size");
  }

  /** Likewise `page_num`. */
  lemma PageNumIsPlain(v: seq<string>)
    ensures ParseFilter(FilterNamePageNum, v) == Filter(FilterNamePageNum, Eq, v)
  {
    assert FilterNamePageNum == "page" + "_" + "num";
    LastUnderscore("page", "num");
  }

  // ------------------------------------------------------------ filtersValuesToInt

  /** What an APIError is built from: its code and its two messages. */
  datatype Parsed<T> = Parsed(value: T) | Rejected(code: ApiError.ErrorCode, msg: ApiError.ErrorMessage)

  /** The Chinese texts context.go builds from error constants that are not
      part of this model: the invalid-format prefix, and the invalid-query
      message made from the offending value. */
  datatype ChineseTexts = ChineseTexts(invalidFormat: string, invalidQuery: string -> string)

  /** filtersValuesToInt: only the first value counts; it must be a
      non-negative integer. No value at all is 0. */
  function ValuesToIntSpec(values: seq<string>, cn: ChineseTexts): (r: Parsed<int>)
    ensures r.Rejected? ==> r.code == ApiError.InvalidFormat && r.msg.Error() == "negative number"
  {
    if values == [] then Parsed(0)
    else
      var n := ParseInt10(values[0]);
      if n.None? || n.value < 0 then
        Rejected(ApiError.InvalidFormat, ApiError.NewErrorMessage("negative number", cn.invalidQuery(values[0])))
      else Parsed(n.value)
  }

  /** The outcome of filtersValuesToInt: 0 for no value, the first value
      when it reads as a non-negative integer, and a refusal otherwise. */
  lemma ValuesToIntOutcome(values: seq<string>, cn: ChineseTexts)
    ensures var r := ValuesToIntSpec(values, cn);
      (values == [] ==> r == Parsed(0)) &&
      (r.Parsed? && values != [] ==> ParseInt10(values[0]) == Some(r.value) && r.value >= 0) &&
      (r.Rejected? <==> values != [] && (ParseInt10(values[0]).None? || ParseInt10(values[0]).value < 0))
  {
  }

  method FiltersValuesToInt(values: seq<string>, cn: ChineseTexts) returns (r: Parsed<int>)
    ensures r == ValuesToIntSpec(values, cn)
  {
    var i := 0;
    for j := 0 to |values|
      invariant i == 0
    {
      var value := values[j];
      var valueInt := ParseInt10(value);
      if valueInt.None? {
        return Rejected(ApiError.InvalidFormat, ApiError.NewErrorMessage("negative number", cn.invalidQuery(value)));
      }
      i := valueInt.value;
      if i < 0 {
        return Rejected(ApiError.InvalidFormat, ApiError.NewErrorMessage("negative number", cn.invalidQuery(value)));
      }
      break;
    }
    r := Parsed(i);
  }

  // ------------------------------------------------------------ genFiltersAndPagination

  /** The order a `range` over the parsed query visits its keys: each key
      once. Go leaves the order unspecified, so it is a parameter. */
  ghost predicate Enumerates(keys: seq<string>, query: map<string, seq<string>>)
  {
    (forall j :: 0 <= j < |keys| ==> keys[j] in query) &&
    (forall k :: k in query ==> k in keys) &&
    (forall i, j :: 0 <= i < j < |keys| ==> keys[i] != keys[j])
  }

  predicate IsPaging(name: string)
  {
    name == FilterNamePageSize || name == FilterNamePageNum
  }

  /** One round of the loop: a paging key sets its half of the pagination
      from its values, any other key adds its filter. */
  function KeyStep(acc: (seq<Filter>, Pagination), filter: Filter, cn: ChineseTexts)
    : (r: Parsed<(seq<Filter>, Pagination)>)
    ensures r.Parsed? && !IsPaging(filter.name) ==> r.value == (acc.0 + [filter], acc.1)
    ensures r.Parsed? && filter.name == FilterNamePageSize ==>
      ValuesToIntSpec(filter.values, cn).Parsed? &&
      r.value == (acc.0, acc.1.(pageSize := ValuesToIntSpec(filter.values, cn).value))
    ensures r.Parsed? && filter.name == FilterNamePageNum ==>
      ValuesToIntSpec(filter.values, cn).Parsed? &&
      r.value == (acc.0, acc.1.(pageNum := ValuesToIntSpec(filter.values, cn).value))
    ensures r.Rejected? <==> IsPaging(filter.name) && ValuesToIntSpec(filter.values, cn).Rejected?
  {
    var (filters, pagination) := acc;
    if filter.name == FilterNamePageSize then
      var n := ValuesToIntSpec(filter.values, cn);
      if n.Rejected? then Rejected(n.code, n.msg) else Parsed((filters, pagination.(pageSize := n.value)))
    else if filter.name == FilterNamePageNum then
      var n := ValuesToIntSpec(filter.values, cn);
      if n.Rejected? then Rejected(n.code, n.msg) else Parsed((filters, pagination.(pageNum := n.value)))
    else Parsed((filters + [filter], pagination))
  }

  /** The loop over the keys: the filters so far and the pagination; the
      first paging value that is not a non-negative integer ends it. */
  function GenSpec(keys: seq<string>, query: map<string, seq<string>>, cn: ChineseTexts)
    : (r: Parsed<(seq<Filter>, Pagination)>)
    requires forall j :: 0 <= j < |keys| ==> keys[j] in query
    decreases |keys|
  {
    if keys == [] then Parsed(([], Pagination(0, 0)))
    else
      var pre := GenSpec(keys[..|keys| - 1], query, cn);
      if pre.Rejected? then pre
      else
        var k := keys[|keys| - 1];
        KeyStep(pre.value, ParseFilter(k, query[k]), cn)
  }

  /** genFiltersAndPagination, given url.ParseQuery's outcome: its error,
      or the parsed map and the order its keys are visited in. */
  function GenFiltersAndPaginationSpec(parseErr: Option<string>, keys: seq<string>, query: map<string, seq<string>>,
                                       cn: ChineseTexts): (r: Parsed<(seq<Filter>, Pagination)>)
    requires Enumerates(keys, query)
    ensures parseErr.Some? ==>
      r == Rejected(ApiError.InvalidFormat, ApiError.ErrorMessage(parseErr.value, cn.invalidFormat + parseErr.value))
    ensures parseErr.None? ==> r == GenSpec(keys, query, cn)
  {
    if parseErr.Some? then
      Rejected(ApiError.InvalidFormat, ApiError.ErrorMessage(parseErr.value, cn.invalidFormat + parseErr.value))
    else GenSpec(keys, query, cn)
  }

  /** The first half of the loop body: the key's filter, with Eq until a
      modifier suffix is found. */
  method KeyFilter(k: string, v: seq<string>) returns (filter: Filter)
    ensures filter == ParseFilter(k, v)
  {
    filter := Filter(k, Eq, v);
    var i := LastIndexOf(k, '_');
    if i >= 0 {
      filter := filter.(modifier := VerifyModifier(k[i + 1..]));
      if filter.modifier != Eq || k[i + 1..] == "eq" {
        filter := filter.(name := k[..i]);
      }
    }
  }

  method GenFiltersAndPagination(parseErr: Option<string>, keys: seq<string>, query: map<string, seq<string>>,
                                 cn: ChineseTexts) returns (r: Parsed<(seq<Filter>, Pagination)>)
    requires Enumerates(keys, query)
    ensures r == GenFiltersAndPaginationSpec(parseErr, keys, query, cn)
  {
    if parseErr.Some? {
      return Rejected(ApiError.InvalidFormat, ApiError.ErrorMessage(parseErr.value, cn.invalidFormat + parseErr.value));
    }
    var filters: seq<Filter> := [];
    var pagination := Pagination(0, 0);
    for i := 0 to |keys|
      invariant GenSpec(keys[..i], query, cn) == Parsed((filters, pagination))
    {
      var k := keys[i];
      ghost var acc := (filters, pagination);
      var filter := KeyFilter(k, query[k]);
      GenNext(keys, i, query, cn);
      ghost var step := KeyStep(acc, filter, cn);
      if filter.name == FilterNamePageSize {
        var n := FiltersValuesToInt(filter.values, cn);
        if n.Rejected? {
          GenStops(keys, i + 1, query, cn);
          return Rejected(n.code, n.msg);
        }
        pagination := pagination.(pageSize := n.value);
      } else if filter.name == FilterNamePageNum {
        var n := FiltersValuesToInt(filter.values, cn);
        if n.Rejected? {
          GenStops(keys, i + 1, query, cn);
          return Rejected(n.code, n.msg);
        }
        pagination := pagination.(pageNum := n.value);
      } else {
        filters := filters + [filter];
      }
    }
    assert keys[..|keys|] == keys;
    r := Parsed((filters, pagination));
  }

  /** The loop's spec one key further on. */
  lemma GenNext(keys: seq<string>, i: nat, query: map<string, seq<string>>, cn: ChineseTexts)
    requires forall j :: 0 <= j < |keys| ==> keys[j] in query
    requires i < |keys|
    ensures var pre := GenSpec(keys[..i], query, cn);
      GenSpec(keys[..i + 1], query, cn) ==
        if pre.Rejected? then pre else KeyStep(pre.value, ParseFilter(keys[i], query[keys[i]]), cn)
  {
    assert keys[..i + 1][..i] == keys[..i];
  }

  /** Once a paging value is refused, later keys change nothing. */
  lemma {:induction false} GenStops(keys: seq<string>, k: nat, query: map<string, seq<string>>, cn: ChineseTexts)
    requires forall j :: 0 <= j < |keys| ==> keys[j] in query
    requires k <= |keys| && GenSpec(keys[..k], query, cn).Rejected?
    ensures GenSpec(keys, query, cn) == GenSpec(keys[..k], query, cn)
    decreases |keys| - k
  {
    if k < |keys| {
      var init := keys[..|keys| - 1];
      assert init[..k] == keys[..k];
      GenStops(init, k, query, cn);
    } else {
      assert keys[..k] == keys;
    }
  }

  /** The filters a successful parse returns, as a reference: every key's
      filter, in visiting order, except the paging ones. */
  function KeptFilters(keys: seq<string>, query: map<string, seq<string>>): (fs: seq<Filter>)
    requires forall j :: 0 <= j < |keys| ==> keys[j] in query
    ensures |fs| <= |keys|
  {
    if keys == [] then []
    else
      var k := keys[|keys| - 1];
      var f := ParseFilter(k, query[k]);
      KeptFilters(keys[..|keys| - 1], query) + (if IsPaging(f.name) then [] else [f])
  }

  /** A key's values are acceptable: it is no paging key, or its first
      value is a non-negative integer. */
  predicate KeyAccepted(k: string, v: seq<string>, cn: ChineseTexts)
  {
    !IsPaging(ParseFilter(k, v).name) || ValuesToIntSpec(v, cn).Parsed?
  }

  /** The parse succeeds exactly when every key that names a paging
      parameter has an acceptable first value. */
  lemma {:induction false} GenSucceeds(keys: seq<string>, query: map<string, seq<string>>, cn: ChineseTexts)
    requires forall j :: 0 <= j < |keys| ==> keys[j] in query
    ensures GenSpec(keys, query, cn).Parsed? <==> forall k :: k in keys ==> KeyAccepted(k, query[k], cn)
    decreases |keys|
  {
    if keys != [] {
      var init := keys[..|keys| - 1];
      var last := keys[|keys| - 1];
      GenSucceeds(init, query, cn);
      assert keys == init + [last];
      assert forall k :: k in keys <==> k in init || k == last;
    }
  }

  /** A successful parse returns the non-paging keys' filters, in order. */
  lemma {:induction false} GenFilters(keys: seq<string>, query: map<string, seq<string>>, cn: ChineseTexts)
    requires forall j :: 0 <= j < |keys| ==> keys[j] in query
    requires GenSpec(keys, query, cn).Parsed?
    ensures GenSpec(keys, query, cn).value.0 == KeptFilters(keys, query)
    decreases |keys|
  {
    if keys != [] {
      GenFilters(keys[..|keys| - 1], query, cn);
    }
  }

  /** No filter that comes back is a paging parameter. */
  lemma {:induction false} KeptFiltersNoPaging(keys: seq<string>, query: map<string, seq<string>>, j: nat)
    requires forall i :: 0 <= i < |keys| ==> keys[i] in query
    requires j < |KeptFilters(keys, query)|
    ensures !IsPaging(KeptFilters(keys, query)[j].name)
    decreases |keys|
  {
    var init := keys[..|keys| - 1];
    if j < |KeptFilters(init, query)| {
      KeptFiltersNoPaging(init, query, j);
    }
  }

  /** Without a key naming a paging parameter, pagination stays at zero. */
  lemma {:induction false} PaginationDefault(keys: seq<string>, query: map<string, seq<string>>, cn: ChineseTexts)
    requires forall j :: 0 <= j < |keys| ==> keys[j] in query
    requires forall j :: 0 <= j < |keys| ==> !IsPaging(ParseFilter(keys[j], query[keys[j]]).name)
    ensures GenSpec(keys, query, cn).Parsed? && GenSpec(keys, query, cn).value.1 == Pagination(0, 0)
    decreases |keys|
  {
    if keys != [] {
      var init := keys[..|keys| - 1];
      assert forall j :: 0 <= j < |init| ==> init[j] == keys[j];
      PaginationDefault(init, query, cn);
    }
  }

  /** The last key that names `page_size` decides the page size: a map
      holding both `page_size` and, say, `page_size_eq` gets the value of
      whichever key the iteration visits last. */
  lemma PageSizeFromLastKey(keys: seq<string>, k: string, query: map<string, seq<string>>, cn: ChineseTexts)
    requires forall j :: 0 <= j < |keys| ==> keys[j] in query
    requires k in query && ParseFilter(k, query[k]).name == FilterNamePageSize
    requires GenSpec(keys + [k], query, cn).Parsed?
    ensures ValuesToIntSpec(query[k], cn).Parsed?
    ensures GenSpec(keys + [k], query, cn).value.1.pageSize == ValuesToIntSpec(query[k], cn).value
  {
    assert (keys + [k])[..|keys|] == keys;
  }

  // ------------------------------------------------------------ Context

  /** The parts of Context this model keeps: the method, the handler
      parameters, the filters and the pagination; `T` stands for
      interface{}. */
  class Context<T> {
    const httpMethod: string
    var params: map<string, T>
    var filters: seq<Filter>
    var pagination: Option<Pagination>

    /** NewContext's context value, from the parsed filters and pagination. */
    constructor (httpMethod: string, filters: seq<Filter>, pagination: Pagination)
      ensures this.httpMethod == httpMethod && params == map[]
      ensures this.filters == filters && this.pagination == Some(pagination)
    {
      this.httpMethod := httpMethod;
      params := map[];
      this.filters := filters;
      this.pagination := Some(pagination);
    }

    /** Set: the key now holds the value; every other key is unchanged. */
    method Set(key: string, value: T)
      modifies this
      ensures params == old(params)[key := value]
      ensures filters == old(filters) && pagination == old(pagination)
      ensures Get(key) == Some(value)
      ensures forall k :: k != key ==> Get(k) == old(Get(k))
    {
      params := params[key := value];
    }

    /** Get: the value and whether the key was set (`None` is Go's false). */
    function Get(key: string): (r: Option<T>)
      reads this
      ensures r.Some? <==> key in params
      ensures r.Some? ==> r.value == params[key]
    {
      if key in params then Some(params[key]) else None
    }

    function GetFilters(): (fs: seq<Filter>)
      reads this
      ensures fs == filters
    {
      filters
    }

    function GetPagination(): (p: Option<Pagination>)
      reads this
      ensures p == pagination
    {
      pagination
    }

    method SetPagination(p: Option<Pagination>)
      modifies this
      ensures pagination == p && params == old(params) && filters == old(filters)
    {
      pagination := p;
    }
  }

  /** A new context gives back the filters and pagination it was made
      with; SetPagination replaces the pagination only, and Set touches neither. */
  method ContextAccessors<T>(filters: seq<Filter>, p: Pagination, q: Option<Pagination>, key: string, value: T)
    returns (fs: seq<Filter>, p0: Option<Pagination>, fs1: seq<Filter>, p1: Option<Pagination>)
    ensures fs == filters && p0 == Some(p)
    ensures fs1 == filters && p1 == q
  {
    var ctx := new Context<T>("GET", filters, p);
    fs := ctx.GetFilters();
    p0 := ctx.GetPagination();
    ctx.Set(key, value);
    ctx.SetPagination(q);
    fs1 := ctx.GetFilters();
    p1 := ctx.GetPagination();
  }

  /** A fresh context is empty; what is Set is then got back. */
  method SetThenGet<T>(key: string, value: T, other: string) returns (got: Option<T>, gotOther: Option<T>)
    ensures got == Some(value)
    ensures gotOther == if other == key then Some(value) else None
  {
    var ctx := new Context<T>("GET", [], Pagination(0, 0));
    ctx.Set(key, value);
    got := ctx.Get(key);
    gotOther := ctx.Get(other);
  }
}
