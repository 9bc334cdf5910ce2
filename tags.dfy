// The `db` struct-tag options (db/resource_meta.go, tagContains and the
// tag constants).
module Tags {
  import opened Strs

  const EmbedResource: string := "ResourceBase"
  const DBTag: string := "db"

  /** The comma-separated options that tagContains visits, in order. */
  function TagOptions(s: string): seq<string>
    decreases |s|
  {
    if s == "" then []
    else
      var i := IndexOf(s, ',');
      if i < 0 then [s] else [s[..i]] + TagOptions(s[i + 1..])
  }

  predicate TagHas(o: string, option: string)
  {
    option in TagOptions(o)
  }

  /** tagContains: does the tag list `o` hold `optionName` as one whole option? */
  method TagContains(o: string, optionName: string) returns (found: bool)
    ensures found == TagHas(o, optionName)
  {
    if |o| == 0 {
      return false;
    }
    var s := o;
    while s != ""
      invariant TagHas(o, optionName) <==> optionName in TagOptions(s)
      decreases |s|
    {
      ghost var whole := s;
      var next := "";
      var i := IndexOf(s, ',');
      assert TagOptions(whole) == if i < 0 then [whole] else [whole[..i]] + TagOptions(whole[i + 1..]);
      if i >= 0 {
        s, next := s[..i], s[i + 1..];
      }
      if s == optionName {
        return true;
      }
      assert optionName in TagOptions(whole) <==> optionName in TagOptions(next);
      s := next;
    }
    return false;
  }

  /** Options are matched whole: for a non-empty option name, contained exactly
      when it is one of the comma-separated parts (so "suk" does not hold "uk"). */
  lemma {:induction false} TagHasIffPart(o: string, option: string)
    requires option != ""
    ensures TagHas(o, option) <==> option in Split(o, ',')
    decreases |o|
  {
    if o == "" {
      assert Split(o, ',') == [""];
      assert TagOptions(o) == [];
    } else if IndexOf(o, ',') < 0 {
      assert TagOptions(o) == [o];
      assert Split(o, ',') == [o];
    } else {
      var i := IndexOf(o, ',');
      var rest := o[i + 1..];
      TagHasIffPart(rest, option);
      SameHead(o, option, o[..i], TagOptions(rest), Split(rest, ','));
    }
  }

  lemma SameHead(o: string, option: string, head: string, t: seq<string>, p: seq<string>)
    requires TagOptions(o) == [head] + t
    requires Split(o, ',') == [head] + p
    requires option in t <==> option in p
    ensures option in TagOptions(o) <==> option in Split(o, ',')
  {
  }

  /** The empty tag holds no option. */
  lemma EmptyTagHasNothing(option: string)
    ensures !TagHas("", option)
  {
  }
}
