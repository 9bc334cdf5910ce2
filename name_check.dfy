// util/regexp.go: ValidateString, which checks a resource name against
// three fixed patterns (NameRegs): the allowed characters, the characters a
// name may not start with and those it may not end with.
module NameCheck {
  import opened Wrappers

  /** Unicode's Han script (`\p{Han}`); the table is a parameter of the model. */
  type HanTable = char -> bool

  /** `\s` of Go's regexp syntax: tab, newline, form feed, carriage return, space. */
  predicate IsSpace(c: char)
  {
    c == '\t' || c == '\n' || c == '\U{000C}' || c == '\r' || c == ' '
  }

  /** The punctuation of the class: `-_/:.,[]()（）@*`. */
  predicate Punct(c: char)
  {
    c == '-' || c == '_' || c == '/' || c == ':' || c == '.' || c == ',' || c == '[' || c == ']' ||
    c == '(' || c == ')' || c == '（' || c == '）' || c == '@' || c == '*'
  }

  /** One character of the class `[0-9a-zA-Z-_/:.,\[\]()（）\s\p{Han}@*]`. */
  predicate Allowed(c: char, isHan: HanTable)
  {
    ('0' <= c <= '9') || ('a' <= c <= 'z') || ('A' <= c <= 'Z') || Punct(c) || IsSpace(c) || isHan(c)
  }

  /** The first rule, `^[...]+$`: one or more characters, all allowed. */
  predicate LegalChars(s: string, isHan: HanTable)
  {
    |s| > 0 && forall i :: 0 <= i < |s| ==> Allowed(s[i], isHan)
  }

  /** The second rule, `(^-)|(^/)|(^,)|(^，)|(^、)`, which must not match. */
  predicate BadStart(s: string)
  {
    |s| > 0 && s[0] in "-/,，、"
  }

  /** The third rule, `-$|_$|/$|，$|、$|,$`, which must not match. Without
      the multi-line flag `$` matches only at the very end of the text. */
  predicate BadEnd(s: string)
  {
    |s| > 0 && s[|s| - 1] in "-_/，、,"
  }

  /** One of NameRegs: a pattern and the match result it expects. */
  datatype NameRule = LegalCharsRule | BadStartRule | BadEndRule

  function RuleMatches(rule: NameRule, s: string, isHan: HanTable): bool
  {
    match rule
    case LegalCharsRule => LegalChars(s, isHan)
    case BadStartRule => BadStart(s)
    case BadEndRule => BadEnd(s)
  }

  function ExpectResult(rule: NameRule): bool
  {
    rule == LegalCharsRule
  }

  /** NameRegs, in the order they are tried. */
  const NameRegs: seq<NameRule> := [LegalCharsRule, BadStartRule, BadEndRule]

  /** The error every rule reports: the name and `is not legal`. */
  function NotLegal(s: string): string
  {
    s + " " + "is not legal"
  }

  /** What ValidateString accepts. */
  predicate ValidName(s: string, isHan: HanTable)
  {
    s == "" || (LegalChars(s, isHan) && !BadStart(s) && !BadEnd(s))
  }

  /** ValidateString: the empty name is valid; any other name must match
      each rule as the rule expects, the first rule that disagrees giving
      the error. `None` is Go's nil error. */
  method ValidateString(s: string, isHan: HanTable) returns (err: Option<string>)
    ensures err.None? <==> ValidName(s, isHan)
    ensures err.Some? ==> err.value == NotLegal(s)
  {
    if s != "" {
      for k := 0 to |NameRegs|
        invariant forall j :: 0 <= j < k ==> RuleMatches(NameRegs[j], s, isHan) == ExpectResult(NameRegs[j])
      {
        var reg := NameRegs[k];
        if RuleMatches(reg, s, isHan) != ExpectResult(reg) {
          return Some(NotLegal(s));
        }
      }
      assert RuleMatches(NameRegs[0], s, isHan) && !RuleMatches(NameRegs[1], s, isHan) && !RuleMatches(NameRegs[2], s, isHan);
    }
    return None;
  }

  /** Names as the validator sees them: a name made only of letters, digits
      and inner punctuation other than the forbidden ends is accepted,
      whatever the Han table says. */
  lemma PlainNamesAccepted(s: string, isHan: HanTable)
    requires |s| > 0 && forall i :: 0 <= i < |s| ==> ('a' <= s[i] <= 'z' || '0' <= s[i] <= '9' || (0 < i < |s| - 1 && s[i] in "_-/.:"))
    ensures ValidName(s, isHan)
  {
  }

  /** A forbidden first or last character is rejected even when every
      character is allowed. */
  lemma BadEndsRejected(s: string, isHan: HanTable)
    requires |s| > 0 && (s[0] in "-/,，、" || s[|s| - 1] in "-_/，、,")
    ensures !ValidName(s, isHan)
  {
  }

  /** The Han characters among the names of util/regexp_test.go. */
  predicate TestHan(isHan: HanTable)
  {
    isHan('你') && isHan('好') && isHan('比') && isHan('努') && isHan('尔') && isHan('哈') && isHan('赤')
  }

  /** Names 1-4 of util/regexp_test.go pass. */
  lemma TestNames1(isHan: HanTable)
    requires TestHan(isHan)
    ensures ValidName("default", isHan)
    ensures ValidName("test123", isHan)
    ensures ValidName("123", isHan)
    ensures ValidName("你好", isHan)
  {
  }

  /** Names 5-8 of util/regexp_test.go pass. */
  lemma TestNames2(isHan: HanTable)
    ensures ValidName("Ab6e_a", isHan)
    ensures ValidName("xx@ff", isHan)
    ensures ValidName("@", isHan)
    ensures ValidName("@xx", isHan)
  {
  }

  /** Names 9-12 of util/regexp_test.go pass. */
  lemma TestNames3(isHan: HanTable)
    ensures ValidName("xx@", isHan)
    ensures ValidName("vv*", isHan)
    ensures ValidName("*vv", isHan)
    ensures ValidName("*", isHan)
  {
  }

  /** Names 13-16 of util/regexp_test.go pass. */
  lemma TestNames4(isHan: HanTable)
    ensures ValidName("xx,xx", isHan)
    ensures ValidName("x-x", isHan)
    ensures ValidName("x_x", isHan)
    ensures ValidName("enable", isHan)
  {
  }

  /** Names 17-19 of util/regexp_test.go pass. */
  lemma TestNames5(isHan: HanTable)
    ensures ValidName("true", isHan)
    ensures ValidName("2001::/64", isHan)
    ensures ValidName("2001::1330", isHan)
  {
  }

  /** Names 20-22 of util/regexp_test.go pass. */
  lemma TestNames6(isHan: HanTable)
    ensures ValidName("2001::", isHan)
    ensures ValidName("abc/24f", isHan)
    ensures ValidName("10.0.0.0/24", isHan)
  {
  }

  /** Names 23-24 of util/regexp_test.go pass. */
  lemma TestNames7(isHan: HanTable)
    ensures ValidName("10.0.0.1", isHan)
    ensures ValidName("www.baidu.com", isHan)
  {
  }

  /** Names 25-26 of util/regexp_test.go pass. */
  lemma TestNames8(isHan: HanTable)
    ensures ValidName("www.baidu.com.", isHan)
    ensures ValidName(".", isHan)
  {
  }

  /** Names 27-30 of util/regexp_test.go pass. */
  lemma TestNames9(isHan: HanTable)
    ensures ValidName("[2001::5]:53", isHan)
    ensures ValidName("[2002::5]", isHan)
    ensures ValidName("[]", isHan)
    ensures ValidName("[", isHan)
  {
  }

  /** Names 31-34 of util/regexp_test.go pass. */
  lemma TestNames10(isHan: HanTable)
    requires TestHan(isHan)
    ensures ValidName("]", isHan)
    ensures ValidName("a b", isHan)
    ensures ValidName("a\tb", isHan)
    ensures ValidName("比(好)", isHan)
  {
  }

  /** Names 35-37 of util/regexp_test.go pass. */
  lemma TestNames11(isHan: HanTable)
    requires TestHan(isHan)
    ensures ValidName("努（尔）哈赤", isHan)
    ensures ValidName("()", isHan)
    ensures ValidName("（）", isHan)
  {
  }

  /** Name 38 of util/regexp_test.go passes. */
  lemma TestNames12(isHan: HanTable)
    ensures ValidName("Windows8/8.1/10", isHan)
  {
  }

  /** Name 39 of util/regexp_test.go passes. */
  lemma TestNames13(isHan: HanTable)
    ensures ValidName("Solaris 8 (SunOS 5.8)", isHan)
  {
  }

  /** Name 40 of util/regexp_test.go passes. */
  lemma TestNames14(isHan: HanTable)
    ensures ValidName("Anaconda (RedHat) Installer\n", isHan)
  {
  }

  /** Name 41 of util/regexp_test.go passes. */
  lemma TestNames15(isHan: HanTable)
    ensures ValidName("Eye-Fi Wireless Memory Card", isHan)
  {
  }

  /** Names the rules refuse: a forbidden first or last character, and a
      character outside the allowed class. */
  lemma SampleNamesRejected(isHan: HanTable)
    requires !isHan('#') && !isHan('!')
    ensures !ValidName("-x", isHan) && !ValidName("/x", isHan) && !ValidName(",x", isHan)
    ensures !ValidName("x-", isHan) && !ValidName("x_", isHan) && !ValidName("x/", isHan) && !ValidName("x,", isHan)
    ensures !ValidName("a#b", isHan) && !ValidName("hi!", isHan)
  {
    assert "a#b"[1] == '#' && !Allowed('#', isHan);
    assert "hi!"[2] == '!' && !Allowed('!', isHan);
  }
}
