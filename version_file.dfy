/**
 * The major/minor version number of the application as the version commands
 * see it: the version string shown to users, the version.json file the
 * numbers are saved to and loaded from, and the effect of a major or minor
 * increment.
 */
module VersionFile {
  import opened Wrappers
  import opened PyStr

  /** '{}.{:02d}'.format(major, minor): the minor number has at least two digits. */
  function VersionString(major: int, minor: int): string {
    IntToStr(major) + "." + ZeroPadInt(minor, 2)
  }

  /** Reads a version string of two non-negative numbers back. */
  function ParseVersionString(s: string): Option<(nat, nat)> {
    var n := DigitSpan(s);
    if n == 0 || n == |s| || s[n] != '.' then None
    else
      var f := s[n + 1..];
      if |f| == 0 || !AllDigits(f) then None
      else Some((DigitsValue(s[..n]), DigitsValue(f)))
  }

  /** A version of two non-negative numbers reads back from its string; the minor part has at least two digits. */
  lemma VersionStringRoundTrip(major: nat, minor: nat)
    ensures ParseVersionString(VersionString(major, minor)) == Some((major, minor))
    ensures |VersionString(major, minor)| >= |NatToStr(major)| + 3
  {
    var a := NatToStr(major);
    var b := ZeroPadNat(minor, 2);
    var s := VersionString(major, minor);
    assert s == a + ("." + b) == (a + ".") + b;
    DigitSpanOf(a, "." + b);
    TakePrefix(a, "." + b);
    DropPrefix(a + ".", b);
    assert s[|a|] == '.';
  }

  /** Two versions of non-negative numbers have the same string only if they are the same. */
  lemma VersionStringInjective(major1: nat, minor1: nat, major2: nat, minor2: nat)
    requires VersionString(major1, minor1) == VersionString(major2, minor2)
    ensures major1 == major2 && minor1 == minor2
  {
    VersionStringRoundTrip(major1, minor1);
    VersionStringRoundTrip(major2, minor2);
  }

  // ---------------------------------------------------------------------
  // version.json
  // ---------------------------------------------------------------------

  const JsonHead: string := "{\n \"major\": "
  const JsonMid: string := ",\n \"minor\": "
  const JsonTail: string := "\n}"

  /**
   * json.dump({'major': major, 'minor': minor}, f, indent=1, sort_keys=True):
   * one key per line, indented by one space, "major" first.
   */
  function VersionJson(major: int, minor: int): string {
    JsonHead + IntToStr(major) + JsonMid + IntToStr(minor) + JsonTail
  }

  /** The rest of s after the prefix p, if s starts with p. */
  function AfterPrefix(s: string, p: string): (r: Option<string>)
    ensures r.Some? ==> s == p + r.value
  {
    if |s| < |p| || s[..|p|] != p then None else Some(s[|p|..])
  }

  lemma AfterPrefixOf(p: string, rest: string)
    ensures AfterPrefix(p + rest, p) == Some(rest)
  {
    assert (p + rest)[..|p|] == p;
  }

  /** The run of decimal digits at the start of s, if any: its value and its length. */
  function ParseNat(s: string): (r: Option<(int, int)>)
    ensures r.Some? ==> 0 < r.value.1 <= |s|
  {
    var n := DigitSpan(s);
    if n == 0 then None else Some((DigitsValue(s[..n]), n))
  }

  /** A JSON integer at the start of s: its value and how many characters it takes. */
  function ParseInt(s: string): (r: Option<(int, int)>)
    ensures r.Some? ==> 0 < r.value.1 <= |s|
  {
    if |s| > 0 && s[0] == '-' then
      match ParseNat(s[1..])
      case None => None
      case Some((v, n)) => Some((0 - v, 1 + n))
    else ParseNat(s)
  }

  lemma ParseNatOf(d: string, rest: string)
    requires |d| > 0 && AllDigits(d)
    requires |rest| == 0 || !IsDigit(rest[0])
    ensures var r := ParseNat(d + rest); r.Some? && r.value.0 == DigitsValue(d) && r.value.1 == |d|
  {
    DigitSpanOf(d, rest);
    TakePrefix(d, rest);
  }

  lemma ParseNegativeOf(d: string, rest: string)
    requires |d| > 0 && AllDigits(d)
    requires |rest| == 0 || !IsDigit(rest[0])
    ensures var r := ParseInt("-" + (d + rest)); r.Some? && r.value.0 == 0 - DigitsValue(d) && r.value.1 == 1 + |d|
  {
    DropPrefix("-", d + rest);
    ParseNatOf(d, rest);
  }

  lemma ParsePositiveOf(d: string, rest: string)
    requires |d| > 0 && AllDigits(d)
    requires |rest| == 0 || !IsDigit(rest[0])
    ensures var r := ParseInt(d + rest); r.Some? && r.value.0 == DigitsValue(d) && r.value.1 == |d|
  {
    ParseNatOf(d, rest);
  }

  /** An integer written by str() reads back, up to the first non-digit after it. */
  lemma ParseIntOf(i: int, rest: string)
    requires |rest| == 0 || !IsDigit(rest[0])
    ensures var r := ParseInt(IntToStr(i) + rest); r.Some? && r.value.0 == i && r.value.1 == |IntToStr(i)|
  {
    if i < 0 {
      ParseNegativeIntOf(i, rest);
    } else {
      ParsePositiveOf(NatToStr(i), rest);
    }
  }

  lemma ParseNegativeIntOf(i: int, rest: string)
    requires i < 0
    requires |rest| == 0 || !IsDigit(rest[0])
    ensures var r := ParseInt(IntToStr(i) + rest); r.Some? && r.value.0 == i && r.value.1 == |IntToStr(i)|
  {
    var d := NatToStr(-i);
    assert IntToStr(i) + rest == "-" + (d + rest);
    ParseNegativeOf(d, rest);
  }

  /** json.loads of version.json followed by int() of its two numbers, for the layout the save writes. */
  function ParseVersionJson(text: string): Option<(int, int)> {
    match AfterPrefix(text, JsonHead)
    case None => None
    case Some(t) =>
      match ParseInt(t)
      case None => None
      case Some((major, n)) =>
        match AfterPrefix(t[n..], JsonMid)
        case None => None
        case Some(w) =>
          match ParseInt(w)
          case None => None
          case Some((minor, k)) => if w[k..] == JsonTail then Some((major, minor)) else None
  }

  /** Saving and then loading gives back the same two numbers. */
  lemma VersionJsonRoundTrip(major: int, minor: int)
    ensures ParseVersionJson(VersionJson(major, minor)) == Some((major, minor))
  {
    var a, b := IntToStr(major), IntToStr(minor);
    var w := b + JsonTail;
    var t := a + (JsonMid + w);
    assert VersionJson(major, minor) == JsonHead + t;
    AfterPrefixOf(JsonHead, t);
    ParseIntOf(major, JsonMid + w);
    DropPrefix(a, JsonMid + w);
    AfterPrefixOf(JsonMid, w);
    MinorLineParses(minor);
  }

  /** The minor number followed by the closing of the object reads back, with nothing after it. */
  lemma MinorLineParses(minor: int)
    ensures var w := IntToStr(minor) + JsonTail;
            ParseInt(w).Some? && ParseInt(w).value.0 == minor && w[ParseInt(w).value.1..] == JsonTail
  {
    ParseIntOf(minor, JsonTail);
    DropPrefix(IntToStr(minor), JsonTail);
  }

  // ---------------------------------------------------------------------
  // Incrementing
  // ---------------------------------------------------------------------

  /** increment_version(which) on the pair (major, minor). */
  function Bump(major: int, minor: int, which: string): (int, int) {
    if which == "major" then (major + 1, 0)
    else if which == "minor" then (major, minor + 1)
    else (major, minor)
  }

  /** Version pairs in release order: by major number, then by minor number. */
  predicate Before(a: (int, int), b: (int, int)) {
    a.0 < b.0 || (a.0 == b.0 && a.1 < b.1)
  }

  /** A major or a minor increment gives a later version; a major one a later version than any minor one. */
  lemma BumpAdvances(major: int, minor: int, which: string)
    requires which == "major" || which == "minor"
    ensures Before((major, minor), Bump(major, minor, which))
    ensures Before(Bump(major, minor, "minor"), Bump(major, minor, "major"))
  {
  }
}
