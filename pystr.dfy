/**
 * The parts of Python's str type that the application relies on: whitespace
 * classification, strip(), split() with and without a separator, join(),
 * and decimal formatting of integers with zero padding.
 */
module PyStr {

  /** str.isspace() of a one-character string. */
  predicate IsSpace(c: char) {
    c == ' ' || ('\t' <= c <= '\r') || ('\U{1c}' <= c <= '\U{1f}') || c == '\U{85}' || c == '\U{a0}'
    || c == '\U{1680}' || ('\U{2000}' <= c <= '\U{200a}') || c == '\U{2028}' || c == '\U{2029}'
    || c == '\U{202f}' || c == '\U{205f}' || c == '\U{3000}'
  }

  predicate AllSpace(s: string) { forall k :: 0 <= k < |s| ==> IsSpace(s[k]) }

  predicate NoSpace(s: string) { forall k :: 0 <= k < |s| ==> !IsSpace(s[k]) }

  /** Number of whitespace characters at the start of s. */
  function LeadingSpace(s: string): (n: nat)
    ensures n <= |s| && AllSpace(s[..n])
    ensures n == |s| || !IsSpace(s[n])
  {
    if |s| == 0 || !IsSpace(s[0]) then 0
    else
      var m := LeadingSpace(s[1..]);
      assert forall k :: 1 <= k < 1 + m ==> s[k] == s[1..][k - 1];
      1 + m
  }

  /** Number of whitespace characters at the end of s. */
  function TrailingSpace(s: string): (n: nat)
    ensures n <= |s| && AllSpace(s[|s| - n..])
    ensures n == |s| || !IsSpace(s[|s| - 1 - n])
  {
    if |s| == 0 || !IsSpace(s[|s| - 1]) then 0
    else
      var m := TrailingSpace(s[..|s| - 1]);
      assert forall k :: |s| - 1 - m <= k < |s| - 1 ==> s[k] == s[..|s| - 1][k];
      1 + m
  }

  /** r is s with the whitespace s[..i] before it and the whitespace after it removed, and r neither starts nor ends with whitespace. */
  predicate StrippedAt(s: string, r: string, i: int) {
    0 <= i <= |s| - |r| && r == s[i..i + |r|] && AllSpace(s[..i]) && AllSpace(s[i + |r|..])
    && (|r| == 0 || (!IsSpace(r[0]) && !IsSpace(r[|r| - 1])))
  }

  /** str.strip(): s without its leading and trailing whitespace. */
  function Strip(s: string): (r: string)
    ensures exists i :: StrippedAt(s, r, i)
  {
    var i := LeadingSpace(s);
    var j := TrailingSpace(s[i..]);
    TrailingOfSuffix(s, i, j);
    StripWitness(s, i, j);
    s[i..|s| - j]
  }

  /** The trailing whitespace of a suffix of s is the trailing whitespace of s, up to the suffix's length. */
  lemma TrailingOfSuffix(s: string, i: nat, j: nat)
    requires i <= |s| && j == TrailingSpace(s[i..])
    ensures j <= |s| - i && AllSpace(s[|s| - j..]) && (j == |s| - i || !IsSpace(s[|s| - 1 - j]))
  {
    var t := s[i..];
    assert t[|t| - j..] == s[|s| - j..];
    assert j < |t| ==> t[|t| - 1 - j] == s[|s| - 1 - j];
  }

  /** Whitespace runs of lengths i and j at the two ends of s make s[i..|s| - j] its stripped form. */
  lemma StripWitness(s: string, i: nat, j: nat)
    requires i <= |s| && AllSpace(s[..i]) && (i == |s| || !IsSpace(s[i]))
    requires j <= |s| - i && AllSpace(s[|s| - j..]) && (j == |s| - i || !IsSpace(s[|s| - 1 - j]))
    ensures StrippedAt(s, s[i..|s| - j], i)
  {
    var r := s[i..|s| - j];
    assert i + |r| == |s| - j;
    if |r| > 0 {
      assert r[0] == s[i];
      assert r[|r| - 1] == s[|s| - j - 1];
    }
  }

  /** Only one string is s stripped. */
  lemma StrippedUnique(s: string, r1: string, i1: int, r2: string, i2: int)
    requires StrippedAt(s, r1, i1) && StrippedAt(s, r2, i2)
    ensures r1 == r2
  {
    if |r1| > 0 && |r2| > 0 {
      assert s[i1] == r1[0] && s[i2] == r2[0];
      var e1, e2 := i1 + |r1|, i2 + |r2|;
      assert s[e1 - 1] == r1[|r1| - 1] && s[e2 - 1] == r2[|r2| - 1];
      assert i1 == i2;
      assert e1 == e2;
    }
  }

  lemma StripIdempotent(s: string)
    ensures Strip(Strip(s)) == Strip(s)
  {
    var r := Strip(s);
    assert StrippedAt(r, r, 0) by {
      var i :| StrippedAt(s, r, i);
      assert r[0..0 + |r|] == r && r[..0] == [] && r[|r|..] == [];
    }
    var i2 :| StrippedAt(r, Strip(r), i2);
    StrippedUnique(r, r, 0, Strip(r), i2);
  }

  /** Whitespace around a string does not change what strip() leaves of it. */
  lemma StripSurroundingSpace(pre: string, t: string, post: string)
    requires AllSpace(pre) && AllSpace(post)
    ensures Strip(pre + t + post) == Strip(t)
  {
    var r := Strip(t);
    var i :| StrippedAt(t, r, i);
    var r2 := Strip(pre + t + post);
    var i2 :| StrippedAt(pre + t + post, r2, i2);
    WidenedUnique(pre, t, post, r, i, r2, i2);
  }

  lemma WidenedUnique(pre: string, t: string, post: string, r: string, i: int, r2: string, i2: int)
    requires AllSpace(pre) && AllSpace(post) && StrippedAt(t, r, i)
    requires StrippedAt(pre + t + post, r2, i2)
    ensures r2 == r
  {
    StrippedAtWiden(pre, t, post, r, i);
    StrippedUnique(pre + t + post, r, |pre| + i, r2, i2);
  }

  lemma AllSpaceConcat(a: string, b: string)
    requires AllSpace(a) && AllSpace(b)
    ensures AllSpace(a + b)
  {
  }

  /** Whitespace added around a string widens the whitespace stripped from it. */
  lemma StrippedAtWiden(pre: string, t: string, post: string, r: string, i: int)
    requires AllSpace(pre) && AllSpace(post) && StrippedAt(t, r, i)
    ensures StrippedAt(pre + t + post, r, |pre| + i)
  {
    var s := pre + t + post;
    var j := |pre| + i;
    assert s[..j] == pre + t[..i];
    AllSpaceConcat(pre, t[..i]);
    assert s[j + |r|..] == t[i + |r|..] + post;
    AllSpaceConcat(t[i + |r|..], post);
    assert s[j..j + |r|] == t[i..i + |r|];
  }

  /** ASCII case folding of one character. */
  function LowerChar(c: char): char {
    if 'A' <= c <= 'Z' then (c as int + 32) as char else c
  }

  /** str.lower(), restricted to the ASCII letters. */
  function Lower(s: string): (r: string)
    ensures |r| == |s|
    ensures forall k :: 0 <= k < |s| ==> r[k] == LowerChar(s[k])
  {
    seq(|s|, k requires 0 <= k < |s| => LowerChar(s[k]))
  }

  /** Lower-casing twice is lower-casing once. */
  lemma LowerIdempotent(s: string)
    ensures Lower(Lower(s)) == Lower(s)
  {
  }

  /** An occurrence of sub in s is an occurrence of the lower-cased sub in the lower-cased s. */
  lemma ContainsLower(s: string, sub: string)
    requires Contains(s, sub)
    ensures Contains(Lower(s), Lower(sub))
  {
    var i :| 0 <= i <= |s| && OccursAt(s, sub, i);
    assert forall k :: 0 <= k < |sub| ==> Lower(s)[i..i + |sub|][k] == LowerChar(s[i + k]) == LowerChar(sub[k]);
    assert OccursAt(Lower(s), Lower(sub), i);
  }

  /** Length of the run of non-whitespace characters at the start of s. */
  function WordLength(s: string): (n: nat)
    ensures n <= |s| && NoSpace(s[..n])
    ensures n == |s| || IsSpace(s[n])
  {
    if |s| == 0 || IsSpace(s[0]) then 0
    else
      var m := WordLength(s[1..]);
      assert forall k :: 1 <= k < 1 + m ==> s[k] == s[1..][k - 1];
      1 + m
  }

  /** str.split() with no separator: the maximal runs of non-whitespace characters, in order. */
  function SplitWs(s: string): (ws: seq<string>)
    ensures forall k :: 0 <= k < |ws| ==> |ws[k]| > 0 && NoSpace(ws[k])
    decreases |s|
  {
    var i := LeadingSpace(s);
    if i == |s| then []
    else
      var t := s[i..];
      var n := WordLength(t);
      [t[..n]] + SplitWs(t[n..])
  }

  /** sep.join(parts). */
  function JoinWith(sep: string, parts: seq<string>): string {
    if |parts| == 0 then ""
    else if |parts| == 1 then parts[0]
    else parts[0] + sep + JoinWith(sep, parts[1..])
  }

  lemma SplitWsOfWordThenRest(w: string, rest: string)
    requires |w| > 0 && NoSpace(w)
    requires |rest| == 0 || IsSpace(rest[0])
    ensures SplitWs(w + rest) == [w] + SplitWs(rest)
  {
    var s := w + rest;
    assert LeadingSpace(s) == 0;
    assert s[0..] == s;
    WordLengthOfWord(w, rest);
    assert s[..|w|] == w;
    assert s[|w|..] == rest;
  }

  lemma {:induction false} WordLengthOfWord(w: string, rest: string)
    requires NoSpace(w)
    requires |rest| == 0 || IsSpace(rest[0])
    ensures WordLength(w + rest) == |w|
    decreases |w|
  {
    if |w| == 0 {
      assert w + rest == rest;
    } else {
      WordLengthOfWord(w[1..], rest);
      assert (w + rest)[1..] == w[1..] + rest;
    }
  }

  lemma SplitWsAfterSpace(c: char, rest: string)
    requires IsSpace(c)
    requires |rest| == 0 || !IsSpace(rest[0])
    ensures SplitWs([c] + rest) == SplitWs(rest)
  {
    var s := [c] + rest;
    assert s[1..] == rest;
    assert LeadingSpace(s) == 1 + LeadingSpace(rest);
    assert LeadingSpace(rest) == 0;
    assert rest[0..] == rest;
  }

  /** Splitting words joined by single spaces gives the words back. */
  lemma {:induction false} SplitWsJoin(ws: seq<string>)
    requires forall k :: 0 <= k < |ws| ==> |ws[k]| > 0 && NoSpace(ws[k])
    ensures SplitWs(JoinWith(" ", ws)) == ws
  {
    if |ws| == 0 {
      assert LeadingSpace("") == 0;
    } else if |ws| == 1 {
      SplitWsOfWord(ws[0]);
    } else {
      var tail := ws[1..];
      assert forall k :: 0 <= k < |tail| ==> tail[k] == ws[k + 1];
      SplitWsJoin(tail);
      SplitWsJoinStep(ws);
    }
  }

  lemma SplitWsJoinStep(ws: seq<string>)
    requires |ws| >= 2 && |ws[0]| > 0 && NoSpace(ws[0]) && |ws[1]| > 0
    requires SplitWs(JoinWith(" ", ws[1..])) == ws[1..]
    ensures SplitWs(JoinWith(" ", ws)) == ws
  {
    var tail := ws[1..];
    var joined := JoinWith(" ", tail);
    assert JoinWith(" ", ws) == ws[0] + " " + joined;
    JoinWithFirst(" ", tail);
    SplitWsWordSpace(ws[0], joined);
    assert [ws[0]] + tail == ws;
  }

  lemma SplitWsOfWord(w: string)
    requires |w| > 0 && NoSpace(w)
    ensures SplitWs(w) == [w]
  {
    SplitWsOfWordThenRest(w, "");
    assert w + "" == w;
    assert LeadingSpace("") == 0;
    assert SplitWs("") == [];
  }

  /** A word, one space and a text that starts with a word split into that word and the words of the text. */
  lemma SplitWsWordSpace(w: string, tail: string)
    requires |w| > 0 && NoSpace(w)
    requires |tail| > 0 && !IsSpace(tail[0])
    ensures SplitWs(w + " " + tail) == [w] + SplitWs(tail)
  {
    var rest := [' '] + tail;
    assert w + " " + tail == w + rest;
    SplitWsOfWordThenRest(w, rest);
    SplitWsAfterSpace(' ', tail);
  }

  lemma JoinWithCons(sep: string, first: string, rest: seq<string>)
    requires |rest| >= 1
    ensures JoinWith(sep, [first] + rest) == first + sep + JoinWith(sep, rest)
  {
    assert ([first] + rest)[1..] == rest;
  }

  /** A join of non-empty parts starts with the first part. */
  lemma JoinWithFirst(sep: string, parts: seq<string>)
    requires |parts| > 0 && |parts[0]| > 0
    ensures |JoinWith(sep, parts)| > 0 && JoinWith(sep, parts)[0] == parts[0][0]
  {
  }

  /** A join whose last part is non-empty ends with that part's last character. */
  lemma {:induction false} JoinWithLast(sep: string, parts: seq<string>)
    requires |parts| > 0 && |parts[|parts| - 1]| > 0
    ensures var j, w := JoinWith(sep, parts), parts[|parts| - 1]; |j| > 0 && j[|j| - 1] == w[|w| - 1]
  {
    if |parts| > 1 {
      JoinWithLast(sep, parts[1..]);
    }
  }

  /** A join of parts lacking a character, on a separator lacking it, lacks it too. */
  lemma {:induction false} JoinWithAvoids(sep: string, parts: seq<string>, c: char)
    requires c !in sep
    requires forall k :: 0 <= k < |parts| ==> c !in parts[k]
    ensures c !in JoinWith(sep, parts)
    decreases |parts|
  {
    if |parts| > 1 {
      JoinWithAvoids(sep, parts[1..], c);
    }
  }

  /** A string that neither starts nor ends with whitespace is its own strip. */
  lemma StripUnchanged(s: string)
    requires |s| == 0 || (!IsSpace(s[0]) && !IsSpace(s[|s| - 1]))
    ensures Strip(s) == s
  {
    assert s[0..0 + |s|] == s;
    assert StrippedAt(s, s, 0);
    var i :| StrippedAt(s, Strip(s), i);
    StrippedUnique(s, Strip(s), i, s, 0);
  }

  /** A blank string strips to the empty string. */
  lemma StripBlank(s: string)
    requires AllSpace(s)
    ensures Strip(s) == ""
  {
  }

  /** Total number of characters in the words. */
  function WordsLength(ws: seq<string>): nat {
    if |ws| == 0 then 0 else |ws[0]| + WordsLength(ws[1..])
  }

  lemma WordsLengthCons(w: string, ws: seq<string>)
    ensures WordsLength([w] + ws) == |w| + WordsLength(ws)
  {
    assert ([w] + ws)[1..] == ws;
  }

  /** Joining n words with single spaces adds n - 1 characters. */
  lemma {:induction false} JoinWithSpaceLength(ws: seq<string>)
    requires |ws| >= 1
    ensures |JoinWith(" ", ws)| == WordsLength(ws) + |ws| - 1
  {
    if |ws| > 1 {
      JoinWithSpaceLength(ws[1..]);
    }
  }

  /** The words of s and one separator between each two of them fit in s. */
  lemma {:induction false} SplitWsLength(s: string)
    ensures WordsLength(SplitWs(s)) + |SplitWs(s)| <= |s| + (if |s| > 0 && !IsSpace(s[0]) then 1 else 0)
    decreases |s|
  {
    var i := LeadingSpace(s);
    if i < |s| {
      var t := s[i..];
      var n := WordLength(t);
      SplitWsLength(t[n..]);
      WordsLengthCons(t[..n], SplitWs(t[n..]));
    }
  }

  predicate OccursAt(s: string, sub: string, i: int) {
    0 <= i && i + |sub| <= |s| && s[i..i + |sub|] == sub
  }

  lemma TakePrefix(p: string, rest: string)
    ensures (p + rest)[..|p|] == p
  {
  }

  lemma DropPrefix(p: string, rest: string)
    ensures (p + rest)[|p|..] == rest
  {
  }

  /** The Python expression `sub in s`. */
  predicate Contains(s: string, sub: string) {
    exists i :: 0 <= i <= |s| && OccursAt(s, sub, i)
  }

  /** str.split(sep): the pieces between the leftmost non-overlapping occurrences of sep. */
  function SplitOn(s: string, sep: string): (parts: seq<string>)
    requires |sep| > 0
    ensures |parts| >= 1
    ensures JoinWith(sep, parts) == s
    ensures |parts[0]| <= |s| && parts[0] == s[..|parts[0]|]
    ensures forall k :: 0 <= k < |parts| ==> !Contains(parts[k], sep)
    decreases |s|
  {
    if |s| < |sep| then
      assert forall i :: !OccursAt(s, sep, i);
      [s]
    else if s[..|sep|] == sep then
      assert forall i :: !OccursAt("", sep, i);
      [""] + SplitOn(s[|sep|..], sep)
    else
      var rest := SplitOn(s[1..], sep);
      var first := [s[0]] + rest[0];
      NotContainsCons(s, sep, rest[0]);
      assert [first] + rest[1..] == [first] + rest[1..];
      [first] + rest[1..]
  }

  lemma NotContainsCons(s: string, sep: string, p: string)
    requires |sep| > 0 && |s| >= |sep| && s[..|sep|] != sep
    requires |p| <= |s| - 1 && p == s[1..][..|p|] && !Contains(p, sep)
    ensures !Contains([s[0]] + p, sep)
  {
    var q := [s[0]] + p;
    forall i | OccursAt(q, sep, i) ensures false {
      if i > 0 {
        assert p[i - 1..i - 1 + |sep|] == q[i..i + |sep|];
        assert OccursAt(p, sep, i - 1);
      }
    }
  }

  /** A string lacking one of sub's characters does not contain sub. */
  lemma MissingCharNotContains(s: string, sub: string, c: char)
    requires c in sub && c !in s
    ensures !Contains(s, sub)
  {
    var j :| 0 <= j < |sub| && sub[j] == c;
    forall i | 0 <= i <= |s| && OccursAt(s, sub, i)
      ensures false
    {
    }
  }

  /** A separator of one character, or of two different characters, cannot overlap itself. */
  predicate SimpleSeparator(sep: string) {
    |sep| == 1 || (|sep| == 2 && sep[0] != sep[1])
  }

  lemma PieceDoesNotStartWithSeparator(p: string, sep: string, rest: string)
    requires SimpleSeparator(sep) && !Contains(p, sep) && |p| > 0
    ensures (p + sep + rest)[..|sep|] != sep
  {
    var s := p + sep + rest;
    if |sep| == 1 {
      assert !OccursAt(p, sep, 0);
    } else if |p| >= 2 {
      assert !OccursAt(p, sep, 0);
      assert s[..2] == p[..2];
    } else {
      assert s[1] == sep[0];
    }
  }

  lemma {:induction false} SplitOnPiece(p: string, sep: string, rest: string)
    requires SimpleSeparator(sep) && !Contains(p, sep)
    ensures SplitOn(p + sep + rest, sep) == [p] + SplitOn(rest, sep)
    decreases |p|
  {
    var s := p + sep + rest;
    if |p| == 0 {
      assert s == sep + rest && s[..|sep|] == sep && s[|sep|..] == rest;
    } else {
      NotContainsTail(p, sep);
      SplitOnPiece(p[1..], sep, rest);
      SplitOnPieceStep(p, sep, rest);
    }
  }

  lemma SplitOnPieceStep(p: string, sep: string, rest: string)
    requires SimpleSeparator(sep) && !Contains(p, sep) && |p| > 0
    requires SplitOn(p[1..] + sep + rest, sep) == [p[1..]] + SplitOn(rest, sep)
    ensures SplitOn(p + sep + rest, sep) == [p] + SplitOn(rest, sep)
  {
    var s := p + sep + rest;
    PieceDoesNotStartWithSeparator(p, sep, rest);
    TailOfPiece(p, sep, rest);
    SplitOnCons(s, sep);
    ConsPiece(p, SplitOn(rest, sep));
  }

  lemma TailOfPiece(p: string, sep: string, rest: string)
    requires |p| > 0
    ensures (p + sep + rest)[1..] == p[1..] + sep + rest && (p + sep + rest)[0] == p[0]
  {
  }

  lemma ConsPiece(p: string, tail: seq<string>)
    requires |p| > 0
    ensures [[p[0]] + ([p[1..]] + tail)[0]] + ([p[1..]] + tail)[1..] == [p] + tail
  {
    assert [p[0]] + p[1..] == p;
  }

  lemma SplitOnCons(s: string, sep: string)
    requires |sep| > 0 && |s| >= |sep| && s[..|sep|] != sep
    ensures SplitOn(s, sep) == [[s[0]] + SplitOn(s[1..], sep)[0]] + SplitOn(s[1..], sep)[1..]
  {
  }

  lemma NotContainsTail(p: string, sep: string)
    requires |p| > 0 && !Contains(p, sep)
    ensures !Contains(p[1..], sep)
  {
    var p' := p[1..];
    forall i | OccursAt(p', sep, i) ensures false {
      assert p[i + 1..i + 1 + |sep|] == p'[i..i + |sep|];
      assert OccursAt(p, sep, i + 1);
    }
  }


  lemma {:induction false} SplitOnWhole(p: string, sep: string)
    requires SimpleSeparator(sep) && !Contains(p, sep)
    ensures SplitOn(p, sep) == [p]
  {
    var r := SplitOn(p, sep);
    if |r| >= 2 {
      JoinOccurs(r, sep);
      assert Contains(p, sep);
    }
    assert JoinWith(sep, r) == r[0];
  }

  lemma JoinOccurs(parts: seq<string>, sep: string)
    requires |parts| >= 2
    ensures OccursAt(JoinWith(sep, parts), sep, |parts[0]|)
  {
    var j := JoinWith(sep, parts);
    var p0, rest := parts[0], JoinWith(sep, parts[1..]);
    assert j == p0 + sep + rest;
    assert j[|p0|..|p0| + |sep|] == sep;
  }

  /** Splitting a join on the same simple separator gives the parts back, if no part contains it. */
  lemma {:induction false} SplitOnJoin(parts: seq<string>, sep: string)
    requires |parts| >= 1 && SimpleSeparator(sep)
    requires forall k :: 0 <= k < |parts| ==> !Contains(parts[k], sep)
    ensures SplitOn(JoinWith(sep, parts), sep) == parts
  {
    if |parts| == 1 {
      SplitOnWhole(parts[0], sep);
    } else {
      SplitOnJoin(parts[1..], sep);
      SplitOnPiece(parts[0], sep, JoinWith(sep, parts[1..]));
      assert [parts[0]] + parts[1..] == parts;
    }
  }

  // ---------------------------------------------------------------------------
  // Decimal integers

  predicate IsDigit(c: char) { '0' <= c <= '9' }

  predicate AllDigits(s: string) { forall k :: 0 <= k < |s| ==> IsDigit(s[k]) }

  function DigitChar(d: nat): (c: char)
    requires d < 10
    ensures IsDigit(c) && c as int - '0' as int == d
  {
    ('0' as int + d) as char
  }

  /** str(n) for a non-negative integer: its decimal digits, without leading zeros. */
  function NatToStr(n: nat): (r: string)
    ensures |r| >= 1 && AllDigits(r)
    ensures r[0] != '0' || n == 0
    ensures DigitsValue(r) == n
  {
    if n < 10 then [DigitChar(n)]
    else
      var r := NatToStr(n / 10) + [DigitChar(n % 10)];
      assert r[..|r| - 1] == NatToStr(n / 10);
      r
  }

  /** The number written by a string of decimal digits (leading zeros allowed). */
  function DigitsValue(s: string): nat
    requires AllDigits(s)
  {
    if |s| == 0 then 0 else DigitsValue(s[..|s| - 1]) * 10 + (s[|s| - 1] as int - '0' as int)
  }

  /** str(i) for any integer. */
  function IntToStr(i: int): string {
    if i < 0 then "-" + NatToStr(-i) else NatToStr(i)
  }

  function Zeros(k: int): (r: string)
    ensures |r| == if k < 0 then 0 else k
    ensures forall j :: 0 <= j < |r| ==> r[j] == '0'
  {
    if k <= 0 then "" else Zeros(k - 1) + "0"
  }

  lemma {:induction false} LeadingZerosValue(k: int, d: string)
    requires AllDigits(d)
    ensures AllDigits(Zeros(k) + d) && DigitsValue(Zeros(k) + d) == DigitsValue(d)
    decreases |d|
  {
    var s := Zeros(k) + d;
    if |d| == 0 {
      assert s == Zeros(k);
      ZerosValue(k);
    } else {
      LeadingZerosValue(k, d[..|d| - 1]);
      assert s[..|s| - 1] == Zeros(k) + d[..|d| - 1];
    }
  }

  lemma {:induction false} ZerosValue(k: int)
    ensures AllDigits(Zeros(k)) && DigitsValue(Zeros(k)) == 0
    decreases k
  {
    if k > 0 {
      ZerosValue(k - 1);
      var z := Zeros(k);
      assert z[..|z| - 1] == Zeros(k - 1);
    }
  }

  /** '{:0<width>d}'.format(n) for a non-negative n: the digits of n, left-padded with zeros to width. */
  function ZeroPadNat(n: nat, width: int): (r: string)
    ensures |r| == if |NatToStr(n)| < width then width else |NatToStr(n)|
    ensures AllDigits(r) && DigitsValue(r) == n
  {
    LeadingZerosValue(width - |NatToStr(n)|, NatToStr(n));
    Zeros(width - |NatToStr(n)|) + NatToStr(n)
  }

  /** '{:0<width>d}'.format(i) for any integer: a minus sign comes first and counts towards the width. */
  function ZeroPadInt(i: int, width: int): (r: string)
    ensures i >= 0 ==> r == ZeroPadNat(i, width)
    ensures i < 0 ==> |r| >= 2 && r[0] == '-' && AllDigits(r[1..]) && DigitsValue(r[1..]) == -i
  {
    if i < 0 then
      var d := ZeroPadNat(-i, width - 1);
      assert ("-" + d)[1..] == d;
      "-" + d
    else ZeroPadNat(i, width)
  }

  /** Length of the run of decimal digits at the start of s. */
  function DigitSpan(s: string): (n: nat)
    ensures n <= |s| && AllDigits(s[..n])
    ensures n == |s| || !IsDigit(s[n])
  {
    if |s| == 0 || !IsDigit(s[0]) then 0
    else
      var m := DigitSpan(s[1..]);
      assert forall k :: 1 <= k < 1 + m ==> s[k] == s[1..][k - 1];
      1 + m
  }

  lemma {:induction false} DigitSpanOf(d: string, rest: string)
    requires AllDigits(d)
    requires |rest| == 0 || !IsDigit(rest[0])
    ensures DigitSpan(d + rest) == |d|
    decreases |d|
  {
    if |d| == 0 {
      assert d + rest == rest;
    } else {
      DigitSpanOf(d[1..], rest);
      assert (d + rest)[1..] == d[1..] + rest;
    }
  }
}
