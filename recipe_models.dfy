/**
 * The harmonization recipe models of recipes/models.py: the two field
 * validators, the parser of the encoded-values text, and the rule that a
 * creator's recipes have distinct names.
 */
module RecipeModels {
  import opened Wrappers
  import opened PyStr

  // ---------------------------------------------------------------------------
  // Validators (RegexValidator uses re.search, where '$' also matches just
  // before a final "\n", and '.' matches anything but "\n").

  predicate IsWordChar(c: char) {
    ('0' <= c <= '9') || ('a' <= c <= 'z') || ('A' <= c <= 'Z') || c == '_'
  }

  predicate AllWordChars(s: string) {
    forall k :: 0 <= k < |s| ==> IsWordChar(s[k])
  }

  /** s without one final "\n", the part '$' lets a pattern cover. */
  function BeforeFinalNewline(s: string): (t: string)
    ensures t == s || (|s| > 0 && s[|s| - 1] == '\n' && t == s[..|s| - 1])
  {
    if |s| > 0 && s[|s| - 1] == '\n' then s[..|s| - 1] else s
  }

  /**
   * validate_alphanumeric_underscore, '^[0-9a-zA-Z_]*$': letters, digits
   * and underscores, with one final newline let through by '$'.
   */
  predicate AlphanumericUnderscore(s: string) {
    AllWordChars(BeforeFinalNewline(s))
  }

  /** The field validator accepts exactly the strings of letters, digits and underscores, and those followed by one "\n". */
  lemma AlphanumericUnderscoreAccepts(s: string)
    ensures AlphanumericUnderscore(s) <==>
              AllWordChars(s) || (|s| > 0 && s[|s| - 1] == '\n' && AllWordChars(s[..|s| - 1]))
  {
    if |s| > 0 && s[|s| - 1] == '\n' {
      assert !IsWordChar(s[|s| - 1]);
    }
  }

  /** A line of the encoded-values pattern: '.*: .*', any text without "\n" that contains ": ". */
  predicate EncodedLine(line: string) {
    Contains(line, ": ") && !Contains(line, "\n")
  }

  /**
   * validate_encoded_values, '^(.*: .*\n)*(.*: .*)$': "\n"-separated lines
   * each holding ": ", with one final "\n" allowed. A blank field is never
   * validated.
   */
  predicate EncodedValuesValid(s: string) {
    s == "" || forall line :: line in SplitOn(BeforeFinalNewline(s), "\n") ==> Contains(line, ": ")
  }

  /** A non-empty string in which the one-character string [c] does not occur does not end with c. */
  lemma LastCharOf(s: string, c: char)
    requires |s| > 0 && !Contains(s, [c])
    ensures s[|s| - 1] != c
  {
    assert !OccursAt(s, [c], |s| - 1);
    assert s[|s| - 1..|s|] == [s[|s| - 1]];
  }

  /** A join of lines whose last line contains ": " and no "\n" does not end with "\n". */
  lemma JoinedLinesEnd(lines: seq<string>)
    requires |lines| >= 1 && EncodedLine(lines[|lines| - 1])
    ensures BeforeFinalNewline(JoinWith("\n", lines)) == JoinWith("\n", lines)
  {
    var last := lines[|lines| - 1];
    var i :| 0 <= i <= |last| && OccursAt(last, ": ", i);
    LastCharOf(last, '\n');
    JoinWithLast("\n", lines);
  }

  /** Lines in the documented "value: description" form, joined by "\n", pass the validator. */
  lemma EncodedValuesAcceptsLines(lines: seq<string>)
    requires |lines| >= 1
    requires forall k :: 0 <= k < |lines| ==> EncodedLine(lines[k])
    ensures EncodedValuesValid(JoinWith("\n", lines))
  {
    JoinedLinesEnd(lines);
    SplitOnJoin(lines, "\n");
  }

  /** A single line without "\n" that lacks one of the characters of ": " is refused. */
  lemma OneLineRejected(s: string, c: char)
    requires |s| > 0 && '\n' !in s && c in ": " && c !in s
    ensures !EncodedValuesValid(s)
  {
    assert s[|s| - 1] in s;
    MissingCharNotContains(s, "\n", '\n');
    SplitOnWhole(s, "\n");
    MissingCharNotContains(s, ": ", c);
  }

  /** "1:blue" lacks the space after the colon and is refused. */
  lemma EncodedValuesRejectsNoSpace()
    ensures !EncodedValuesValid("1:blue")
  {
    OneLineRejected("1:blue", ' ');
  }

  /** "1- blue" has no colon and is refused. */
  lemma EncodedValuesRejectsDash()
    ensures !EncodedValuesValid("1- blue")
  {
    OneLineRejected("1- blue", ':');
  }

  /** A category may contain spaces: "dark blue: 1" is accepted. */
  lemma EncodedValuesAcceptsSpacedCategory()
    ensures EncodedValuesValid("dark blue: 1")
  {
    var s := "dark blue: 1";
    assert OccursAt(s, ": ", 9);
    MissingCharNotContains(s, "\n", '\n');
    EncodedValuesAcceptsLines([s]);
  }

  // ---------------------------------------------------------------------------
  // get_encoded_values_dict

  /** dict() given an element that does not split into exactly two parts. */
  datatype ValueError = ValueError

  /** Every line splits on ": " into exactly two parts. */
  predicate PairLines(lines: seq<string>) {
    forall k :: 0 <= k < |lines| ==> |SplitOn(lines[k], ": ")| == 2
  }

  /** One (category, value) pair per line, or ValueError at the first line without exactly one ": ". */
  function LinePairs(lines: seq<string>): (r: Result<seq<(string, string)>, ValueError>)
    ensures r.Ok? <==> PairLines(lines)
    ensures r.Ok? ==> |r.value| == |lines|
                      && forall k :: 0 <= k < |lines| ==>
                           [r.value[k].0, r.value[k].1] == SplitOn(lines[k], ": ")
                           && r.value[k].0 + ": " + r.value[k].1 == lines[k]
  {
    if |lines| == 0 then Ok([])
    else
      var parts := SplitOn(lines[0], ": ");
      if |parts| != 2 then Err(ValueError)
      else match LinePairs(lines[1..])
        case Err(e) => Err(e)
        case Ok(rest) =>
          assert JoinWith(": ", parts) == parts[0] + ": " + parts[1];
          Ok([(parts[0], parts[1])] + rest)
  }

  /** dict(pairs): every category present, each with the value of its last occurrence. */
  function PairsToDict(pairs: seq<(string, string)>): (m: map<string, string>)
    ensures forall c :: c in m <==> exists i :: 0 <= i < |pairs| && pairs[i].0 == c
    ensures forall i :: 0 <= i < |pairs| && (forall j :: i < j < |pairs| ==> pairs[j].0 != pairs[i].0) ==>
              m[pairs[i].0] == pairs[i].1
  {
    if |pairs| == 0 then map[]
    else
      var init, last := pairs[..|pairs| - 1], pairs[|pairs| - 1];
      var m := PairsToDict(init);
      assert pairs == init + [last];
      DictStep(init, last, m);
      m[last.0 := last.1]
  }

  /** Adding one more pair to the dict keeps it the dict of the longer list. */
  lemma DictStep(init: seq<(string, string)>, last: (string, string), m: map<string, string>)
    requires forall c :: c in m <==> exists i :: 0 <= i < |init| && init[i].0 == c
    requires forall i :: 0 <= i < |init| && (forall j :: i < j < |init| ==> init[j].0 != init[i].0) ==>
               m[init[i].0] == init[i].1
    ensures var pairs, m2 := init + [last], m[last.0 := last.1];
            (forall c :: c in m2 <==> exists i :: 0 <= i < |pairs| && pairs[i].0 == c)
            && forall i :: 0 <= i < |pairs| && (forall j :: i < j < |pairs| ==> pairs[j].0 != pairs[i].0) ==>
                 m2[pairs[i].0] == pairs[i].1
  {
    var pairs, m2 := init + [last], m[last.0 := last.1];
    assert pairs[|init|] == last;
    forall c | c in m2
      ensures exists i :: 0 <= i < |pairs| && pairs[i].0 == c
    {
      if c != last.0 {
        var i :| 0 <= i < |init| && init[i].0 == c;
        assert pairs[i] == init[i];
      }
    }
    forall i | 0 <= i < |init|
      ensures pairs[i] == init[i]
    {
    }
  }

  /**
   * HarmonizationRecipe.get_encoded_values_dict: the text split into
   * "\r\n"-separated lines and each line on ": ".
   */
  function EncodedValuesDict(text: string): (r: Result<map<string, string>, ValueError>)
    ensures r.Ok? <==> PairLines(SplitOn(text, "\r\n"))
  {
    var lp := LinePairs(SplitOn(text, "\r\n"));
    if lp.Err? then Err(ValueError) else Ok(PairsToDict(lp.value))
  }

  /** An empty definition is one line with no ": ", so parsing it fails. */
  lemma EncodedValuesDictOfEmpty()
    ensures EncodedValuesDict("") == Err(ValueError)
  {
    SplitOnWhole("", "\r\n");
    SplitOnWhole("", ": ");
  }

  /** The "category: value" line of one pair. */
  function EncodedLineOf(pair: (string, string)): string {
    pair.0 + ": " + pair.1
  }

  /** Pairs written one per line, "\r\n"-separated, as a browser submits the text area. */
  function EncodeValues(pairs: seq<(string, string)>): string {
    JoinWith("\r\n", seq(|pairs|, i requires 0 <= i < |pairs| => EncodedLineOf(pairs[i])))
  }

  /** Neither part of a pair holds a separator. */
  predicate CleanPair(pair: (string, string)) {
    !Contains(pair.0, ": ") && !Contains(pair.1, ": ") && !Contains(pair.0, "\r\n") && !Contains(pair.1, "\r\n")
  }

  /** A line built from clean parts holds no "\r\n". */
  lemma EncodedLineHasNoBreak(pair: (string, string))
    requires CleanPair(pair)
    ensures !Contains(EncodedLineOf(pair), "\r\n")
  {
    var a, b := pair.0, pair.1;
    var line := EncodedLineOf(pair);
    forall i | 0 <= i <= |line|
      ensures !OccursAt(line, "\r\n", i)
    {
      if i + 2 <= |a| {
        assert !OccursAt(a, "\r\n", i);
        assert line[i..i + 2] == a[i..i + 2];
      } else if i >= |a| + 2 {
        assert !OccursAt(b, "\r\n", i - |a| - 2);
        assert line[i..] == b[i - |a| - 2..];
      } else if i + 2 <= |line| {
        assert line[i] == ':' || line[i] == ' ' || line[i + 1] == ':';
      }
    }
  }

  /** The line of a clean pair has no "\r\n" and splits back into the pair. */
  lemma EncodedLineSplits(pair: (string, string))
    requires CleanPair(pair)
    ensures !Contains(EncodedLineOf(pair), "\r\n")
    ensures SplitOn(EncodedLineOf(pair), ": ") == [pair.0, pair.1]
  {
    EncodedLineHasNoBreak(pair);
    assert JoinWith(": ", [pair.0, pair.1]) == EncodedLineOf(pair);
    SplitOnJoin([pair.0, pair.1], ": ");
  }

  /** Pairs whose parts are the split lines are the pairs the lines were written from. */
  lemma PairsFromParts(v: seq<(string, string)>, pairs: seq<(string, string)>, lines: seq<string>)
    requires |v| == |lines| == |pairs|
    requires forall k :: 0 <= k < |lines| ==> [v[k].0, v[k].1] == SplitOn(lines[k], ": ")
    requires forall k :: 0 <= k < |lines| ==> SplitOn(lines[k], ": ") == [pairs[k].0, pairs[k].1]
    ensures v == pairs
  {
    forall k | 0 <= k < |pairs|
      ensures v[k] == pairs[k]
    {
      SamePair(v[k], pairs[k]);
    }
  }

  lemma SamePair(p: (string, string), q: (string, string))
    requires [p.0, p.1] == [q.0, q.1]
    ensures p == q
  {
    assert p.0 == [p.0, p.1][0] && p.1 == [p.0, p.1][1];
  }

  lemma LinePairsOfLines(pairs: seq<(string, string)>, lines: seq<string>)
    requires |lines| == |pairs|
    requires forall k :: 0 <= k < |lines| ==> SplitOn(lines[k], ": ") == [pairs[k].0, pairs[k].1]
    ensures LinePairs(lines) == Ok(pairs)
  {
    assert PairLines(lines);
    PairsFromParts(LinePairs(lines).value, pairs, lines);
  }

  /** Writing clean pairs out and parsing the text gives the dict of those pairs, the last occurrence of a category winning. */
  lemma EncodedValuesRoundTrip(pairs: seq<(string, string)>)
    requires |pairs| >= 1
    requires forall i :: 0 <= i < |pairs| ==> CleanPair(pairs[i])
    ensures EncodedValuesDict(EncodeValues(pairs)) == Ok(PairsToDict(pairs))
  {
    var lines := seq(|pairs|, i requires 0 <= i < |pairs| => EncodedLineOf(pairs[i]));
    forall k | 0 <= k < |lines|
      ensures !Contains(lines[k], "\r\n")
      ensures SplitOn(lines[k], ": ") == [pairs[k].0, pairs[k].1]
    {
      EncodedLineSplits(pairs[k]);
    }
    SplitOnJoin(lines, "\r\n");
    LinePairsOfLines(pairs, lines);
  }

  // ---------------------------------------------------------------------------
  // unique_together (creator, name)

  datatype RecipeError = IntegrityError

  /** Another row than pk already has this creator and name. */
  predicate NameTaken(names: map<nat, (nat, string)>, creator: nat, name: string, pk: Option<nat>) {
    exists k :: k in names && names[k] == (creator, name) && (pk.None? || k != pk.value)
  }

  predicate UniqueCreatorNames(names: map<nat, (nat, string)>) {
    forall k1, k2 :: k1 in names && k2 in names && names[k1] == names[k2] ==> k1 == k2
  }

  /** The (creator, name) columns of the UnitRecipe and HarmonizationRecipe tables. */
  class RecipeStore {
    var units: map<nat, (nat, string)>
    var harmonizationRecipes: map<nat, (nat, string)>
    var nextPk: nat

    ghost predicate Valid()
      reads this
    {
      (forall k :: k in units ==> k < nextPk) && (forall k :: k in harmonizationRecipes ==> k < nextPk)
      && UniqueCreatorNames(units) && UniqueCreatorNames(harmonizationRecipes)
    }

    constructor ()
      ensures Valid() && units == map[] && harmonizationRecipes == map[]
    {
      units, harmonizationRecipes, nextPk := map[], map[], 0;
    }

    /** Saving a UnitRecipe row: refused when the creator already has another unit of that name. */
    method SaveUnit(pk: Option<nat>, creator: nat, name: string) returns (r: Result<nat, RecipeError>)
      requires Valid()
      modifies this`units, this`nextPk
      ensures Valid()
      ensures r.Ok? <==> !NameTaken(old(units), creator, name, pk)
      ensures r.Ok? ==> units == old(units)[r.value := (creator, name)]
      ensures r.Ok? && pk.Some? ==> r.value == pk.value
      ensures r.Ok? && pk.None? ==> r.value !in old(units)
      ensures r.Err? ==> units == old(units)
    {
      if exists k :: k in units && units[k] == (creator, name) && (pk.None? || k != pk.value) {
        return Err(IntegrityError);
      }
      var key := if pk.Some? then pk.value else nextPk;
      units := units[key := (creator, name)];
      if key >= nextPk {
        nextPk := key + 1;
      }
      r := Ok(key);
    }

    /** Saving a HarmonizationRecipe row: refused when the creator already has another recipe of that name. */
    method SaveHarmonizationRecipe(pk: Option<nat>, creator: nat, name: string) returns (r: Result<nat, RecipeError>)
      requires Valid()
      modifies this`harmonizationRecipes, this`nextPk
      ensures Valid()
      ensures r.Ok? <==> !NameTaken(old(harmonizationRecipes), creator, name, pk)
      ensures r.Ok? ==> harmonizationRecipes == old(harmonizationRecipes)[r.value := (creator, name)]
      ensures r.Ok? && pk.Some? ==> r.value == pk.value
      ensures r.Ok? && pk.None? ==> r.value !in old(harmonizationRecipes)
      ensures r.Err? ==> harmonizationRecipes == old(harmonizationRecipes)
    {
      if exists k :: k in harmonizationRecipes && harmonizationRecipes[k] == (creator, name) && (pk.None? || k != pk.value) {
        return Err(IntegrityError);
      }
      var key := if pk.Some? then pk.value else nextPk;
      harmonizationRecipes := harmonizationRecipes[key := (creator, name)];
      if key >= nextPk {
        nextPk := key + 1;
      }
      r := Ok(key);
    }
  }
}
