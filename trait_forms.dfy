/**
 * The search forms of trait_browser/forms.py: the description field that
 * drops short words, and the form-level rule that name or description must
 * be filled in.
 */
module TraitForms {
  import opened Wrappers
  import opened PyStr
  import Seqs

  const ERROR_ONLY_SHORT_WORDS := "Only short words entered."
  const ERROR_NAME_OR_DESCRIPTION := "Either variable name or description must be filled in."
  /** max_length of the name and description fields. */
  const MAX_LENGTH := 100

  datatype FieldError = MaxLengthExceeded | OnlyShortWords

  /** forms.CharField(max_length=100, required=False).clean: the value stripped, refused when longer than 100. */
  function CleanCharField(value: string): (r: Result<string, FieldError>)
    ensures r.Ok? <==> |Strip(value)| <= MAX_LENGTH
    ensures r.Ok? ==> r.value == Strip(value)
    ensures r.Err? ==> r.error == MaxLengthExceeded
  {
    var data := Strip(value);
    if |data| > MAX_LENGTH then Err(MaxLengthExceeded) else Ok(data)
  }

  predicate IsShortWord(w: string) { |w| < 3 }
  predicate IsLongWord(w: string) { |w| >= 3 }

  /** The condition "word not in short_words". */
  function NotIn(short: seq<string>): string -> bool {
    w => w !in short
  }

  /** short_words, then long_words as the words not among the short ones. */
  function LongWords(words: seq<string>): seq<string> {
    Seqs.Filter(words, NotIn(Seqs.Filter(words, IsShortWord)))
  }

  /** Not being among the short words is the same as being at least three characters long. */
  lemma LongWordsAreLong(words: seq<string>)
    ensures LongWords(words) == Seqs.Filter(words, IsLongWord)
  {
    var short := Seqs.Filter(words, IsShortWord);
    forall x | x in words
      ensures NotIn(short)(x) == IsLongWord(x)
    {
    }
    Seqs.FilterAgree(words, NotIn(short), IsLongWord);
  }

  /**
   * WatsonSearchField.clean: the words of the cleaned value, only the
   * ones of three or more characters kept, joined by single spaces; an
   * error when there were words and all of them were short.
   */
  function CleanDescription(value: string): (r: Result<string, FieldError>)
    ensures r == Err(MaxLengthExceeded) <==> |Strip(value)| > MAX_LENGTH
    ensures r == Err(OnlyShortWords) <==>
              |Strip(value)| <= MAX_LENGTH && |SplitWs(Strip(value))| > 0
              && forall k :: 0 <= k < |SplitWs(Strip(value))| ==> IsShortWord(SplitWs(Strip(value))[k])
    ensures r.Ok? ==> SplitWs(r.value) == Seqs.Filter(SplitWs(Strip(value)), IsLongWord)
  {
    match CleanCharField(value)
    case Err(e) => Err(e)
    case Ok(data) =>
      var words := SplitWs(data);
      var long := LongWords(words);
      LongWordsFacts(words);
      if |words| > 0 && |long| == 0 then Err(OnlyShortWords)
      else Ok(JoinWith(" ", long))
  }

  lemma LongWordsFacts(words: seq<string>)
    requires forall k :: 0 <= k < |words| ==> |words[k]| > 0 && NoSpace(words[k])
    ensures |words| > 0 && |LongWords(words)| == 0 <==>
              |words| > 0 && forall k :: 0 <= k < |words| ==> IsShortWord(words[k])
    ensures SplitWs(JoinWith(" ", LongWords(words))) == Seqs.Filter(words, IsLongWord)
  {
    var long := LongWords(words);
    LongWordsAreLong(words);
    assert forall k :: 0 <= k < |words| ==> words[k] in words;
    assert forall k :: 0 <= k < |long| ==> long[k] in words;
    SplitWsJoin(long);
  }

  /** Blank or whitespace-only input cleans to "" without an error. */
  lemma CleanDescriptionBlank(value: string)
    requires AllSpace(value)
    ensures CleanDescription(value) == Ok("")
  {
    StripBlank(value);
  }

  /** A joined list of non-empty, space-free words is unchanged by strip and no longer than its source. */
  lemma JoinedWordsStripped(long: seq<string>)
    requires forall k :: 0 <= k < |long| ==> |long[k]| > 0 && NoSpace(long[k])
    ensures Strip(JoinWith(" ", long)) == JoinWith(" ", long)
  {
    if |long| > 0 {
      JoinWithFirst(" ", long);
      JoinWithLast(" ", long);
    }
    StripUnchanged(JoinWith(" ", long));
  }

  /** Dropping words never makes the rejoined text longer than the stripped input. */
  lemma CleanedNoLonger(data: string)
    requires Strip(data) == data
    ensures |JoinWith(" ", Seqs.Filter(SplitWs(data), IsLongWord))| <= |data|
  {
    var words := SplitWs(data);
    var long := Seqs.Filter(words, IsLongWord);
    if |long| > 0 {
      JoinWithSpaceLength(long);
      FilterWordsLength(words);
      SplitWsLength(data);
      var i :| StrippedAt(data, data, i);
      StripHead(data, i);
    }
  }

  lemma StripHead(data: string, i: int)
    requires StrippedAt(data, data, i) && |data| > 0
    ensures !IsSpace(data[0])
  {
  }

  lemma {:induction false} FilterWordsLength(ws: seq<string>)
    ensures WordsLength(Seqs.Filter(ws, IsLongWord)) + |Seqs.Filter(ws, IsLongWord)| <= WordsLength(ws) + |ws|
  {
    if |ws| > 0 {
      FilterWordsLength(ws[1..]);
      var rest := Seqs.Filter(ws[1..], IsLongWord);
      if IsLongWord(ws[0]) {
        assert Seqs.Filter(ws, IsLongWord) == [ws[0]] + rest;
        WordsLengthCons(ws[0], rest);
      } else {
        assert Seqs.Filter(ws, IsLongWord) == [] + rest == rest;
      }
    }
  }

  /** Cleaning an already cleaned description gives it back unchanged. */
  lemma CleanDescriptionIdempotent(value: string)
    requires CleanDescription(value).Ok?
    ensures CleanDescription(CleanDescription(value).value) == CleanDescription(value)
  {
    var x := CleanDescription(value).value;
    var long := CleanedWords(value);
    assert CleanCharField(x) == Ok(x);
    LongWordsAreLong(long);
    Seqs.FilterIdempotent(SplitWs(Strip(value)), IsLongWord);
    assert LongWords(long) == long;
  }

  /** The cleaned text is stripped, within the limit, and the join of its own words, which are the long input words. */
  lemma CleanedWords(value: string) returns (long: seq<string>)
    requires CleanDescription(value).Ok?
    ensures long == Seqs.Filter(SplitWs(Strip(value)), IsLongWord)
    ensures var x := CleanDescription(value).value;
            Strip(x) == x && |x| <= MAX_LENGTH && SplitWs(x) == long && x == JoinWith(" ", long)
  {
    var data := Strip(value);
    long := CleanedIsJoin(value);
    StripIdempotent(value);
    CleanedNoLonger(data);
    LongWordsPlain(SplitWs(data));
    JoinedWordsStripped(long);
  }

  /** The cleaned text is the long words of the stripped input joined by single spaces. */
  lemma CleanedIsJoin(value: string) returns (long: seq<string>)
    requires CleanDescription(value).Ok?
    ensures long == Seqs.Filter(SplitWs(Strip(value)), IsLongWord)
    ensures CleanDescription(value).value == JoinWith(" ", long)
  {
    var words := SplitWs(Strip(value));
    long := Seqs.Filter(words, IsLongWord);
    LongWordsAreLong(words);
  }

  /** The long words among non-empty, space-free words are non-empty and space-free. */
  lemma LongWordsPlain(words: seq<string>)
    requires forall k :: 0 <= k < |words| ==> |words[k]| > 0 && NoSpace(words[k])
    ensures var long := Seqs.Filter(words, IsLongWord);
            forall k :: 0 <= k < |long| ==> |long[k]| > 0 && NoSpace(long[k])
  {
    var long := Seqs.Filter(words, IsLongWord);
    assert forall w :: w in words ==> |w| > 0 && NoSpace(w);
    assert forall k :: 0 <= k < |long| ==> long[k] in words;
  }

  /** The errors of one search form submission: per field, then the form-wide ones. */
  datatype SearchFormErrors = SearchFormErrors(name: seq<FieldError>, description: seq<FieldError>, form: seq<string>)

  /**
   * SourceTraitSearchForm.clean and HarmonizedTraitSearchForm.clean: each
   * field is cleaned on its own, and only when both succeeded and both
   * came out empty is the form-wide error raised.
   */
  function SearchFormClean(name: string, description: string): (r: SearchFormErrors)
    ensures r.name == [] <==> CleanCharField(name).Ok?
    ensures r.description == [] <==> CleanDescription(description).Ok?
    ensures r.form == [] || r.form == [ERROR_NAME_OR_DESCRIPTION]
    ensures r.form == [ERROR_NAME_OR_DESCRIPTION] <==>
              CleanCharField(name) == Ok("") && CleanDescription(description) == Ok("")
  {
    var n := CleanCharField(name);
    var d := CleanDescription(description);
    SearchFormErrors(
      if n.Err? then [n.error] else [],
      if d.Err? then [d.error] else [],
      if n == Ok("") && d == Ok("") then [ERROR_NAME_OR_DESCRIPTION] else [])
  }

  predicate SearchFormValid(name: string, description: string) {
    SearchFormClean(name, description) == SearchFormErrors([], [], [])
  }

  /**
   * The form is valid exactly when both fields clean and at least one is
   * non-empty; a description of only short words with a blank name gets the
   * field error, not the form-wide one.
   */
  lemma SearchFormValidity(name: string, description: string)
    ensures SearchFormValid(name, description) <==>
              CleanCharField(name).Ok? && CleanDescription(description).Ok?
              && (|Strip(name)| > 0 || CleanDescription(description).value != "")
    ensures AllSpace(name) && CleanDescription(description) == Err(OnlyShortWords) ==>
              SearchFormClean(name, description) == SearchFormErrors([], [OnlyShortWords], [])
  {
    if AllSpace(name) {
      StripBlank(name);
    }
  }
}
