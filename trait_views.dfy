/**
 * The request-level rules of trait_browser/views.py: the substring search
 * with its study and deprecation filters, the tagging permission, the
 * accession and flavor-name autocompletes, and the record of past searches
 * with its counter.
 */
module TraitViews {
  import opened Wrappers
  import opened PyStr
  import Seqs
  import opened TraitModels
  import opened TraitQuerysets

  // ---------------------------------------------------------------------------
  // search()

  /** search() names its result only in the two known branches; any other trait type leaves it unbound. */
  datatype SearchError = UnboundLocalError

  datatype SearchResults =
    | SourceResults(sourceTraits: seq<SourceTraitRow>)
    | HarmonizedResults(harmonizedTraits: seq<HarmonizedTraitRow>)

  /** Q(i_description__contains=q) | Q(i_trait_name__contains=q). */
  predicate TextMatches(name: string, description: string, q: string) {
    Contains(description, q) || Contains(name, q)
  }

  function InStudies(studyPks: seq<nat>): SourceTraitRow -> bool {
    (t: SourceTraitRow) => t.study in studyPks
  }

  function CurrentAndMatching(q: string): SourceTraitRow -> bool {
    (t: SourceTraitRow) => !t.versionDeprecated && TextMatches(t.traitName, t.description, q)
  }

  function HarmonizedMatching(q: string): HarmonizedTraitRow -> bool {
    (h: HarmonizedTraitRow) => TextMatches(h.traitName, h.description, q)
  }

  /**
   * search(): source traits of the given studies (of every study when the
   * list is empty) from non-deprecated study versions whose name or
   * description contains the query; harmonized traits whose name or
   * description contains it, with no other filter.
   */
  function Search(q: string, traitType: string, studyPks: seq<nat>,
                  sourceTraits: seq<SourceTraitRow>, harmonizedTraits: seq<HarmonizedTraitRow>)
    : (r: Result<SearchResults, SearchError>)
    ensures traitType == "source" ==>
              r.Ok? && r.value.SourceResults?
              && forall t :: t in r.value.sourceTraits <==>
                   t in sourceTraits && (|studyPks| == 0 || t.study in studyPks)
                   && !t.versionDeprecated && TextMatches(t.traitName, t.description, q)
    ensures traitType == "harmonized" ==>
              r.Ok? && r.value.HarmonizedResults?
              && forall h :: h in r.value.harmonizedTraits <==>
                   h in harmonizedTraits && TextMatches(h.traitName, h.description, q)
    ensures traitType != "source" && traitType != "harmonized" ==> r == Err(UnboundLocalError)
  {
    if traitType == "source" then
      var traits := if |studyPks| == 0 then sourceTraits else Seqs.Filter(sourceTraits, InStudies(studyPks));
      Ok(SourceResults(Seqs.Filter(traits, CurrentAndMatching(q))))
    else if traitType == "harmonized" then
      Ok(HarmonizedResults(Seqs.Filter(harmonizedTraits, HarmonizedMatching(q))))
    else Err(UnboundLocalError)
  }

  /** Restricting a source search to some studies only ever removes results of the search over all studies. */
  lemma SearchStudiesNarrow(q: string, studyPks: seq<nat>, sourceTraits: seq<SourceTraitRow>)
    ensures forall t :: t in Search(q, "source", studyPks, sourceTraits, []).value.sourceTraits ==>
                          t in Search(q, "source", [], sourceTraits, []).value.sourceTraits
                          && t in CurrentSourceTraits(sourceTraits)
  {
  }

  /** The case-insensitive match the docstring of search() promises. */
  predicate TextMatchesIgnoringCase(name: string, description: string, q: string) {
    TextMatches(Lower(name), Lower(description), Lower(q))
  }

  /** The case-insensitive filters, given the lower-cased query. */
  function CurrentAndMatchingLowered(lq: string): SourceTraitRow -> bool {
    (t: SourceTraitRow) => !t.versionDeprecated && TextMatches(Lower(t.traitName), Lower(t.description), lq)
  }

  function HarmonizedMatchingLowered(lq: string): HarmonizedTraitRow -> bool {
    (h: HarmonizedTraitRow) => TextMatches(Lower(h.traitName), Lower(h.description), lq)
  }

  /**
   * search() as its docstring describes it: the same filters, with the
   * name and description matched regardless of case.
   */
  function SearchIgnoringCase(q: string, traitType: string, studyPks: seq<nat>,
                              sourceTraits: seq<SourceTraitRow>, harmonizedTraits: seq<HarmonizedTraitRow>)
    : (r: Result<SearchResults, SearchError>)
    ensures traitType == "source" ==>
              r.Ok? && r.value.SourceResults?
              && forall t :: t in r.value.sourceTraits <==>
                   t in sourceTraits && (|studyPks| == 0 || t.study in studyPks)
                   && !t.versionDeprecated && TextMatchesIgnoringCase(t.traitName, t.description, q)
    ensures traitType == "harmonized" ==>
              r.Ok? && r.value.HarmonizedResults?
              && forall h :: h in r.value.harmonizedTraits <==>
                   h in harmonizedTraits && TextMatchesIgnoringCase(h.traitName, h.description, q)
    ensures traitType != "source" && traitType != "harmonized" ==> r == Err(UnboundLocalError)
  {
    if traitType == "source" then
      var traits := if |studyPks| == 0 then sourceTraits else Seqs.Filter(sourceTraits, InStudies(studyPks));
      Ok(SourceResults(Seqs.Filter(traits, CurrentAndMatchingLowered(Lower(q)))))
    else if traitType == "harmonized" then
      Ok(HarmonizedResults(Seqs.Filter(harmonizedTraits, HarmonizedMatchingLowered(Lower(q)))))
    else Err(UnboundLocalError)
  }

  /** The case of the query does not change what the case-insensitive search finds. */
  lemma SearchIgnoresQueryCase(q: string, traitType: string, studyPks: seq<nat>,
                               sourceTraits: seq<SourceTraitRow>, harmonizedTraits: seq<HarmonizedTraitRow>)
    ensures SearchIgnoringCase(Lower(q), traitType, studyPks, sourceTraits, harmonizedTraits)
            == SearchIgnoringCase(q, traitType, studyPks, sourceTraits, harmonizedTraits)
  {
    LowerIdempotent(q);
  }

  /** Everything search() finds, the case-insensitive search finds too. */
  lemma SearchIgnoringCaseWidens(q: string, traitType: string, studyPks: seq<nat>,
                                 sourceTraits: seq<SourceTraitRow>, harmonizedTraits: seq<HarmonizedTraitRow>)
    ensures var r := Search(q, traitType, studyPks, sourceTraits, harmonizedTraits);
            var r2 := SearchIgnoringCase(q, traitType, studyPks, sourceTraits, harmonizedTraits);
            (r.Ok? && r.value.SourceResults? ==>
               r2.Ok? && r2.value.SourceResults? && forall t :: t in r.value.sourceTraits ==> t in r2.value.sourceTraits)
            && (r.Ok? && r.value.HarmonizedResults? ==>
                  r2.Ok? && r2.value.HarmonizedResults? && forall h :: h in r.value.harmonizedTraits ==> h in r2.value.harmonizedTraits)
  {
    forall name: string, description: string | TextMatches(name, description, q)
      ensures TextMatchesIgnoringCase(name, description, q)
    {
      if Contains(description, q) {
        ContainsLower(description, q);
      } else {
        ContainsLower(name, q);
      }
    }
  }

  /**
   * A query in capitals misses a trait named in lower case: the search is
   * case-sensitive, although its docstring says otherwise.
   */
  lemma SearchMissesOtherCase()
    ensures var t := SourceTraitRow(1, "bmi", "", 1, 1, 1, false);
            Search("BMI", "source", [], [t], []).value.sourceTraits == []
            && SearchIgnoringCase("BMI", "source", [], [t], []).value.sourceTraits == [t]
  {
    var t := SourceTraitRow(1, "bmi", "", 1, 1, 1, false);
    assert !Contains("bmi", "BMI") by {
      assert "bmi"[0..3] != "BMI" by {
        assert "bmi"[0..3][0] == 'b';
      }
    }
    assert !Contains("", "BMI");
    assert Lower("BMI") == "bmi";
    assert Lower("bmi") == "bmi";
    assert OccursAt(Lower("bmi"), Lower("BMI"), 0);
  }

  // ---------------------------------------------------------------------------
  // SourceTraitTagging.test_func

  /** Staff may tag any trait; anyone else only a trait of one of their taggable studies. */
  predicate CanTagTrait(isStaff: bool, taggableStudies: set<nat>, t: SourceTraitRow) {
    isStaff || t.study in taggableStudies
  }

  // ---------------------------------------------------------------------------
  // Autocomplete get_queryset filters

  /** The regex '^q' on a column rendered as text, for a query without regex metacharacters. */
  predicate StartsWith(s: string, q: string) {
    |q| <= |s| && s[..|q|] == q
  }

  function PhvStartsWith(q: string): SourceTraitRow -> bool {
    (t: SourceTraitRow) => StartsWith(NatToStr(t.phv), q)
  }

  /** SourceTraitPHVAutocomplete: current traits, narrowed by phv prefix when a query is given. */
  function PhvAutocomplete(traits: seq<SourceTraitRow>, q: string): (r: seq<SourceTraitRow>)
    ensures forall t :: t in r <==>
              t in traits && !t.versionDeprecated && (q == "" || StartsWith(NatToStr(t.phv), q))
  {
    var current := CurrentSourceTraits(traits);
    if q == "" then current else Seqs.Filter(current, PhvStartsWith(q))
  }

  function InTaggable(taggableStudies: set<nat>): SourceTraitRow -> bool {
    (t: SourceTraitRow) => t.study in taggableStudies
  }

  /**
   * TaggableStudyFilteredSourceTraitPHVAutocomplete: as above, and for a
   * user who is not staff only traits of their taggable studies; every
   * trait it offers is one the user may tag.
   */
  function TaggablePhvAutocomplete(isStaff: bool, taggableStudies: set<nat>, traits: seq<SourceTraitRow>, q: string)
    : (r: seq<SourceTraitRow>)
    ensures forall t :: t in r <==>
              t in traits && !t.versionDeprecated && (isStaff || t.study in taggableStudies)
              && (q == "" || StartsWith(NatToStr(t.phv), q))
    ensures forall t :: t in r ==> CanTagTrait(isStaff, taggableStudies, t)
  {
    var retrieved := if isStaff then CurrentSourceTraits(traits)
                     else Seqs.Filter(CurrentSourceTraits(traits), InTaggable(taggableStudies));
    if q == "" then retrieved else Seqs.Filter(retrieved, PhvStartsWith(q))
  }

  /**
   * SourceTraitTagging.test_func and the taggable autocomplete agree: with
   * no query typed, a current trait is offered exactly when the user may
   * tag it.
   */
  lemma TaggableOffersWhatCanBeTagged(isStaff: bool, taggableStudies: set<nat>, traits: seq<SourceTraitRow>,
                                      t: SourceTraitRow)
    requires t in traits && !t.versionDeprecated
    ensures t in TaggablePhvAutocomplete(isStaff, taggableStudies, traits, "") <==> CanTagTrait(isStaff, taggableStudies, t)
  {
  }

  /** A longer accession query never offers a trait the shorter one did not. */
  lemma PhvAutocompleteNarrows(traits: seq<SourceTraitRow>, q1: string, q2: string)
    requires StartsWith(q2, q1)
    ensures forall t :: t in PhvAutocomplete(traits, q2) ==> t in PhvAutocomplete(traits, q1)
  {
    forall t | t in PhvAutocomplete(traits, q2) && q2 != ""
      ensures StartsWith(NatToStr(t.phv), q1)
    {
      var s := NatToStr(t.phv);
      assert s[..|q1|] == s[..|q2|][..|q1|];
    }
  }

  /** Typing a trait's whole phv always offers that trait while its study version is current. */
  lemma PhvAutocompleteFindsExact(traits: seq<SourceTraitRow>, t: SourceTraitRow)
    requires t in traits && !t.versionDeprecated
    ensures t in PhvAutocomplete(traits, NatToStr(t.phv))
  {
    var s := NatToStr(t.phv);
    assert s[..|s|] == s;
  }

  function FlavorNameStartsWith(q: string): HarmonizedTraitRow -> bool {
    (h: HarmonizedTraitRow) => StartsWith(h.flavorName, q)
  }

  /** HarmonizedTraitFlavorNameAutocomplete: every harmonized trait, narrowed by flavor-name prefix; no deprecation filter. */
  function FlavorNameAutocomplete(traits: seq<HarmonizedTraitRow>, q: string): (r: seq<HarmonizedTraitRow>)
    ensures forall h :: h in r <==> h in traits && (q == "" || StartsWith(h.flavorName, q))
  {
    if q == "" then traits else Seqs.Filter(traits, FlavorNameStartsWith(q))
  }

  // ---------------------------------------------------------------------------
  // Search records: check_search_existence and the counter in trait_search

  /** profiles.models.Search. */
  datatype SearchRecord = SearchRecord(pk: nat, paramText: string, searchType: string,
                                       paramStudies: set<nat>, searchCount: int)

  /** The record is for this text and type and is linked to each of the studies. */
  predicate Matches(s: SearchRecord, query: string, searchType: string, studies: seq<nat>) {
    s.paramText == query && s.searchType == searchType
    && forall j :: 0 <= j < |studies| ==> studies[j] in s.paramStudies
  }

  function MatchesAll(query: string, searchType: string, studies: seq<nat>): SearchRecord -> bool {
    (s: SearchRecord) => Matches(s, query, searchType, studies)
  }

  function HasStudy(study: nat): SearchRecord -> bool {
    (s: SearchRecord) => study in s.paramStudies
  }

  /** The queryset check_search_existence builds: one filter on text and type, then one per study. */
  method NarrowSearches(searches: seq<SearchRecord>, query: string, searchType: string, studies: seq<nat>)
    returns (candidates: seq<SearchRecord>)
    ensures candidates == Seqs.Filter(searches, MatchesAll(query, searchType, studies))
  {
    candidates := Seqs.Filter(searches, MatchesAll(query, searchType, []));
    var i := 0;
    while i < |studies|
      invariant 0 <= i <= |studies|
      invariant candidates == Seqs.Filter(searches, MatchesAll(query, searchType, studies[..i]))
    {
      NarrowStep(searches, query, searchType, studies, i);
      candidates := Seqs.Filter(candidates, HasStudy(studies[i]));
      i := i + 1;
    }
    assert studies[..i] == studies;
  }

  /** One more study filter narrows the matches for the first i studies to those for the first i + 1. */
  lemma NarrowStep(searches: seq<SearchRecord>, query: string, searchType: string, studies: seq<nat>, i: int)
    requires 0 <= i < |studies|
    ensures Seqs.Filter(Seqs.Filter(searches, MatchesAll(query, searchType, studies[..i])), HasStudy(studies[i]))
            == Seqs.Filter(searches, MatchesAll(query, searchType, studies[..i + 1]))
  {
    forall s | s in searches
      ensures MatchesAll(query, searchType, studies[..i + 1])(s)
              == (MatchesAll(query, searchType, studies[..i])(s) && HasStudy(studies[i])(s))
    {
      assert forall j :: 0 <= j < i ==> studies[..i + 1][j] == studies[..i][j];
    }
    Seqs.FilterThen(searches, MatchesAll(query, searchType, studies[..i]), HasStudy(studies[i]),
                    MatchesAll(query, searchType, studies[..i + 1]));
  }

  /**
   * check_search_existence as written: the first record, in store order,
   * with this text and type that is linked to every given study (and
   * possibly to others), or None.
   */
  method CheckSearchExistence(searches: seq<SearchRecord>, query: string, searchType: string, studies: seq<nat>)
    returns (r: Option<SearchRecord>)
    ensures r.None? <==> forall s :: s in searches ==> !Matches(s, query, searchType, studies)
    ensures r.Some? ==> exists k :: 0 <= k < |searches| && searches[k] == r.value
                          && Matches(searches[k], query, searchType, studies)
                          && forall j :: 0 <= j < k ==> !Matches(searches[j], query, searchType, studies)
  {
    var candidates := NarrowSearches(searches, query, searchType, studies);
    if |candidates| > 0 {
      Seqs.FilterFirst(searches, MatchesAll(query, searchType, studies));
      r := Some(candidates[0]);
    } else {
      r := None;
    }
  }

  /** A search over no studies is matched by a record made for a search restricted to a study. */
  lemma UnrestrictedMatchesRestricted()
    ensures var record := SearchRecord(1, "bmi", "source", {7}, 1);
            Matches(record, "bmi", "source", []) && record.paramStudies != StudySet([])
  {
    assert 7 in SearchRecord(1, "bmi", "source", {7}, 1).paramStudies;
  }

  function StudySet(studies: seq<nat>): set<nat> {
    set j | 0 <= j < |studies| :: studies[j]
  }

  /** The record is for exactly this text, type and set of studies. */
  predicate SameSearch(s: SearchRecord, query: string, searchType: string, studies: seq<nat>) {
    s.paramText == query && s.searchType == searchType && s.paramStudies == StudySet(studies)
  }

  function SameSearchAs(query: string, searchType: string, studies: seq<nat>): SearchRecord -> bool {
    (s: SearchRecord) => SameSearch(s, query, searchType, studies)
  }

  /**
   * check_search_existence corrected: the first record with this text,
   * type and exactly these studies, or None.
   */
  method FindSameSearch(searches: seq<SearchRecord>, query: string, searchType: string, studies: seq<nat>)
    returns (r: Option<SearchRecord>)
    ensures r.None? <==> forall s :: s in searches ==> !SameSearch(s, query, searchType, studies)
    ensures r.Some? ==> SameSearch(r.value, query, searchType, studies)
                        && r.value == Seqs.Filter(searches, SameSearchAs(query, searchType, studies))[0]
  {
    var candidates := NarrowSearches(searches, query, searchType, studies);
    forall s | s in searches
      ensures SameSearchAs(query, searchType, studies)(s)
              == (MatchesAll(query, searchType, studies)(s) && SameSearchAs(query, searchType, studies)(s))
    {
      if SameSearch(s, query, searchType, studies) {
        assert forall j :: 0 <= j < |studies| ==> studies[j] in StudySet(studies);
      }
    }
    Seqs.FilterThen(searches, MatchesAll(query, searchType, studies), SameSearchAs(query, searchType, studies),
                    SameSearchAs(query, searchType, studies));
    candidates := Seqs.Filter(candidates, SameSearchAs(query, searchType, studies));
    if |candidates| > 0 {
      r := Some(candidates[0]);
    } else {
      r := None;
    }
  }

  /** The store with one record's search_count raised by one. */
  function CountedOnce(searches: seq<SearchRecord>, pk: nat): (r: seq<SearchRecord>)
    ensures |r| == |searches|
    ensures forall k :: 0 <= k < |r| ==>
              r[k] == if searches[k].pk == pk then searches[k].(searchCount := searches[k].searchCount + 1) else searches[k]
  {
    seq(|searches|, k requires 0 <= k < |searches| =>
      if searches[k].pk == pk then searches[k].(searchCount := searches[k].searchCount + 1) else searches[k])
  }

  /** Keys are below nextPk and distinct, counts are positive, and no two records are for the same search. */
  predicate WellFormedLog(searches: seq<SearchRecord>, nextPk: nat) {
    (forall k :: 0 <= k < |searches| ==> searches[k].pk < nextPk && searches[k].searchCount >= 1)
    && forall i, j :: 0 <= i < j < |searches| ==>
         searches[i].pk != searches[j].pk
         && !(searches[i].paramText == searches[j].paramText && searches[i].searchType == searches[j].searchType
              && searches[i].paramStudies == searches[j].paramStudies)
  }

  /** Raising one count keeps the log well formed. */
  lemma CountedOnceWellFormed(searches: seq<SearchRecord>, nextPk: nat, pk: nat)
    requires WellFormedLog(searches, nextPk)
    ensures WellFormedLog(CountedOnce(searches, pk), nextPk)
  {
  }

  /** Raising the count of a record of the log leaves the raised record in it, and the log well formed. */
  lemma CountedOnceHolds(searches: seq<SearchRecord>, nextPk: nat, existing: SearchRecord)
    requires WellFormedLog(searches, nextPk) && existing in searches
    ensures existing.(searchCount := existing.searchCount + 1) in CountedOnce(searches, existing.pk)
    ensures WellFormedLog(CountedOnce(searches, existing.pk), nextPk)
  {
    var k :| 0 <= k < |searches| && searches[k] == existing;
    assert CountedOnce(searches, existing.pk)[k] == existing.(searchCount := existing.searchCount + 1);
    CountedOnceWellFormed(searches, nextPk, existing.pk);
  }

  /** Adding a record for a search not yet in the log, under the next key, keeps it well formed. */
  lemma AppendWellFormed(searches: seq<SearchRecord>, nextPk: nat, record: SearchRecord)
    requires WellFormedLog(searches, nextPk)
    requires record.pk == nextPk && record.searchCount >= 1
    requires forall s :: s in searches ==>
               !(s.paramText == record.paramText && s.searchType == record.searchType
                 && s.paramStudies == record.paramStudies)
    ensures WellFormedLog(searches + [record], nextPk + 1)
  {
    var r := searches + [record];
    forall i, j | 0 <= i < j < |r|
      ensures r[i].pk != r[j].pk
      ensures !(r[i].paramText == r[j].paramText && r[i].searchType == r[j].searchType
                && r[i].paramStudies == r[j].paramStudies)
    {
      if j == |searches| {
        assert r[i] in searches;
      }
    }
  }

  /** The Search table, as trait_search updates it after a valid search. */
  class SearchLog {
    var searches: seq<SearchRecord>
    var nextPk: nat

    ghost predicate Valid()
      reads this
    {
      WellFormedLog(searches, nextPk)
    }

    constructor ()
      ensures Valid() && searches == [] && nextPk == 0
    {
      searches, nextPk := [], 0;
    }

    /**
     * The counter update of trait_search: an existing record for the same
     * search has its count raised by one; otherwise a record with count 1,
     * linked to the studies, is added.
     */
    method RecordSearch(query: string, searchType: string, studies: seq<nat>) returns (record: SearchRecord)
      requires Valid()
      modifies this
      ensures Valid()
      ensures record in searches && SameSearch(record, query, searchType, studies)
      ensures var hits := Seqs.Filter(old(searches), SameSearchAs(query, searchType, studies));
              if |hits| == 0 then
                record == SearchRecord(old(nextPk), query, searchType, StudySet(studies), 1)
                && searches == old(searches) + [record] && nextPk == old(nextPk) + 1
              else
                record == hits[0].(searchCount := hits[0].searchCount + 1)
                && searches == CountedOnce(old(searches), hits[0].pk) && nextPk == old(nextPk)
    {
      var found := FindSameSearch(searches, query, searchType, studies);
      match found {
        case Some(existing) =>
          record := existing.(searchCount := existing.searchCount + 1);
          CountedOnceHolds(searches, nextPk, existing);
          searches := CountedOnce(searches, existing.pk);
        case None =>
          record := SearchRecord(nextPk, query, searchType, StudySet(studies), 1);
          AppendWellFormed(searches, nextPk, record);
          searches := searches + [record];
          nextPk := nextPk + 1;
      }
    }
  }
}
