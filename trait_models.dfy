/**
 * The dbGaP metadata models of trait_browser/models.py: the derived
 * accession strings and links that each save() recomputes, the harmonized
 * trait flavor name, and the selection of the latest and previous study
 * versions.
 */
module TraitModels {
  import opened Wrappers
  import opened PyStr
  import Seqs

  const STUDY_VERSION_URL_PREFIX := "http://www.ncbi.nlm.nih.gov/projects/gap/cgi-bin/study.cgi?study_id="
  const DATASET_URL_PREFIX := "http://www.ncbi.nlm.nih.gov/projects/gap/cgi-bin/dataset.cgi?study_id="
  const VARIABLE_URL_PREFIX := "http://www.ncbi.nlm.nih.gov/projects/gap/cgi-bin/variable.cgi?study_id="

  /** Study.set_phs: 'phs{:06}'.format(i_accession). */
  function Phs(accession: nat): string {
    "phs" + ZeroPadNat(accession, 6)
  }

  /** The '{}.v{}.p{}' shape shared by every full accession. */
  function WithVersion(head: string, version: nat, participantSet: nat): string {
    head + ".v" + NatToStr(version) + ".p" + NatToStr(participantSet)
  }

  /** SourceStudyVersion.set_full_accession: STUDY_VERSION_ACCESSION over the study's stored phs. */
  function StudyVersionAccession(phs: string, version: nat, participantSet: nat): string {
    WithVersion(phs, version, participantSet)
  }

  /** SourceDataset.set_full_accession: DATASET_ACCESSION = 'pht{:06}.v{}.p{}'. */
  function DatasetAccession(accession: nat, version: nat, participantSet: nat): string {
    WithVersion("pht" + ZeroPadNat(accession, 6), version, participantSet)
  }

  /** SourceTrait.set_full_accession: VARIABLE_ACCESSION = 'phv{:08}.v{}.p{}'. */
  function VariableAccession(accession: nat, version: nat, participantSet: nat): string {
    WithVersion("phv" + ZeroPadNat(accession, 8), version, participantSet)
  }

  /** SourceStudyVersion.set_dbgap_link: STUDY_VERSION_URL over the full accession. */
  function StudyVersionLink(fullAccession: string): string {
    STUDY_VERSION_URL_PREFIX + fullAccession
  }

  /** SourceDataset.set_dbgap_link: DATASET_URL over the study version's and the dataset's full accessions. */
  function DatasetLink(studyVersionAccession: string, datasetAccession: string): string {
    DATASET_URL_PREFIX + studyVersionAccession + "&pht=" + datasetAccession
  }

  /** SourceTrait.set_dbgap_link: VARIABLE_URL over the study version's full accession and the padded phv. */
  function VariableLink(studyVersionAccession: string, variableAccession: nat): string {
    VARIABLE_URL_PREFIX + studyVersionAccession + "&phv=" + ZeroPadNat(variableAccession, 8)
  }

  /** HarmonizedTrait.set_trait_flavor_name: '{}_{}'.format(i_trait_name, i_flavor). */
  function TraitFlavorName(traitName: string, flavor: nat): string {
    traitName + "_" + NatToStr(flavor)
  }

  /** Splits a leading run of digits and the two-character marker that must follow it off t. */
  function DigitsThen(t: string, marker: string): Option<(nat, string)>
    requires |marker| == 2
  {
    var n := DigitSpan(t);
    if n == 0 || |t| < n + 2 || t[n..n + 2] != marker then None
    else Some((DigitsValue(t[..n]), t[n + 2..]))
  }

  lemma DigitsThenOf(d: string, marker: string, rest: string)
    requires |marker| == 2 && !IsDigit(marker[0])
    requires |d| > 0 && AllDigits(d)
    ensures DigitsThen(d + (marker + rest), marker).Some?
    ensures DigitsThen(d + (marker + rest), marker).value.0 == DigitsValue(d)
    ensures DigitsThen(d + (marker + rest), marker).value.1 == rest
  {
    var tail := marker + rest;
    DigitSpanOf(d, tail);
    TakePrefix(d, tail);
    DropPrefix(d, tail);
    TakePrefix(marker, rest);
    DropPrefix(marker, rest);
  }

  /** Reads "<digits>.p<digits>" and nothing more: the version and the participant set. */
  function ParseVersionTail(u: string): Option<(nat, nat)> {
    match DigitsThen(u, ".p")
    case None => None
    case Some((version, w)) =>
      var n := DigitSpan(w);
      if n == 0 || n != |w| then None
      else Some((version, DigitsValue(w)))
  }

  /**
   * Reads a full accession back: prefix, digits, ".v", digits, ".p",
   * digits and nothing more, giving the three numbers.
   */
  function ParseAccession(s: string, prefix: string): Option<(nat, nat, nat)> {
    if |s| < |prefix| || s[..|prefix|] != prefix then None
    else
      match DigitsThen(s[|prefix|..], ".v")
      case None => None
      case Some((accession, u)) =>
        match ParseVersionTail(u)
        case None => None
        case Some((version, participantSet)) => Some((accession, version, participantSet))
  }

  lemma VersionTailOf(version: nat, participantSet: nat)
    ensures ParseVersionTail(NatToStr(version) + (".p" + NatToStr(participantSet))) == Some((version, participantSet))
  {
    var v, p := NatToStr(version), NatToStr(participantSet);
    DigitsThenOf(v, ".p", p);
    DigitSpanOf(p, "");
    assert p + "" == p;
  }

  /** A full accession reads back as the accession, version and participant set it was built from. */
  lemma AccessionRoundTrip(prefix: string, width: int, accession: nat, version: nat, participantSet: nat)
    ensures ParseAccession(WithVersion(prefix + ZeroPadNat(accession, width), version, participantSet), prefix)
            == Some((accession, version, participantSet))
  {
    var a, v, p := ZeroPadNat(accession, width), NatToStr(version), NatToStr(participantSet);
    var u := v + (".p" + p);
    var t := a + (".v" + u);
    assert WithVersion(prefix + a, version, participantSet) == prefix + t;
    TakePrefix(prefix, t);
    DropPrefix(prefix, t);
    DigitsThenOf(a, ".v", u);
    VersionTailOf(version, participantSet);
  }

  /** The three kinds of full accession read back (with the study's phs as saved by Study.save()). */
  lemma FullAccessionsRoundTrip(accession: nat, version: nat, participantSet: nat)
    ensures ParseAccession(StudyVersionAccession(Phs(accession), version, participantSet), "phs")
            == Some((accession, version, participantSet))
    ensures ParseAccession(DatasetAccession(accession, version, participantSet), "pht")
            == Some((accession, version, participantSet))
    ensures ParseAccession(VariableAccession(accession, version, participantSet), "phv")
            == Some((accession, version, participantSet))
  {
    AccessionRoundTrip("phs", 6, accession, version, participantSet);
    AccessionRoundTrip("pht", 6, accession, version, participantSet);
    AccessionRoundTrip("phv", 8, accession, version, participantSet);
  }

  function Pow10(k: nat): (r: nat)
    ensures r >= 1
  {
    if k == 0 then 1 else 10 * Pow10(k - 1)
  }

  /** A number below 10^k has at most k digits. */
  lemma {:induction false} NatToStrShort(n: nat, k: nat)
    requires k >= 1 && n < Pow10(k)
    ensures |NatToStr(n)| <= k
  {
    if n >= 10 {
      NatToStrShort(n / 10, k - 1);
    }
  }

  /**
   * phs is "phs" and at least six digits that read back as the accession;
   * it is exactly nine characters, the width of the phs column, when the
   * accession is below 10^6.
   */
  lemma PhsShape(accession: nat)
    ensures |Phs(accession)| >= 9 && Phs(accession)[..3] == "phs"
    ensures AllDigits(Phs(accession)[3..]) && DigitsValue(Phs(accession)[3..]) == accession
    ensures accession < 1000000 ==> |Phs(accession)| == 9
  {
    assert Phs(accession)[3..] == ZeroPadNat(accession, 6);
    if accession < 1000000 {
      assert Pow10(6) == 1000000;
      NatToStrShort(accession, 6);
    }
  }

  /** Within one trait set version the flavor is fixed, so distinct trait names give distinct flavor names. */
  lemma FlavorNameInjective(a: string, b: string, flavor: nat)
    requires TraitFlavorName(a, flavor) == TraitFlavorName(b, flavor)
    ensures a == b
  {
    var suffix := "_" + NatToStr(flavor);
    assert TraitFlavorName(a, flavor) == a + suffix;
    assert TraitFlavorName(b, flavor) == b + suffix;
    assert a == (a + suffix)[..|a|];
    assert b == (b + suffix)[..|b|];
  }

  // ---------------------------------------------------------------------------
  // Study version selection

  /** A SourceStudyVersion row: its key, its study, and the columns the selections look at. */
  datatype StudyVersionRow = StudyVersionRow(pk: nat, study: nat, version: nat, dateAdded: int, deprecated: bool)

  /** a sorts no later than b under order_by('i_version', 'i_date_added'). */
  predicate NotAfter(a: StudyVersionRow, b: StudyVersionRow) {
    a.version < b.version || (a.version == b.version && a.dateAdded <= b.dateAdded)
  }

  /** .order_by('-i_version', '-i_date_added').first(): the first row that no other row follows. */
  function FirstMaximal(vs: seq<StudyVersionRow>): (r: Option<StudyVersionRow>)
    ensures r.None? <==> |vs| == 0
    ensures r.Some? ==> r.value in vs && forall v :: v in vs ==> NotAfter(v, r.value)
  {
    if |vs| == 0 then None
    else
      var rest := FirstMaximal(vs[1..]);
      assert forall v :: v in vs ==> v == vs[0] || v in vs[1..];
      if rest.None? || NotAfter(rest.value, vs[0]) then Some(vs[0]) else rest
  }

  predicate LatestCandidate(study: nat, v: StudyVersionRow) {
    v.study == study && !v.deprecated
  }

  /**
   * Study.get_latest_version: among the study's non-deprecated versions, one
   * with the highest version number, the latest-added among those; None when
   * there is none.
   */
  function LatestVersion(versions: seq<StudyVersionRow>, study: nat): (r: Option<StudyVersionRow>)
    ensures r.None? <==> forall v :: v in versions ==> !LatestCandidate(study, v)
    ensures r.Some? ==> r.value in versions && LatestCandidate(study, r.value)
                        && forall v :: v in versions && LatestCandidate(study, v) ==> NotAfter(v, r.value)
  {
    FirstMaximal(Seqs.Filter(versions, v => LatestCandidate(study, v)))
  }

  predicate PreviousCandidate(current: StudyVersionRow, v: StudyVersionRow) {
    v.study == current.study && v.version <= current.version && v.dateAdded < current.dateAdded
  }

  /**
   * SourceStudyVersion.get_previous_version: among the same study's versions
   * numbered at most this one and added strictly earlier (deprecated ones
   * included), the one that sorts last; None when there is none.
   */
  function PreviousVersion(versions: seq<StudyVersionRow>, current: StudyVersionRow): (r: Option<StudyVersionRow>)
    ensures r.None? <==> forall v :: v in versions ==> !PreviousCandidate(current, v)
    ensures r.Some? ==> r.value in versions && PreviousCandidate(current, r.value)
                        && forall v :: v in versions && PreviousCandidate(current, v) ==> NotAfter(v, r.value)
  {
    FirstMaximal(Seqs.Filter(versions, v => PreviousCandidate(current, v)))
  }

  /** A version is never its own previous version, and the previous version sorts strictly before it. */
  lemma PreviousIsEarlier(versions: seq<StudyVersionRow>, current: StudyVersionRow)
    ensures PreviousVersion(versions, current).Some? ==>
              PreviousVersion(versions, current).value != current
              && NotAfter(PreviousVersion(versions, current).value, current)
              && !NotAfter(current, PreviousVersion(versions, current).value)
  {
  }

  /** A source trait as its queries see it, with the columns reached through its dataset and study version. */
  datatype SourceTraitRow = SourceTraitRow(pk: nat, traitName: string, description: string, phv: nat,
                                           study: nat, studyVersion: nat, versionDeprecated: bool)

  /** Django's MultipleObjectsReturned from QuerySet.get(). */
  datatype LookupError = MultipleObjectsReturned

  predicate SameVariableIn(studyVersion: nat, phv: nat, t: SourceTraitRow) {
    t.studyVersion == studyVersion && t.phv == phv
  }

  /**
   * SourceTrait.get_latest_version: the trait with the same phv in the
   * latest version of this trait's study. None when the study has no
   * current version or that version lacks the variable; get() raises
   * MultipleObjectsReturned, which is not caught, when it has several.
   */
  function TraitLatestVersion(self: SourceTraitRow, versions: seq<StudyVersionRow>, traits: seq<SourceTraitRow>)
    : (r: Result<Option<SourceTraitRow>, LookupError>)
    ensures LatestVersion(versions, self.study).None? ==> r == Ok(None)
    ensures LatestVersion(versions, self.study).Some? ==>
              var matches := Seqs.Filter(traits, t => SameVariableIn(LatestVersion(versions, self.study).value.pk, self.phv, t));
              (r == Ok(None) <==> |matches| == 0) && (r.Err? <==> |matches| > 1)
    ensures r.Ok? && r.value.Some? ==>
              r.value.value in traits && r.value.value.phv == self.phv
              && r.value.value.studyVersion == LatestVersion(versions, self.study).value.pk
  {
    match LatestVersion(versions, self.study)
    case None => Ok(None)
    case Some(latest) =>
      var matches := Seqs.Filter(traits, t => SameVariableIn(latest.pk, self.phv, t));
      if |matches| == 0 then Ok(None)
      else if |matches| == 1 then Ok(Some(matches[0]))
      else Err(MultipleObjectsReturned)
  }

  // ---------------------------------------------------------------------------
  // The model objects whose save() derives fields before writing the row.

  class Study {
    var iAccession: nat
    var iStudyName: string
    var phs: string

    constructor (accession: nat, name: string)
      ensures iAccession == accession && iStudyName == name && phs == ""
    {
      iAccession, iStudyName, phs := accession, name, "";
    }

    /** Study.save(): phs is recomputed from the accession. */
    method Save()
      modifies this`phs
      ensures phs == Phs(iAccession)
    {
      phs := Phs(iAccession);
    }
  }

  class SourceStudyVersion {
    var study: Study
    var iVersion: nat
    var iParticipantSet: nat
    var iIsDeprecated: bool
    var iDateAdded: int
    var fullAccession: string
    var dbgapLink: string

    constructor (study: Study, version: nat, participantSet: nat, deprecated: bool, dateAdded: int)
      ensures this.study == study && iVersion == version && iParticipantSet == participantSet
      ensures iIsDeprecated == deprecated && iDateAdded == dateAdded && fullAccession == "" && dbgapLink == ""
    {
      this.study := study;
      iVersion, iParticipantSet, iIsDeprecated, iDateAdded := version, participantSet, deprecated, dateAdded;
      fullAccession, dbgapLink := "", "";
    }

    /** SourceStudyVersion.save(): full_accession from the study's phs, then dbgap_link from full_accession. */
    method Save()
      modifies this`fullAccession, this`dbgapLink
      ensures fullAccession == StudyVersionAccession(study.phs, iVersion, iParticipantSet)
      ensures dbgapLink == StudyVersionLink(fullAccession)
    {
      fullAccession := StudyVersionAccession(study.phs, iVersion, iParticipantSet);
      dbgapLink := StudyVersionLink(fullAccession);
    }
  }

  class SourceDataset {
    var sourceStudyVersion: SourceStudyVersion
    var iAccession: nat
    var iVersion: nat
    var fullAccession: string
    var dbgapLink: string

    constructor (studyVersion: SourceStudyVersion, accession: nat, version: nat)
      ensures sourceStudyVersion == studyVersion && iAccession == accession && iVersion == version
      ensures fullAccession == "" && dbgapLink == ""
    {
      sourceStudyVersion, iAccession, iVersion := studyVersion, accession, version;
      fullAccession, dbgapLink := "", "";
    }

    /** SourceDataset.save(): the pht full accession, then the link naming study version and dataset. */
    method Save()
      modifies this`fullAccession, this`dbgapLink
      ensures fullAccession == DatasetAccession(iAccession, iVersion, sourceStudyVersion.iParticipantSet)
      ensures dbgapLink == DatasetLink(sourceStudyVersion.fullAccession, fullAccession)
    {
      fullAccession := DatasetAccession(iAccession, iVersion, sourceStudyVersion.iParticipantSet);
      dbgapLink := DatasetLink(sourceStudyVersion.fullAccession, fullAccession);
    }
  }

  class SourceTrait {
    var sourceDataset: SourceDataset
    var iTraitName: string
    var iDbgapVariableAccession: nat
    var iDbgapVariableVersion: nat
    var fullAccession: string
    var dbgapLink: string

    constructor (dataset: SourceDataset, name: string, accession: nat, version: nat)
      ensures sourceDataset == dataset && iTraitName == name
      ensures iDbgapVariableAccession == accession && iDbgapVariableVersion == version
      ensures fullAccession == "" && dbgapLink == ""
    {
      sourceDataset, iTraitName := dataset, name;
      iDbgapVariableAccession, iDbgapVariableVersion := accession, version;
      fullAccession, dbgapLink := "", "";
    }

    /** SourceTrait.save(): the phv full accession and the variable link. */
    method Save()
      modifies this`fullAccession, this`dbgapLink
      ensures fullAccession == VariableAccession(iDbgapVariableAccession, iDbgapVariableVersion,
                                                 sourceDataset.sourceStudyVersion.iParticipantSet)
      ensures dbgapLink == VariableLink(sourceDataset.sourceStudyVersion.fullAccession, iDbgapVariableAccession)
    {
      fullAccession := VariableAccession(iDbgapVariableAccession, iDbgapVariableVersion,
                                         sourceDataset.sourceStudyVersion.iParticipantSet);
      dbgapLink := VariableLink(sourceDataset.sourceStudyVersion.fullAccession, iDbgapVariableAccession);
    }
  }

  class HarmonizedTraitSet {
    var iFlavor: nat

    constructor (flavor: nat)
      ensures iFlavor == flavor
    {
      iFlavor := flavor;
    }
  }

  class HarmonizedTraitSetVersion {
    var harmonizedTraitSet: HarmonizedTraitSet
    var iIsDeprecated: bool

    constructor (traitSet: HarmonizedTraitSet, deprecated: bool)
      ensures harmonizedTraitSet == traitSet && iIsDeprecated == deprecated
    {
      harmonizedTraitSet, iIsDeprecated := traitSet, deprecated;
    }
  }

  /** Python's AttributeError, raised when a nullable foreign key is followed while it is None. */
  datatype AttributeError = AttributeError

  class HarmonizedTrait {
    var harmonizedTraitSetVersion: HarmonizedTraitSetVersion?
    var iTraitName: string
    var traitFlavorName: string

    constructor (setVersion: HarmonizedTraitSetVersion?, name: string)
      ensures harmonizedTraitSetVersion == setVersion && iTraitName == name && traitFlavorName == ""
    {
      harmonizedTraitSetVersion, iTraitName, traitFlavorName := setVersion, name, "";
    }

    /**
     * HarmonizedTrait.save(): trait_flavor_name from the name and the trait
     * set's flavor; the trait set version is a nullable foreign key, and
     * following it while it is None raises before anything is saved.
     */
    method Save() returns (r: Result<(), AttributeError>)
      modifies this`traitFlavorName
      ensures harmonizedTraitSetVersion == null ==> r.Err? && traitFlavorName == old(traitFlavorName)
      ensures harmonizedTraitSetVersion != null ==>
                r.Ok? && traitFlavorName == TraitFlavorName(iTraitName, harmonizedTraitSetVersion.harmonizedTraitSet.iFlavor)
    {
      if harmonizedTraitSetVersion == null {
        return Err(AttributeError);
      }
      traitFlavorName := TraitFlavorName(iTraitName, harmonizedTraitSetVersion.harmonizedTraitSet.iFlavor);
      r := Ok(());
    }
  }
}
