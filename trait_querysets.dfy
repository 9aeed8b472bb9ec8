/** The current() filters of trait_browser/querysets.py: a row is current when its study or trait set version is not deprecated. */
module TraitQuerysets {
  import Seqs
  import opened TraitModels

  /** A SourceDataset with the deprecation flag of its study version. */
  datatype DatasetRow = DatasetRow(pk: nat, accession: nat, studyVersion: nat, versionDeprecated: bool)

  /** A HarmonizedTrait with the deprecation flag of its trait set version. */
  datatype HarmonizedTraitRow = HarmonizedTraitRow(pk: nat, traitName: string, flavorName: string,
                                                   description: string, setVersionDeprecated: bool)

  predicate IsCurrentDataset(d: DatasetRow) { !d.versionDeprecated }
  predicate IsCurrentSourceTrait(t: SourceTraitRow) { !t.versionDeprecated }
  predicate IsCurrentHarmonizedTrait(h: HarmonizedTraitRow) { !h.setVersionDeprecated }

  /** SourceDatasetQuerySet.current(): exactly the datasets of non-deprecated study versions, in order. */
  function CurrentDatasets(ds: seq<DatasetRow>): (r: seq<DatasetRow>)
    ensures forall d :: d in r <==> d in ds && !d.versionDeprecated
  {
    Seqs.Filter(ds, IsCurrentDataset)
  }

  /** SourceTraitQuerySet.current(): exactly the traits whose dataset's study version is not deprecated. */
  function CurrentSourceTraits(ts: seq<SourceTraitRow>): (r: seq<SourceTraitRow>)
    ensures forall t :: t in r <==> t in ts && !t.versionDeprecated
  {
    Seqs.Filter(ts, IsCurrentSourceTrait)
  }

  /** HarmonizedTraitQuerySet.current(): exactly the traits whose trait set version is not deprecated. */
  function CurrentHarmonizedTraits(hs: seq<HarmonizedTraitRow>): (r: seq<HarmonizedTraitRow>)
    ensures forall h :: h in r <==> h in hs && !h.setVersionDeprecated
  {
    Seqs.Filter(hs, IsCurrentHarmonizedTrait)
  }

  /** Each current() is a pure filter: applying it again changes nothing, and it never grows its input. */
  lemma CurrentIdempotent(ds: seq<DatasetRow>, ts: seq<SourceTraitRow>, hs: seq<HarmonizedTraitRow>)
    ensures CurrentDatasets(CurrentDatasets(ds)) == CurrentDatasets(ds) && |CurrentDatasets(ds)| <= |ds|
    ensures CurrentSourceTraits(CurrentSourceTraits(ts)) == CurrentSourceTraits(ts) && |CurrentSourceTraits(ts)| <= |ts|
    ensures CurrentHarmonizedTraits(CurrentHarmonizedTraits(hs)) == CurrentHarmonizedTraits(hs)
            && |CurrentHarmonizedTraits(hs)| <= |hs|
  {
    Seqs.FilterIdempotent(ds, IsCurrentDataset);
    Seqs.FilterIdempotent(ts, IsCurrentSourceTrait);
    Seqs.FilterIdempotent(hs, IsCurrentHarmonizedTrait);
  }
}
