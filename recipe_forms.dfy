/**
 * The recipe forms of recipes/forms.py: each clean() records its errors on
 * the form one add_error call at a time, and a ValidationError raised from
 * clean() ends up as a form-wide error.
 */
module RecipeForms {
  import opened Wrappers

  datatype Field =
    | AgeVariables | BatchVariables | PhenotypeVariables | HarmonizedPhenotypeVariables
    | Name | Units | NonField

  datatype RecipeFormError =
    | TraitsRequired
    | AgeBatchOverlap(traitIds: set<nat>)
    | PhenotypeBatchOverlap(traitIds: set<nat>)
    | AgePhenotypeOverlap(traitIds: set<nat>)
    | Blank
    | MultipleGlobalStudies
    | HarmonizedWithSource
    | DuplicateName(name: string)
    | UnitsFromSeveralCreators

  /** A selected SourceTrait: its key, its i_trait_id and the global study it belongs to. */
  datatype RecipeTrait = RecipeTrait(pk: nat, traitId: nat, globalStudy: nat)

  /** A selected UnitRecipe: its key and its creator. */
  datatype UnitChoice = UnitChoice(pk: nat, creator: nat)

  function TraitIds(ts: set<RecipeTrait>): set<nat> {
    set t | t in ts :: t.traitId
  }

  /** The global studies of every selected source variable. */
  function GlobalStudies(age: set<RecipeTrait>, batch: set<RecipeTrait>, phenotype: set<RecipeTrait>): set<nat> {
    set t | t in age + batch + phenotype :: t.globalStudy
  }

  type Errors = seq<(Field, RecipeFormError)>

  /** add_error(f, e), when cond holds. */
  function FlagOne(errs: Errors, cond: bool, f: Field, e: RecipeFormError): Errors {
    if cond then errs + [(f, e)] else errs
  }

  /** add_error(f1, e) then add_error(f2, e), when cond holds. */
  function FlagTwo(errs: Errors, cond: bool, f1: Field, f2: Field, e: RecipeFormError): Errors {
    if cond then errs + [(f1, e), (f2, e)] else errs
  }

  lemma InFlagOne(x: (Field, RecipeFormError), errs: Errors, cond: bool, f: Field, e: RecipeFormError)
    ensures x in FlagOne(errs, cond, f, e) <==> x in errs || (cond && x == (f, e))
  {
  }

  lemma InFlagTwo(x: (Field, RecipeFormError), errs: Errors, cond: bool, f1: Field, f2: Field, e: RecipeFormError)
    ensures x in FlagTwo(errs, cond, f1, f2, e) <==> x in errs || (cond && (x == (f1, e) || x == (f2, e)))
  {
  }

  /** The first check: without harmonized variables, age and phenotype variables are both needed. */
  function AfterTraitsRequired(errs: Errors, age: set<RecipeTrait>, phenotype: set<RecipeTrait>, harmonized: set<nat>): Errors {
    var missing := |harmonized| == 0 && (|age| == 0 || |phenotype| == 0);
    FlagOne(FlagTwo(errs, missing, AgeVariables, PhenotypeVariables, TraitsRequired),
            missing, HarmonizedPhenotypeVariables, TraitsRequired)
  }

  /** A variable may not be given for two roles; each overlap flags the two fields involved. */
  function AfterOverlaps(errs: Errors, age: set<RecipeTrait>, batch: set<RecipeTrait>, phenotype: set<RecipeTrait>): Errors {
    var ab, pb, ap := age * batch, phenotype * batch, age * phenotype;
    FlagTwo(FlagTwo(FlagTwo(errs, ab != {}, AgeVariables, BatchVariables, AgeBatchOverlap(TraitIds(ab))),
                    pb != {}, PhenotypeVariables, BatchVariables, PhenotypeBatchOverlap(TraitIds(pb))),
            ap != {}, AgeVariables, PhenotypeVariables, AgePhenotypeOverlap(TraitIds(ap)))
  }

  /** Variables from several global studies: blank errors on age, on batch when given, and on phenotype. */
  function AfterStudyCheck(errs: Errors, age: set<RecipeTrait>, batch: set<RecipeTrait>, phenotype: set<RecipeTrait>): Errors {
    var several := |GlobalStudies(age, batch, phenotype)| > 1;
    FlagOne(FlagOne(FlagOne(errs, several, AgeVariables, Blank), several && |batch| > 0, BatchVariables, Blank),
            several, PhenotypeVariables, Blank)
  }

  /** Harmonized variables exclude source ones: each given source field is flagged together with the harmonized field. */
  function AfterHarmonizedCheck(errs: Errors, age: set<RecipeTrait>, batch: set<RecipeTrait>, phenotype: set<RecipeTrait>): Errors {
    FlagTwo(FlagTwo(FlagTwo(errs, |age| > 0, AgeVariables, HarmonizedPhenotypeVariables, HarmonizedWithSource),
                    |batch| > 0, BatchVariables, HarmonizedPhenotypeVariables, HarmonizedWithSource),
            |phenotype| > 0, PhenotypeVariables, HarmonizedPhenotypeVariables, HarmonizedWithSource)
  }

  /** The error list after UnitRecipeCleanMixin.clean has added its field errors to errs, in its order. */
  function AfterUnitRecipeClean(errs: Errors, age: set<RecipeTrait>, batch: set<RecipeTrait>, phenotype: set<RecipeTrait>,
                                harmonized: set<nat>): Errors
  {
    var checked := AfterTraitsRequired(errs, age, phenotype, harmonized);
    if |harmonized| == 0 then AfterStudyCheck(AfterOverlaps(checked, age, batch, phenotype), age, batch, phenotype)
    else AfterHarmonizedCheck(checked, age, batch, phenotype)
  }

  /** The field errors UnitRecipeCleanMixin.clean adds to a fresh form. */
  function UnitRecipeErrors(age: set<RecipeTrait>, batch: set<RecipeTrait>, phenotype: set<RecipeTrait>, harmonized: set<nat>)
    : Errors
  {
    AfterUnitRecipeClean([], age, batch, phenotype, harmonized)
  }

  /** clean() raises, after its field errors, only when source variables span several global studies. */
  predicate RaisesStudyError(age: set<RecipeTrait>, batch: set<RecipeTrait>, phenotype: set<RecipeTrait>, harmonized: set<nat>) {
    |harmonized| == 0 && |GlobalStudies(age, batch, phenotype)| > 1
  }

  /**
   * The errors UnitRecipeCleanMixin.clean reports, check by check and
   * regardless of order: this is the reference the ordered error list is
   * measured against.
   */
  predicate Flagged(x: (Field, RecipeFormError), age: set<RecipeTrait>, batch: set<RecipeTrait>, phenotype: set<RecipeTrait>,
                    harmonized: set<nat>)
  {
    var (f, e) := x;
    if |harmonized| == 0 then
      ((|age| == 0 || |phenotype| == 0) && e == TraitsRequired
       && (f == AgeVariables || f == PhenotypeVariables || f == HarmonizedPhenotypeVariables))
      || (age * batch != {} && e == AgeBatchOverlap(TraitIds(age * batch))
          && (f == AgeVariables || f == BatchVariables))
      || (phenotype * batch != {} && e == PhenotypeBatchOverlap(TraitIds(phenotype * batch))
          && (f == PhenotypeVariables || f == BatchVariables))
      || (age * phenotype != {} && e == AgePhenotypeOverlap(TraitIds(age * phenotype))
          && (f == AgeVariables || f == PhenotypeVariables))
      || (|GlobalStudies(age, batch, phenotype)| > 1 && e == Blank
          && (f == AgeVariables || f == PhenotypeVariables || (f == BatchVariables && |batch| > 0)))
    else
      e == HarmonizedWithSource
      && ((f == AgeVariables && |age| > 0) || (f == BatchVariables && |batch| > 0)
          || (f == PhenotypeVariables && |phenotype| > 0)
          || (f == HarmonizedPhenotypeVariables && |age| + |batch| + |phenotype| > 0))
  }

  /** An error is in clean()'s list exactly when one of its checks flags it. */
  lemma UnitRecipeErrorsFlagged(x: (Field, RecipeFormError), age: set<RecipeTrait>, batch: set<RecipeTrait>,
                                phenotype: set<RecipeTrait>, harmonized: set<nat>)
    ensures x in UnitRecipeErrors(age, batch, phenotype, harmonized) <==> Flagged(x, age, batch, phenotype, harmonized)
  {
    var checked := AfterTraitsRequired([], age, phenotype, harmonized);
    InTraitsRequired(x, [], age, phenotype, harmonized);
    if |harmonized| == 0 {
      var overlaps := AfterOverlaps(checked, age, batch, phenotype);
      InOverlaps(x, checked, age, batch, phenotype);
      InStudyCheck(x, overlaps, age, batch, phenotype);
    } else {
      InHarmonizedCheck(x, checked, age, batch, phenotype);
    }
  }

  lemma InTraitsRequired(x: (Field, RecipeFormError), errs: Errors, age: set<RecipeTrait>, phenotype: set<RecipeTrait>,
                         harmonized: set<nat>)
    ensures x in AfterTraitsRequired(errs, age, phenotype, harmonized) <==>
              x in errs || (|harmonized| == 0 && (|age| == 0 || |phenotype| == 0) && x.1 == TraitsRequired
                            && (x.0 == AgeVariables || x.0 == PhenotypeVariables || x.0 == HarmonizedPhenotypeVariables))
  {
    var missing := |harmonized| == 0 && (|age| == 0 || |phenotype| == 0);
    var required := FlagTwo(errs, missing, AgeVariables, PhenotypeVariables, TraitsRequired);
    InFlagTwo(x, errs, missing, AgeVariables, PhenotypeVariables, TraitsRequired);
    InFlagOne(x, required, missing, HarmonizedPhenotypeVariables, TraitsRequired);
  }

  lemma InOverlaps(x: (Field, RecipeFormError), errs: Errors, age: set<RecipeTrait>, batch: set<RecipeTrait>,
                   phenotype: set<RecipeTrait>)
    ensures x in AfterOverlaps(errs, age, batch, phenotype) <==>
              x in errs
              || (age * batch != {} && x.1 == AgeBatchOverlap(TraitIds(age * batch))
                  && (x.0 == AgeVariables || x.0 == BatchVariables))
              || (phenotype * batch != {} && x.1 == PhenotypeBatchOverlap(TraitIds(phenotype * batch))
                  && (x.0 == PhenotypeVariables || x.0 == BatchVariables))
              || (age * phenotype != {} && x.1 == AgePhenotypeOverlap(TraitIds(age * phenotype))
                  && (x.0 == AgeVariables || x.0 == PhenotypeVariables))
  {
    var ab, pb, ap := age * batch, phenotype * batch, age * phenotype;
    var o1 := FlagTwo(errs, ab != {}, AgeVariables, BatchVariables, AgeBatchOverlap(TraitIds(ab)));
    InFlagTwo(x, errs, ab != {}, AgeVariables, BatchVariables, AgeBatchOverlap(TraitIds(ab)));
    var o2 := FlagTwo(o1, pb != {}, PhenotypeVariables, BatchVariables, PhenotypeBatchOverlap(TraitIds(pb)));
    InFlagTwo(x, o1, pb != {}, PhenotypeVariables, BatchVariables, PhenotypeBatchOverlap(TraitIds(pb)));
    InFlagTwo(x, o2, ap != {}, AgeVariables, PhenotypeVariables, AgePhenotypeOverlap(TraitIds(ap)));
  }

  lemma InStudyCheck(x: (Field, RecipeFormError), errs: Errors, age: set<RecipeTrait>, batch: set<RecipeTrait>,
                     phenotype: set<RecipeTrait>)
    ensures x in AfterStudyCheck(errs, age, batch, phenotype) <==>
              x in errs
              || (|GlobalStudies(age, batch, phenotype)| > 1 && x.1 == Blank
                  && (x.0 == AgeVariables || x.0 == PhenotypeVariables || (x.0 == BatchVariables && |batch| > 0)))
  {
    var several := |GlobalStudies(age, batch, phenotype)| > 1;
    var s1 := FlagOne(errs, several, AgeVariables, Blank);
    InFlagOne(x, errs, several, AgeVariables, Blank);
    var s2 := FlagOne(s1, several && |batch| > 0, BatchVariables, Blank);
    InFlagOne(x, s1, several && |batch| > 0, BatchVariables, Blank);
    InFlagOne(x, s2, several, PhenotypeVariables, Blank);
  }

  lemma InHarmonizedCheck(x: (Field, RecipeFormError), errs: Errors, age: set<RecipeTrait>, batch: set<RecipeTrait>,
                          phenotype: set<RecipeTrait>)
    ensures x in AfterHarmonizedCheck(errs, age, batch, phenotype) <==>
              x in errs
              || (x.1 == HarmonizedWithSource
                  && ((x.0 == AgeVariables && |age| > 0) || (x.0 == BatchVariables && |batch| > 0)
                      || (x.0 == PhenotypeVariables && |phenotype| > 0)
                      || (x.0 == HarmonizedPhenotypeVariables && |age| + |batch| + |phenotype| > 0)))
  {
    var h1 := FlagTwo(errs, |age| > 0, AgeVariables, HarmonizedPhenotypeVariables, HarmonizedWithSource);
    InFlagTwo(x, errs, |age| > 0, AgeVariables, HarmonizedPhenotypeVariables, HarmonizedWithSource);
    var h2 := FlagTwo(h1, |batch| > 0, BatchVariables, HarmonizedPhenotypeVariables, HarmonizedWithSource);
    InFlagTwo(x, h1, |batch| > 0, BatchVariables, HarmonizedPhenotypeVariables, HarmonizedWithSource);
    InFlagTwo(x, h2, |phenotype| > 0, PhenotypeVariables, HarmonizedPhenotypeVariables, HarmonizedWithSource);
  }

  /** The missing-variables error is on age, phenotype and harmonized exactly when no harmonized variable and not both source lists are given. */
  lemma TraitsRequiredFlags(age: set<RecipeTrait>, batch: set<RecipeTrait>, phenotype: set<RecipeTrait>, harmonized: set<nat>)
    ensures forall f :: (f, TraitsRequired) in UnitRecipeErrors(age, batch, phenotype, harmonized) <==>
              |harmonized| == 0 && (|age| == 0 || |phenotype| == 0)
              && (f == AgeVariables || f == PhenotypeVariables || f == HarmonizedPhenotypeVariables)
  {
    forall f {
      UnitRecipeErrorsFlagged((f, TraitsRequired), age, batch, phenotype, harmonized);
    }
  }

  /** An age/batch overlap flags the age and batch fields and no other, naming the shared variables. */
  lemma AgeBatchOverlapFlags(age: set<RecipeTrait>, batch: set<RecipeTrait>, phenotype: set<RecipeTrait>, harmonized: set<nat>)
    ensures forall f, ids :: (f, AgeBatchOverlap(ids)) in UnitRecipeErrors(age, batch, phenotype, harmonized) <==>
              |harmonized| == 0 && age * batch != {}
              && ids == TraitIds(age * batch) && (f == AgeVariables || f == BatchVariables)
  {
    forall f, ids {
      UnitRecipeErrorsFlagged((f, AgeBatchOverlap(ids)), age, batch, phenotype, harmonized);
    }
  }

  /** A phenotype/batch overlap flags the phenotype and batch fields and no other. */
  lemma PhenotypeBatchOverlapFlags(age: set<RecipeTrait>, batch: set<RecipeTrait>, phenotype: set<RecipeTrait>, harmonized: set<nat>)
    ensures forall f, ids :: (f, PhenotypeBatchOverlap(ids)) in UnitRecipeErrors(age, batch, phenotype, harmonized) <==>
              |harmonized| == 0 && phenotype * batch != {}
              && ids == TraitIds(phenotype * batch) && (f == PhenotypeVariables || f == BatchVariables)
  {
    forall f, ids {
      UnitRecipeErrorsFlagged((f, PhenotypeBatchOverlap(ids)), age, batch, phenotype, harmonized);
    }
  }

  /** An age/phenotype overlap flags the age and phenotype fields and no other. */
  lemma AgePhenotypeOverlapFlags(age: set<RecipeTrait>, batch: set<RecipeTrait>, phenotype: set<RecipeTrait>, harmonized: set<nat>)
    ensures forall f, ids :: (f, AgePhenotypeOverlap(ids)) in UnitRecipeErrors(age, batch, phenotype, harmonized) <==>
              |harmonized| == 0 && age * phenotype != {}
              && ids == TraitIds(age * phenotype) && (f == AgeVariables || f == PhenotypeVariables)
  {
    forall f, ids {
      UnitRecipeErrorsFlagged((f, AgePhenotypeOverlap(ids)), age, batch, phenotype, harmonized);
    }
  }

  /** Several global studies put blank errors on age and phenotype, and on batch only when batch variables were given. */
  lemma StudyErrorFlags(age: set<RecipeTrait>, batch: set<RecipeTrait>, phenotype: set<RecipeTrait>, harmonized: set<nat>)
    ensures (AgeVariables, Blank) in UnitRecipeErrors(age, batch, phenotype, harmonized)
            <==> RaisesStudyError(age, batch, phenotype, harmonized)
    ensures (PhenotypeVariables, Blank) in UnitRecipeErrors(age, batch, phenotype, harmonized)
            <==> RaisesStudyError(age, batch, phenotype, harmonized)
    ensures (BatchVariables, Blank) in UnitRecipeErrors(age, batch, phenotype, harmonized)
            <==> RaisesStudyError(age, batch, phenotype, harmonized) && |batch| > 0
  {
    UnitRecipeErrorsFlagged((AgeVariables, Blank), age, batch, phenotype, harmonized);
    UnitRecipeErrorsFlagged((PhenotypeVariables, Blank), age, batch, phenotype, harmonized);
    UnitRecipeErrorsFlagged((BatchVariables, Blank), age, batch, phenotype, harmonized);
  }

  /**
   * With harmonized variables, the only error left is the exclusivity one:
   * on each non-empty source field and on the harmonized field; with no
   * source variables there is no error at all.
   */
  lemma HarmonizedExcludesSource(age: set<RecipeTrait>, batch: set<RecipeTrait>, phenotype: set<RecipeTrait>, harmonized: set<nat>)
    requires |harmonized| > 0
    ensures forall f, e :: (f, e) in UnitRecipeErrors(age, batch, phenotype, harmonized) ==> e == HarmonizedWithSource
    ensures (AgeVariables, HarmonizedWithSource) in UnitRecipeErrors(age, batch, phenotype, harmonized) <==> |age| > 0
    ensures (BatchVariables, HarmonizedWithSource) in UnitRecipeErrors(age, batch, phenotype, harmonized) <==> |batch| > 0
    ensures (PhenotypeVariables, HarmonizedWithSource) in UnitRecipeErrors(age, batch, phenotype, harmonized) <==> |phenotype| > 0
    ensures (HarmonizedPhenotypeVariables, HarmonizedWithSource) in UnitRecipeErrors(age, batch, phenotype, harmonized)
            <==> |age| + |batch| + |phenotype| > 0
    ensures |age| + |batch| + |phenotype| == 0 ==> UnitRecipeErrors(age, batch, phenotype, harmonized) == []
  {
    forall f, e {
      UnitRecipeErrorsFlagged((f, e), age, batch, phenotype, harmonized);
    }
  }


  /** A unit with age and phenotype variables, no repeats between roles and one global study is accepted. */
  lemma WellFormedSourceUnit(age: set<RecipeTrait>, batch: set<RecipeTrait>, phenotype: set<RecipeTrait>, study: nat)
    requires |age| > 0 && |phenotype| > 0
    requires age * batch == {} && phenotype * batch == {}
    requires age * phenotype == {}
    requires forall t :: t in age + batch + phenotype ==> t.globalStudy == study
    ensures UnitRecipeErrors(age, batch, phenotype, {}) == [] && !RaisesStudyError(age, batch, phenotype, {})
  {
    var t :| t in age;
    assert GlobalStudies(age, batch, phenotype) == {study};
  }

  /** The unit names a form may not reuse: only on creation, and only among the user's own units. */
  predicate NameClash(isCreate: bool, name: string, existingNames: seq<string>) {
    isCreate && name in existingNames
  }

  function Creators(units: seq<UnitChoice>): set<nat> {
    set u | u in units :: u.creator
  }

  /** A form's error list, filled by add_error. */
  class RecipeForm {
    var errors: Errors

    constructor ()
      ensures errors == []
    {
      errors := [];
    }

    /** form.add_error(field, error). */
    method AddError(field: Field, e: RecipeFormError)
      modifies this`errors
      ensures errors == old(errors) + [(field, e)]
    {
      errors := errors + [(field, e)];
    }

    /** add_error(f1, e) then add_error(f2, e), when cond holds. */
    method AddTwo(cond: bool, f1: Field, f2: Field, e: RecipeFormError)
      modifies this`errors
      ensures errors == FlagTwo(old(errors), cond, f1, f2, e)
    {
      if cond {
        AddError(f1, e);
        AddError(f2, e);
      }
    }

    /**
     * UnitRecipeCleanMixin.clean: adds its field errors one by one and
     * reports the ValidationError it raises at the end, if any.
     */
    method UnitRecipeClean(age: set<RecipeTrait>, batch: set<RecipeTrait>, phenotype: set<RecipeTrait>, harmonized: set<nat>)
      returns (raised: Option<RecipeFormError>)
      modifies this`errors
      ensures errors == AfterUnitRecipeClean(old(errors), age, batch, phenotype, harmonized)
      ensures raised.Some? <==> RaisesStudyError(age, batch, phenotype, harmonized)
      ensures raised.Some? ==> raised.value == MultipleGlobalStudies
    {
      raised := None;
      if |harmonized| == 0 && (|age| == 0 || |phenotype| == 0) {
        AddError(AgeVariables, TraitsRequired);
        AddError(PhenotypeVariables, TraitsRequired);
        AddError(HarmonizedPhenotypeVariables, TraitsRequired);
      }
      assert errors == AfterTraitsRequired(old(errors), age, phenotype, harmonized);
      if |harmonized| == 0 {
        var ab := age * batch;
        AddTwo(ab != {}, AgeVariables, BatchVariables, AgeBatchOverlap(TraitIds(ab)));
        var pb := phenotype * batch;
        AddTwo(pb != {}, PhenotypeVariables, BatchVariables, PhenotypeBatchOverlap(TraitIds(pb)));
        var ap := age * phenotype;
        AddTwo(ap != {}, AgeVariables, PhenotypeVariables, AgePhenotypeOverlap(TraitIds(ap)));
        assert errors == AfterOverlaps(AfterTraitsRequired(old(errors), age, phenotype, harmonized), age, batch, phenotype);
        if |GlobalStudies(age, batch, phenotype)| > 1 {
          AddError(AgeVariables, Blank);
          if |batch| > 0 {
            AddError(BatchVariables, Blank);
          }
          AddError(PhenotypeVariables, Blank);
          raised := Some(MultipleGlobalStudies);
        }
      } else {
        AddTwo(|age| > 0, AgeVariables, HarmonizedPhenotypeVariables, HarmonizedWithSource);
        AddTwo(|batch| > 0, BatchVariables, HarmonizedPhenotypeVariables, HarmonizedWithSource);
        AddTwo(|phenotype| > 0, PhenotypeVariables, HarmonizedPhenotypeVariables, HarmonizedWithSource);
      }
    }

    /**
     * UnitRecipeForm.clean through the form's full cleaning: the mixin's
     * errors; a study error it raises becomes a form-wide error and skips
     * the name check; otherwise, on creation, a name the user already used
     * flags the name field.
     */
    method UnitRecipeFormClean(isCreate: bool, name: string, existingNames: seq<string>,
                               age: set<RecipeTrait>, batch: set<RecipeTrait>, phenotype: set<RecipeTrait>,
                               harmonized: set<nat>)
      modifies this`errors
      ensures RaisesStudyError(age, batch, phenotype, harmonized) ==>
                errors == AfterUnitRecipeClean(old(errors), age, batch, phenotype, harmonized) + [(NonField, MultipleGlobalStudies)]
      ensures !RaisesStudyError(age, batch, phenotype, harmonized) ==>
                errors == AfterUnitRecipeClean(old(errors), age, batch, phenotype, harmonized)
                          + (if NameClash(isCreate, name, existingNames) then [(Name, DuplicateName(name))] else [])
    {
      var raised := UnitRecipeClean(age, batch, phenotype, harmonized);
      if raised.Some? {
        AddError(NonField, raised.value);
        return;
      }
      if isCreate && name in existingNames {
        AddError(Name, DuplicateName(name));
      }
    }

    /**
     * HarmonizationRecipeForm.clean: on creation, a name the user already
     * used flags the name field; units by more than one creator flag the
     * units field.
     */
    method HarmonizationRecipeFormClean(isCreate: bool, name: string, existingNames: seq<string>, units: seq<UnitChoice>)
      modifies this`errors
      ensures errors == old(errors)
                        + (if NameClash(isCreate, name, existingNames) then [(Name, DuplicateName(name))] else [])
                        + (if |Creators(units)| > 1 then [(Units, UnitsFromSeveralCreators)] else [])
    {
      if isCreate && name in existingNames {
        AddError(Name, DuplicateName(name));
      }
      if |Creators(units)| > 1 {
        AddError(Units, UnitsFromSeveralCreators);
      }
    }
  }

  /** Units all made by one user never trip the creator check. */
  lemma OneCreatorAccepted(units: seq<UnitChoice>, creator: nat)
    requires forall u :: u in units ==> u.creator == creator
    ensures |Creators(units)| <= 1
  {
    assert Creators(units) <= {creator};
    if |units| > 0 {
      assert units[0] in units;
      assert Creators(units) == {creator};
    }
  }
}
