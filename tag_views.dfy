/** The state-changing parts of tags/views.py: the taggable-studies gate and the two tagging views. */
module TagViews {
  import opened Wrappers
  import opened TagModels

  /** Failures a view can end in: a Python AttributeError or TypeError, or an error from the tag models. */
  datatype ViewError = AttributeError | TypeError | Tagging(error: TagError)

  /**
   * TaggableStudiesRequiredMixin.test_func: the user's first UserData row
   * must exist (otherwise the attribute lookup fails) and name at least one
   * taggable study.
   */
  function TaggableStudiesTest(firstTaggableStudies: Option<set<nat>>): (r: Result<bool, ViewError>)
    ensures r.Err? <==> firstTaggableStudies.None?
    ensures r.Ok? ==> (r.value <==> exists s :: s in firstTaggableStudies.value)
  {
    match firstTaggableStudies
    case None => Err(AttributeError)
    case Some(studies) => Ok(|studies| > 0)
  }

  /**
   * TaggedTraitCreate.form_valid: the requesting user becomes the creator and
   * the new tagged trait is saved.
   */
  method TaggedTraitCreateFormValid(store: TagStore, sourceTrait: nat, tag: nat, user: nat) returns (r: Result<nat, TagError>)
    requires store.Valid()
    modifies store`taggedTraits, store`nextTaggedTraitPk
    ensures store.Valid()
    ensures r.Err? <==> PairTaken(old(store.taggedTraits), sourceTrait, tag)
    ensures r.Ok? ==> r.value !in old(store.taggedTraits)
                      && store.taggedTraits == old(store.taggedTraits)[r.value := TaggedTrait(sourceTrait, tag, user, false)]
    ensures r.Err? ==> store.taggedTraits == old(store.taggedTraits)
  {
    r := store.CreateTaggedTrait(sourceTrait, tag, user);
  }

  /** The rows a batch adds: consecutive keys from start, one per trait, in order. */
  function NewRows(start: nat, traits: seq<nat>, tag: nat, user: nat): map<nat, TaggedTrait> {
    map k: nat | start <= k < start + |traits| && InBatch(start, traits, k) :: TaggedTrait(traits[k - start], tag, user, false)
  }

  /** Key k is one of the keys a batch of traits gets when numbering starts at start. */
  predicate InBatch(start: nat, traits: seq<nat>, k: nat) {
    start <= k < start + |traits|
  }

  /**
   * The batch is refused at its i-th trait: the traits before it can be
   * saved, and it cannot.  Each of the i saved rows used up a key.
   */
  predicate RefusedAt(tts: map<nat, TaggedTrait>, traits: seq<nat>, tag: nat, i: nat) {
    i < |traits| && BatchAllowed(tts, traits[..i], tag) && !BatchAllowed(tts, traits[..i + 1], tag)
  }

  /** A batch can be saved: no trait is already tagged with tag, and no trait is listed twice. */
  predicate BatchAllowed(tts: map<nat, TaggedTrait>, traits: seq<nat>, tag: nat) {
    (forall j :: 0 <= j < |traits| ==> !PairTaken(tts, traits[j], tag))
    && (forall i, j :: 0 <= i < j < |traits| ==> traits[i] != traits[j])
  }

  lemma NewRowsStep(start: nat, traits: seq<nat>, i: nat, tag: nat, user: nat, saved: map<nat, TaggedTrait>)
    requires i < |traits|
    requires forall k :: k in saved ==> k < start
    ensures (saved + NewRows(start, traits[..i], tag, user))[start + i := TaggedTrait(traits[i], tag, user, false)]
            == saved + NewRows(start, traits[..i + 1], tag, user)
  {
    var before, after := NewRows(start, traits[..i], tag, user), NewRows(start, traits[..i + 1], tag, user);
    assert forall j: nat :: j < i ==> traits[..i][j] == traits[..i + 1][j];
    assert after == before[start + i := TaggedTrait(traits[i], tag, user, false)];
  }

  /** Adding the next row keeps the batch admissible exactly when its pair was free. */
  lemma BatchAllowedStep(saved: map<nat, TaggedTrait>, start: nat, traits: seq<nat>, i: nat, tag: nat, user: nat)
    requires i < |traits|
    requires forall k :: k in saved ==> k < start
    requires BatchAllowed(saved, traits[..i], tag)
    ensures !PairTaken(saved + NewRows(start, traits[..i], tag, user), traits[i], tag)
            <==> BatchAllowed(saved, traits[..i + 1], tag)
  {
    if PairTaken(saved + NewRows(start, traits[..i], tag, user), traits[i], tag) {
      TakenBlocksBatch(saved, start, traits, i, tag, user);
    } else {
      FreeExtendsBatch(saved, start, traits, i, tag, user);
    }
  }

  /** A pair already saved, or already added earlier in the batch, makes the longer batch inadmissible. */
  lemma TakenBlocksBatch(saved: map<nat, TaggedTrait>, start: nat, traits: seq<nat>, i: nat, tag: nat, user: nat)
    requires i < |traits|
    requires PairTaken(saved + NewRows(start, traits[..i], tag, user), traits[i], tag)
    ensures !BatchAllowed(saved, traits[..i + 1], tag)
  {
    var rows := NewRows(start, traits[..i], tag, user);
    var cur := saved + rows;
    var p := traits[..i + 1];
    var k :| k in cur && cur[k].sourceTrait == traits[i] && cur[k].tag == tag;
    if k in rows {
      var j := k - start;
      assert p[j] == traits[..i][j] == traits[i] == p[i];
    } else {
      assert PairTaken(saved, p[i], tag);
    }
  }

  /** A free pair whose trait is new to the batch keeps the longer batch admissible. */
  lemma FreeExtendsBatch(saved: map<nat, TaggedTrait>, start: nat, traits: seq<nat>, i: nat, tag: nat, user: nat)
    requires i < |traits|
    requires forall k :: k in saved ==> k < start
    requires BatchAllowed(saved, traits[..i], tag)
    requires !PairTaken(saved + NewRows(start, traits[..i], tag, user), traits[i], tag)
    ensures BatchAllowed(saved, traits[..i + 1], tag)
  {
    var rows := NewRows(start, traits[..i], tag, user);
    var cur := saved + rows;
    forall j | 0 <= j < i ensures traits[j] != traits[i] {
      assert start + j in rows && rows[start + j].sourceTrait == traits[..i][j];
      assert cur[start + j] == rows[start + j];
    }
    forall k | k in saved ensures !(saved[k].sourceTrait == traits[i] && saved[k].tag == tag) {
      assert k !in rows && cur[k] == saved[k];
    }
    var p := traits[..i + 1];
    assert forall j :: 0 <= j < i ==> p[j] == traits[..i][j];
  }

  /** A batch whose first i + 1 traits cannot be saved cannot be saved. */
  lemma NotAllowedExtends(saved: map<nat, TaggedTrait>, traits: seq<nat>, i: nat, tag: nat)
    requires i < |traits| && !BatchAllowed(saved, traits[..i + 1], tag)
    ensures !BatchAllowed(saved, traits, tag)
  {
    var p := traits[..i + 1];
    if BatchAllowed(saved, traits, tag) {
      assert forall j :: 0 <= j < |p| ==> p[j] == traits[j];
    }
  }

  /**
   * One pass of that loop: the i-th trait is saved with the tag, or, when
   * full_clean() refuses it, the table is rolled back to its state before
   * the batch and the batch is known to be inadmissible.
   */
  method SaveNext(store: TagStore, saved: map<nat, TaggedTrait>, savedNext: nat, formTraits: seq<nat>, i: nat,
                  formTag: nat, user: nat) returns (ok: bool)
    requires i < |formTraits|
    requires store.Valid()
    requires UniquePairs(saved) && forall k :: k in saved ==> k < savedNext
    requires forall k :: k in store.reviews ==> k in saved
    requires store.taggedTraits == saved + NewRows(savedNext, formTraits[..i], formTag, user)
    requires store.nextTaggedTraitPk == savedNext + i
    requires BatchAllowed(saved, formTraits[..i], formTag)
    modifies store`taggedTraits, store`nextTaggedTraitPk
    ensures store.Valid()
    ensures ok <==> BatchAllowed(saved, formTraits[..i + 1], formTag)
    ensures ok ==> store.taggedTraits == saved + NewRows(savedNext, formTraits[..i + 1], formTag, user)
                   && store.nextTaggedTraitPk == savedNext + i + 1
    ensures !ok ==> !BatchAllowed(saved, formTraits, formTag)
                    && store.taggedTraits == saved && store.nextTaggedTraitPk == savedNext + i
  {
    BatchAllowedStep(saved, savedNext, formTraits, i, formTag, user);
    var res := store.CreateTaggedTrait(formTraits[i], formTag, user);
    if res.Err? {
      store.RollBackTaggedTraits(saved);
      NotAllowedExtends(saved, formTraits, i, formTag);
      return false;
    }
    NewRowsStep(savedNext, formTraits, i, formTag, user, saved);
    ok := true;
  }

  /**
   * The loop of ManyTaggedTraitsCreate.form_valid: one TaggedTrait per
   * trait, in order, each checked by full_clean() before save(); the first
   * refusal rolls the whole batch back, as the request's transaction does.
   */
  method SaveBatch(store: TagStore, formTag: nat, formTraits: seq<nat>, user: nat) returns (r: Result<(), TagError>)
    requires store.Valid()
    modifies store`taggedTraits, store`nextTaggedTraitPk
    ensures store.Valid()
    ensures r.Ok? <==> BatchAllowed(old(store.taggedTraits), formTraits, formTag)
    ensures r.Ok? ==> store.taggedTraits == old(store.taggedTraits) + NewRows(old(store.nextTaggedTraitPk), formTraits, formTag, user)
    ensures r.Err? ==> r == Err(ValidationError) && store.taggedTraits == old(store.taggedTraits)
    ensures r.Err? ==> exists i :: 0 <= i < |formTraits| && RefusedAt(old(store.taggedTraits), formTraits, formTag, i)
                                   && store.nextTaggedTraitPk == old(store.nextTaggedTraitPk) + i
  {
    var saved, savedNext := store.taggedTraits, store.nextTaggedTraitPk;
    var i := 0;
    assert formTraits[..0] == [];
    assert NewRows(savedNext, [], formTag, user) == map[];
    assert saved + map[] == saved;
    while i < |formTraits|
      invariant 0 <= i <= |formTraits|
      invariant store.Valid()
      invariant forall k :: k in store.reviews ==> k in saved
      invariant UniquePairs(saved) && forall k :: k in saved ==> k < savedNext
      invariant store.taggedTraits == saved + NewRows(savedNext, formTraits[..i], formTag, user)
      invariant store.nextTaggedTraitPk == savedNext + i
      invariant BatchAllowed(saved, formTraits[..i], formTag)
    {
      var ok := SaveNext(store, saved, savedNext, formTraits, i, formTag, user);
      if !ok {
        assert RefusedAt(saved, formTraits, formTag, i);
        return Err(ValidationError);
      }
      i := i + 1;
    }
    assert formTraits[..i] == formTraits;
    r := Ok(());
  }

  /**
   * ManyTaggedTraitsCreate.form_valid as written: the first TaggedTrait is
   * built with a `recommended` keyword that the model has no field for, so
   * Model.__init__ raises TypeError before anything is saved.  The result
   * is the tagged-trait table afterwards.
   */
  function FormValidAsWritten(tts: map<nat, TaggedTrait>, formTraits: seq<nat>): (r: Result<map<nat, TaggedTrait>, ViewError>)
    ensures r.Err? <==> |formTraits| > 0
    ensures r.Err? ==> r.error == TypeError
    ensures r.Ok? ==> r.value == tts
  {
    if |formTraits| == 0 then Ok(tts) else Err(TypeError)
  }

  /**
   * A batch of one free trait, which the intended view saves, makes the
   * view as written fail and save nothing.
   */
  lemma BulkTaggingFailsAsWritten(tag: nat, sourceTrait: nat)
    ensures BatchAllowed(map[], [sourceTrait], tag)
    ensures FormValidAsWritten(map[], [sourceTrait]) == Err(TypeError)
  {
  }

  /**
   * ManyTaggedTraitsCreate: the view object keeps the tag and traits of the
   * last successful bulk tagging for its success message.
   */
  class ManyTaggedTraitsCreate {
    var tag: Option<nat>
    var traits: seq<nat>

    constructor ()
      ensures tag == None && traits == []
    {
      tag, traits := None, [];
    }

    /**
     * form_valid: one TaggedTrait per selected trait, in order, all with the
     * form's tag and the requesting user as creator, each checked by
     * full_clean() before save(). The request runs in one transaction
     * (ATOMIC_REQUESTS), so a failure part-way leaves no row of the batch.
     */
    method FormValid(store: TagStore, formTag: nat, formTraits: seq<nat>, user: nat) returns (r: Result<(), TagError>)
      requires store.Valid()
      modifies this, store`taggedTraits, store`nextTaggedTraitPk
      ensures store.Valid()
      ensures r.Ok? <==> BatchAllowed(old(store.taggedTraits), formTraits, formTag)
      ensures r.Ok? ==> store.taggedTraits == old(store.taggedTraits) + NewRows(old(store.nextTaggedTraitPk), formTraits, formTag, user)
                        && tag == Some(formTag) && traits == formTraits
      ensures r.Err? ==> r == Err(ValidationError) && store.taggedTraits == old(store.taggedTraits)
                         && tag == old(tag) && traits == old(traits)
      ensures r.Err? ==> exists i :: 0 <= i < |formTraits| && RefusedAt(old(store.taggedTraits), formTraits, formTag, i)
                                     && store.nextTaggedTraitPk == old(store.nextTaggedTraitPk) + i
    {
      r := SaveBatch(store, formTag, formTraits, user);
      if r.Err? {
        return;
      }
      tag, traits := Some(formTag), formTraits;
      r := Ok(());
    }
  }
}
