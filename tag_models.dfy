/**
 * The tagging and quality-review records of tags/models.py: phenotype tags,
 * tagged traits (a tag applied to a source trait), and the one-to-one chain
 * TaggedTrait -> DCCReview -> {StudyResponse, DCCDecision}.
 *
 * The database is a TagStore object whose maps go from primary key to row.
 * Because each review, response and decision is one-to-one with its parent,
 * all three are keyed by the primary key of the tagged trait they hang from.
 */
module TagModels {
  import opened Wrappers
  import PyStr

  datatype Tag = Tag(title: string, lowerTitle: string, description: string, instructions: string, creator: nat)

  datatype TaggedTrait = TaggedTrait(sourceTrait: nat, tag: nat, creator: nat, archived: bool)

  /** DCCReview.status: STATUS_FOLLOWUP is 0 and STATUS_CONFIRMED is 1 in the database. */
  datatype ReviewStatus = StatusFollowup | StatusConfirmed

  datatype DCCReview = DCCReview(status: ReviewStatus, comment: string, creator: nat)

  /** StudyResponse.status: STATUS_DISAGREE is 0 and STATUS_AGREE is 1. */
  datatype ResponseStatus = StatusDisagree | StatusAgree

  datatype StudyResponse = StudyResponse(status: ResponseStatus, comment: string, creator: nat)

  /** DCCDecision.decision: DECISION_REMOVE is 0 and DECISION_CONFIRM is 1. */
  datatype Decision = DecisionRemove | DecisionConfirm

  datatype DCCDecision = DCCDecision(decision: Decision, comment: string, creator: nat)

  /** DeleteNotAllowedError, Django's IntegrityError on a unique column, and a failed full_clean(). */
  datatype TagError = DeleteNotAllowed | IntegrityError | ValidationError

  /** What TaggedTrait.delete() did when it did not raise. */
  datatype DeleteOutcome = HardDeleted | Archived

  /** The Tag as Tag.save() writes it: title stripped, lower_title derived from the stripped title. */
  function SavedTag(t: Tag): Tag {
    var title := PyStr.Strip(t.title);
    t.(title := title, lowerTitle := PyStr.Lower(title))
  }

  /** Some tag other than the one with primary key pk already has this lower_title. */
  predicate LowerTitleTaken(tags: map<nat, Tag>, lowerTitle: string, pk: Option<nat>) {
    exists k :: k in tags && tags[k].lowerTitle == lowerTitle && (pk.None? || k != pk.value)
  }

  /** A tagged trait for this (trait, tag) pair already exists. */
  predicate PairTaken(tts: map<nat, TaggedTrait>, sourceTrait: nat, tag: nat) {
    exists k :: k in tts && tts[k].sourceTrait == sourceTrait && tts[k].tag == tag
  }

  /** Tag.lower_title is unique=True. */
  predicate UniqueLowerTitles(tags: map<nat, Tag>) {
    forall a, b :: a in tags && b in tags && tags[a].lowerTitle == tags[b].lowerTitle ==> a == b
  }

  /** Writing a tag whose lower_title no other row has keeps lower titles unique. */
  lemma UniqueAfterSave(tags: map<nat, Tag>, key: nat, saved: Tag)
    requires UniqueLowerTitles(tags)
    requires forall k :: k in tags && tags[k].lowerTitle == saved.lowerTitle ==> k == key
    ensures UniqueLowerTitles(tags[key := saved])
  {
  }

  /** TaggedTrait's unique_together = (('trait', 'tag'),). */
  predicate UniquePairs(tts: map<nat, TaggedTrait>) {
    forall a, b :: a in tts && b in tts && tts[a].sourceTrait == tts[b].sourceTrait && tts[a].tag == tts[b].tag ==> a == b
  }

  /** tts with the archived flag of row pk set to flag. */
  function WithArchived(tts: map<nat, TaggedTrait>, pk: nat, flag: bool): map<nat, TaggedTrait>
    requires pk in tts
  {
    tts[pk := tts[pk].(archived := flag)]
  }

  class TagStore {
    var tags: map<nat, Tag>
    var taggedTraits: map<nat, TaggedTrait>
    var reviews: map<nat, DCCReview>
    var responses: map<nat, StudyResponse>
    var decisions: map<nat, DCCDecision>
    var nextTagPk: nat
    var nextTaggedTraitPk: nat

    /**
     * The database constraints: every review hangs from an existing tagged
     * trait, every response and decision from an existing review, lower
     * titles are unique, (trait, tag) pairs are unique, and the next
     * auto-increment key is above every key in use.
     */
    ghost predicate Valid()
      reads this
    {
      (forall k :: k in tags ==> k < nextTagPk)
      && (forall k :: k in taggedTraits ==> k < nextTaggedTraitPk)
      && (forall k :: k in reviews ==> k in taggedTraits)
      && (forall k :: k in responses ==> k in reviews)
      && (forall k :: k in decisions ==> k in reviews)
      && UniqueLowerTitles(tags)
      && UniquePairs(taggedTraits)
    }

    constructor ()
      ensures Valid()
      ensures tags == map[] && taggedTraits == map[] && reviews == map[] && responses == map[] && decisions == map[]
    {
      tags, taggedTraits, reviews, responses, decisions := map[], map[], map[], map[], map[];
      nextTagPk, nextTaggedTraitPk := 0, 0;
    }

    /**
     * Tag.save(): strips the title, sets lower_title to its lower case, and
     * inserts (pk None) or writes row pk; the unique lower_title column
     * refuses a title that another tag already has up to case and
     * surrounding whitespace.
     */
    method SaveTag(pk: Option<nat>, t: Tag) returns (r: Result<nat, TagError>)
      requires Valid()
      modifies this`tags, this`nextTagPk
      ensures Valid()
      ensures r.Ok? <==> !LowerTitleTaken(old(tags), SavedTag(t).lowerTitle, pk)
      ensures r.Ok? ==> tags == old(tags)[r.value := SavedTag(t)]
      ensures r.Ok? && pk.Some? ==> r.value == pk.value
      ensures r.Ok? && pk.None? ==> r.value !in old(tags)
      ensures r.Err? ==> r == Err(IntegrityError) && tags == old(tags)
    {
      var saved := SavedTag(t);
      if exists k :: k in tags && tags[k].lowerTitle == saved.lowerTitle && (pk.None? || k != pk.value) {
        return Err(IntegrityError);
      }
      var key := if pk.Some? then pk.value else nextTagPk;
      UniqueAfterSave(tags, key, saved);
      tags := tags[key := saved];
      if key >= nextTagPk {
        nextTagPk := key + 1;
      }
      r := Ok(key);
    }

    /** TaggedTrait.archive(): sets archived and saves the row; nothing else changes. */
    method Archive(pk: nat)
      requires Valid() && pk in taggedTraits
      modifies this`taggedTraits
      ensures Valid()
      ensures taggedTraits == WithArchived(old(taggedTraits), pk, true)
    {
      taggedTraits := WithArchived(taggedTraits, pk, true);
    }

    /** TaggedTrait.unarchive(): clears archived and saves the row; nothing else changes. */
    method Unarchive(pk: nat)
      requires Valid() && pk in taggedTraits
      modifies this`taggedTraits
      ensures Valid()
      ensures taggedTraits == WithArchived(old(taggedTraits), pk, false)
    {
      taggedTraits := WithArchived(taggedTraits, pk, false);
    }

    /** TaggedTrait.hard_delete(): removes the row; the review, response and decision go with it (CASCADE). */
    method HardDelete(pk: nat)
      requires Valid()
      modifies this`taggedTraits, this`reviews, this`responses, this`decisions
      ensures Valid()
      ensures taggedTraits == old(taggedTraits) - {pk}
      ensures reviews == old(reviews) - {pk} && responses == old(responses) - {pk} && decisions == old(decisions) - {pk}
    {
      taggedTraits := taggedTraits - {pk};
      reviews := reviews - {pk};
      responses := responses - {pk};
      decisions := decisions - {pk};
    }

    /**
     * TaggedTrait.delete(): an unreviewed tagged trait is hard-deleted, one
     * whose review needs study followup is archived and keeps its review,
     * and one whose review is confirmed raises DeleteNotAllowedError.
     */
    method Delete(pk: nat) returns (r: Result<DeleteOutcome, TagError>)
      requires Valid() && pk in taggedTraits
      modifies this`taggedTraits, this`reviews, this`responses, this`decisions
      ensures Valid()
      ensures pk !in old(reviews) ==> r == Ok(HardDeleted) && taggedTraits == old(taggedTraits) - {pk}
      ensures pk in old(reviews) && old(reviews)[pk].status == StatusConfirmed ==>
                r == Err(DeleteNotAllowed) && taggedTraits == old(taggedTraits)
      ensures pk in old(reviews) && old(reviews)[pk].status == StatusFollowup ==>
                r == Ok(Archived) && taggedTraits == WithArchived(old(taggedTraits), pk, true)
      ensures reviews == old(reviews) && responses == old(responses) && decisions == old(decisions)
    {
      if pk in reviews {
        if reviews[pk].status == StatusConfirmed {
          r := Err(DeleteNotAllowed);
        } else {
          Archive(pk);
          r := Ok(Archived);
        }
      } else {
        HardDelete(pk);
        r := Ok(HardDeleted);
      }
    }

    /** DCCReview.delete(): refused while a study response exists; otherwise the review and its decision go. */
    method DeleteReview(pk: nat) returns (r: Result<(), TagError>)
      requires Valid() && pk in reviews
      modifies this`reviews, this`decisions
      ensures Valid()
      ensures pk in old(responses) ==> r == Err(DeleteNotAllowed) && reviews == old(reviews) && decisions == old(decisions)
      ensures pk !in old(responses) ==> r == Ok(()) && reviews == old(reviews) - {pk} && decisions == old(decisions) - {pk}
    {
      if pk in responses {
        return Err(DeleteNotAllowed);
      }
      reviews := reviews - {pk};
      decisions := decisions - {pk};
      r := Ok(());
    }

    /** DCCReview.hard_delete(): removes the review whatever hangs from it, with its response and decision. */
    method HardDeleteReview(pk: nat)
      requires Valid() && pk in reviews
      modifies this`reviews, this`responses, this`decisions
      ensures Valid()
      ensures reviews == old(reviews) - {pk} && responses == old(responses) - {pk} && decisions == old(decisions) - {pk}
    {
      reviews := reviews - {pk};
      responses := responses - {pk};
      decisions := decisions - {pk};
    }

    /**
     * full_clean() then save() of a new TaggedTrait (archived defaults to
     * False): validation fails when the (trait, tag) pair is already taken.
     */
    method CreateTaggedTrait(sourceTrait: nat, tag: nat, creator: nat) returns (r: Result<nat, TagError>)
      requires Valid()
      modifies this`taggedTraits, this`nextTaggedTraitPk
      ensures Valid()
      ensures r.Err? <==> PairTaken(old(taggedTraits), sourceTrait, tag)
      ensures r.Err? ==> r == Err(ValidationError) && taggedTraits == old(taggedTraits)
                         && nextTaggedTraitPk == old(nextTaggedTraitPk)
      ensures r.Ok? ==> r.value == old(nextTaggedTraitPk) && nextTaggedTraitPk == old(nextTaggedTraitPk) + 1
                        && taggedTraits == old(taggedTraits)[r.value := TaggedTrait(sourceTrait, tag, creator, false)]
    {
      if exists k :: k in taggedTraits && taggedTraits[k].sourceTrait == sourceTrait && taggedTraits[k].tag == tag {
        return Err(ValidationError);
      }
      r := Ok(nextTaggedTraitPk);
      taggedTraits := taggedTraits[nextTaggedTraitPk := TaggedTrait(sourceTrait, tag, creator, false)];
      nextTaggedTraitPk := nextTaggedTraitPk + 1;
    }

    /**
     * Rolls the tagged-trait table back to a state saved at the start of a
     * transaction.  The auto-increment counter is not rolled back: InnoDB
     * does not give back the keys a rolled-back transaction used.
     */
    method RollBackTaggedTraits(saved: map<nat, TaggedTrait>)
      requires Valid()
      requires UniquePairs(saved) && (forall k :: k in saved ==> k < nextTaggedTraitPk)
      requires forall k :: k in reviews ==> k in saved
      modifies this`taggedTraits
      ensures Valid()
      ensures taggedTraits == saved
    {
      taggedTraits := saved;
    }

    /**
     * QuerySet.delete() over the tagged traits with keys in selected: if any
     * of them has a confirmed review it raises DeleteNotAllowedError and
     * nothing changes; otherwise the unreviewed ones are removed and the
     * reviewed ones (all needing followup) are archived.
     */
    method DeleteSelection(selected: set<nat>) returns (r: Result<(), TagError>)
      requires Valid()
      modifies this`taggedTraits
      ensures Valid()
      ensures r.Err? <==> exists k :: k in selected && k in reviews && reviews[k].status == StatusConfirmed
      ensures r.Err? ==> r == Err(DeleteNotAllowed) && taggedTraits == old(taggedTraits)
      ensures r.Ok? ==> taggedTraits.Keys == old(taggedTraits).Keys - (selected - reviews.Keys)
      ensures r.Ok? ==> forall k :: k in taggedTraits ==>
                taggedTraits[k] == if k in selected then old(taggedTraits)[k].(archived := true) else old(taggedTraits)[k]
    {
      if exists k :: k in selected && k in reviews && reviews[k].status == StatusConfirmed {
        return Err(DeleteNotAllowed);
      }
      var old_tts := taggedTraits;
      taggedTraits := map k | k in old_tts && !(k in selected && k !in reviews) ::
                        if k in selected then old_tts[k].(archived := true) else old_tts[k];
      r := Ok(());
    }
  }

  /** Saving a tag twice writes the same row as saving it once. */
  lemma SavedTagIdempotent(t: Tag)
    ensures SavedTag(SavedTag(t)) == SavedTag(t)
  {
    PyStr.StripIdempotent(t.title);
  }

  /** Whitespace around a title does not change the saved title or lower_title. */
  lemma SurroundingSpaceIgnored(t: Tag, pre: string, post: string)
    requires PyStr.AllSpace(pre) && PyStr.AllSpace(post)
    ensures SavedTag(t.(title := pre + t.title + post)) == SavedTag(t)
  {
    PyStr.StripSurroundingSpace(pre, t.title, post);
  }

  /**
   * Two titles equal up to ASCII case and surrounding whitespace have the same
   * lower_title, so once one is saved, saving the other is refused.
   */
  lemma CaseVariantsCollide(a: Tag, b: Tag)
    requires |PyStr.Strip(a.title)| == |PyStr.Strip(b.title)|
    requires forall k :: 0 <= k < |PyStr.Strip(a.title)| ==>
               PyStr.LowerChar(PyStr.Strip(a.title)[k]) == PyStr.LowerChar(PyStr.Strip(b.title)[k])
    ensures SavedTag(a).lowerTitle == SavedTag(b).lowerTitle
    ensures forall tags: map<nat, Tag>, k: nat :: k in tags && tags[k] == SavedTag(a) ==>
              LowerTitleTaken(tags, SavedTag(b).lowerTitle, None)
  {
  }

  /** Archiving and unarchiving are idempotent and only ever touch the one flag. */
  lemma ArchiveIdempotent(tts: map<nat, TaggedTrait>, pk: nat, flag: bool)
    requires pk in tts
    ensures WithArchived(WithArchived(tts, pk, flag), pk, flag) == WithArchived(tts, pk, flag)
    ensures WithArchived(tts, pk, flag).Keys == tts.Keys
    ensures forall k :: k in tts && k != pk ==> WithArchived(tts, pk, flag)[k] == tts[k]
    ensures WithArchived(tts, pk, flag)[pk].sourceTrait == tts[pk].sourceTrait && WithArchived(tts, pk, flag)[pk].tag == tts[pk].tag
    ensures WithArchived(tts, pk, flag)[pk].creator == tts[pk].creator
  {
  }
}
