/**
 * The TaggedTrait query-set filters. tags/querysets.py defines unreviewed();
 * the other status filters, archived(), non_archived() and current() are
 * fixed here by what tags/test_models.py asserts about them.
 */
module TagQuerysets {
  import opened TagModels

  /** unreviewed(): the tagged traits with no DCCReview. */
  function Unreviewed(tts: map<nat, TaggedTrait>, reviews: map<nat, DCCReview>): set<nat> {
    set k | k in tts && k !in reviews
  }

  /** need_followup(): reviewed with status followup, whatever response or decision follows. */
  function NeedFollowup(tts: map<nat, TaggedTrait>, reviews: map<nat, DCCReview>): set<nat> {
    set k | k in tts && k in reviews && reviews[k].status == StatusFollowup
  }

  /** confirmed(): a confirmed review, or a decision to confirm. */
  function Confirmed(tts: map<nat, TaggedTrait>, reviews: map<nat, DCCReview>, decisions: map<nat, DCCDecision>): set<nat> {
    set k | k in tts && k in reviews && (reviews[k].status == StatusConfirmed || (k in decisions && decisions[k].decision == DecisionConfirm))
  }

  /** need_study_response(): followup reviews, except those decided before any study response came. */
  function NeedStudyResponse(tts: map<nat, TaggedTrait>, reviews: map<nat, DCCReview>,
                             responses: map<nat, StudyResponse>, decisions: map<nat, DCCDecision>): set<nat> {
    set k | k in tts && k in reviews && reviews[k].status == StatusFollowup && (k in responses || k !in decisions)
  }

  /** need_decision(): followup reviews the study disagreed with, decided or not. */
  function NeedDecision(tts: map<nat, TaggedTrait>, reviews: map<nat, DCCReview>, responses: map<nat, StudyResponse>): set<nat> {
    set k | k in tts && k in reviews && reviews[k].status == StatusFollowup && k in responses && responses[k].status == StatusDisagree
  }

  function Archived(tts: map<nat, TaggedTrait>): set<nat> {
    set k | k in tts && tts[k].archived
  }

  function NonArchived(tts: map<nat, TaggedTrait>): set<nat> {
    set k | k in tts && !tts[k].archived
  }

  /** current(): the tagged traits whose source trait is not in a deprecated study version. */
  function Current(tts: map<nat, TaggedTrait>, deprecatedTraits: set<nat>): set<nat> {
    set k | k in tts && tts[k].sourceTrait !in deprecatedTraits
  }

  /** Every tagged trait is exactly one of: unreviewed, reviewed for followup, reviewed as confirmed. */
  lemma ReviewStatusPartition(tts: map<nat, TaggedTrait>, reviews: map<nat, DCCReview>)
    ensures Unreviewed(tts, reviews) + NeedFollowup(tts, reviews)
            + (set k | k in tts && k in reviews && reviews[k].status == StatusConfirmed) == tts.Keys
    ensures Unreviewed(tts, reviews) !! NeedFollowup(tts, reviews)
    ensures Unreviewed(tts, reviews) !! Confirmed(tts, reviews, map[])
  {
  }

  /** need_decision is within need_study_response, which is within need_followup. */
  lemma FollowupStagesNest(tts: map<nat, TaggedTrait>, reviews: map<nat, DCCReview>,
                           responses: map<nat, StudyResponse>, decisions: map<nat, DCCDecision>)
    ensures NeedDecision(tts, reviews, responses) <= NeedStudyResponse(tts, reviews, responses, decisions)
    ensures NeedStudyResponse(tts, reviews, responses, decisions) <= NeedFollowup(tts, reviews)
  {
  }

  /** No status filter other than unreviewed() contains an unreviewed tagged trait. */
  lemma UnreviewedInNoStage(tts: map<nat, TaggedTrait>, reviews: map<nat, DCCReview>,
                            responses: map<nat, StudyResponse>, decisions: map<nat, DCCDecision>)
    ensures Unreviewed(tts, reviews) !! NeedFollowup(tts, reviews)
    ensures Unreviewed(tts, reviews) !! Confirmed(tts, reviews, decisions)
    ensures Unreviewed(tts, reviews) !! NeedStudyResponse(tts, reviews, responses, decisions)
    ensures Unreviewed(tts, reviews) !! NeedDecision(tts, reviews, responses)
  {
  }

  /** A followup review decided without a study response needs no response; a remove decision does not confirm. */
  lemma DecisionWithoutResponse(tts: map<nat, TaggedTrait>, reviews: map<nat, DCCReview>,
                                responses: map<nat, StudyResponse>, decisions: map<nat, DCCDecision>, k: nat)
    requires k in tts && k in reviews && reviews[k].status == StatusFollowup && k !in responses && k in decisions
    ensures k !in NeedStudyResponse(tts, reviews, responses, decisions)
    ensures k !in NeedDecision(tts, reviews, responses)
    ensures k in NeedFollowup(tts, reviews)
    ensures k in Confirmed(tts, reviews, decisions) <==> decisions[k].decision == DecisionConfirm
  {
  }

  /** archived() and non_archived() split the tagged traits in two. */
  lemma ArchivedPartition(tts: map<nat, TaggedTrait>)
    ensures Archived(tts) + NonArchived(tts) == tts.Keys
    ensures Archived(tts) !! NonArchived(tts)
  {
  }

  /** Archiving one tagged trait moves it from non_archived() to archived() and moves nothing else. */
  lemma ArchiveMovesOne(tts: map<nat, TaggedTrait>, pk: nat)
    requires pk in tts
    ensures Archived(WithArchived(tts, pk, true)) == Archived(tts) + {pk}
    ensures NonArchived(WithArchived(tts, pk, true)) == NonArchived(tts) - {pk}
  {
  }
}
