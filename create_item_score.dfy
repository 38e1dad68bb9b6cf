/** The criteria-score editor of `CreateRankingItemScoreScreen`
    (`src/screens/Core/CreateRankingItemScoreScreen/index.tsx`): the ranking's criteria are
    merged with the user's existing scores into one editable entry per criterion; one criterion
    at a time is selected and its score edited; saving sends one score request per entry with a
    non-zero score and resets the screen. Score texts are parsed outside this model: a parsed
    score is `Some(n)`, or `None` when the text is not a number. */
module CreateItemScore {
  import opened Wrappers
  import opened RankingItemVotes

  /** `GetRankingCriteriaResponse`. */
  datatype RankingCriteria = RankingCriteria(id: string, rankingId: string, name: string, createdAt: string, updatedAt: string)

  /** `RankingItemCriteriaScore`: a criterion with an optional score (`None` for `undefined` or
      `NaN`). */
  datatype CriteriaScore = CriteriaScore(
    id: string, rankingId: string, name: string, createdAt: string, updatedAt: string, score: Option<int>)

  /** The body of one `CreateRankingCriteriaScore` call. */
  datatype ScoreRequest = ScoreRequest(rankingItemId: string, rankingId: string, rankingCriteriaId: string, score: int)

  /** `x || 0` for a score: `undefined`, `NaN` and `0` give `0`. */
  function OrZero(score: Option<int>): (n: int)
    ensures score.Some? ==> n == score.value
    ensures score.None? ==> n == 0
  {
    score.GetOr(0)
  }

  /** `scores?.find(item => item.rankingCriteria.id === criteriaId)?.score`: the score of the
      first server score of that criterion, if any. */
  function FirstScoreFor(scores: seq<ItemScore>, criteriaId: string): (r: Option<int>)
    ensures r.None? <==> forall k :: 0 <= k < |scores| ==> CriteriaIdOf(scores[k]) != criteriaId
    ensures r.Some? ==> exists k :: 0 <= k < |scores| && CriteriaIdOf(scores[k]) == criteriaId
                                    && scores[k].score == r.value
                                    && forall m :: 0 <= m < k ==> CriteriaIdOf(scores[m]) != criteriaId
  {
    if scores == [] then None
    else if CriteriaIdOf(scores[0]) == criteriaId then Some(scores[0].score)
    else
      var r := FirstScoreFor(scores[1..], criteriaId);
      assert forall k :: 0 < k < |scores| ==> scores[k] == scores[1..][k - 1];
      r
  }

  /** One merged entry: the criterion's fields and its first server score, or `0`. */
  function MergeEntry(c: RankingCriteria, scores: Option<seq<ItemScore>>): (e: CriteriaScore)
    ensures e.id == c.id && e.rankingId == c.rankingId && e.name == c.name
    ensures e.createdAt == c.createdAt && e.updatedAt == c.updatedAt
    ensures e.score == Some(if scores.None? then 0 else OrZero(FirstScoreFor(scores.value, c.id)))
  {
    var found := if scores.None? then None else FirstScoreFor(scores.value, c.id);
    CriteriaScore(c.id, c.rankingId, c.name, c.createdAt, c.updatedAt, Some(OrZero(found)))
  }

  function MergeAll(criteria: seq<RankingCriteria>, scores: Option<seq<ItemScore>>): (r: seq<CriteriaScore>)
    ensures |r| == |criteria|
    ensures forall i :: 0 <= i < |r| ==> r[i] == MergeEntry(criteria[i], scores)
  {
    if criteria == [] then [] else [MergeEntry(criteria[0], scores)] + MergeAll(criteria[1..], scores)
  }

  /** The merge effect: no entries while the criteria are not loaded; otherwise one entry per
      criterion, in order, each with the criterion's fields and its first server score or `0`. */
  function MergeCriteriaScores(criteria: Option<seq<RankingCriteria>>, scores: Option<seq<ItemScore>>): (r: seq<CriteriaScore>)
    ensures criteria.None? ==> r == []
    ensures criteria.Some? ==> |r| == |criteria.value|
    ensures criteria.Some? ==> forall i :: 0 <= i < |r| ==> r[i] == MergeEntry(criteria.value[i], scores)
  {
    if criteria.None? then [] else MergeAll(criteria.value, scores)
  }

  /** `entries.find(item => item.id === id)?.score || 0`: the score stored for a criterion, or
      `0` when it has no entry or no number. */
  function StoredScore(entries: seq<CriteriaScore>, id: string): (n: int)
    ensures (forall k :: 0 <= k < |entries| ==> entries[k].id != id) ==> n == 0
    ensures forall k :: (0 <= k < |entries| && entries[k].id == id
                         && forall m :: 0 <= m < k ==> entries[m].id != id) ==> n == OrZero(entries[k].score)
  {
    if entries == [] then 0
    else if entries[0].id == id then OrZero(entries[0].score)
    else
      var n := StoredScore(entries[1..], id);
      assert forall k :: 0 < k < |entries| ==> entries[k] == entries[1..][k - 1];
      n
  }

  /** The map of `handleScoreChange`: exactly the entries of criterion `id` take the new score;
      the length and every other entry are unchanged. */
  function UpdateEntryScore(entries: seq<CriteriaScore>, id: string, score: Option<int>): (r: seq<CriteriaScore>)
    ensures |r| == |entries|
    ensures forall i :: 0 <= i < |r| ==> r[i] == if entries[i].id == id then entries[i].(score := score) else entries[i]
  {
    if entries == [] then []
    else [if entries[0].id == id then entries[0].(score := score) else entries[0]]
         + UpdateEntryScore(entries[1..], id, score)
  }

  /** `filter(criteria => criteria.score)`: the score is truthy, which is exactly when the
      entry's `score || 0` is non-zero. */
  function HasScore(e: CriteriaScore): (ok: bool)
    ensures ok <==> OrZero(e.score) != 0
  {
    e.score.Some? && e.score.value != 0
  }

  function RequestOf(e: CriteriaScore, rankingItemId: string, rankingId: string): ScoreRequest
    requires HasScore(e)
  {
    ScoreRequest(rankingItemId, rankingId, e.id, e.score.value)
  }

  /** The requests of `handleSaveAddScore`: one per entry with a non-zero score, in list
      order, carrying that entry's criterion id and score. Every request has a non-zero score
      and the route's item and ranking. */
  function ScoreRequests(entries: seq<CriteriaScore>, rankingItemId: string, rankingId: string): (r: seq<ScoreRequest>)
    ensures |r| <= |entries|
    ensures forall k :: 0 <= k < |r| ==>
      r[k].score != 0 && r[k].rankingItemId == rankingItemId && r[k].rankingId == rankingId
  {
    if entries == [] then []
    else
      (if HasScore(entries[0]) then [RequestOf(entries[0], rankingItemId, rankingId)] else [])
        + ScoreRequests(entries[1..], rankingItemId, rankingId)
  }

  /** The screen's state. */
  class CreateItemScoreScreen {
    const rankingId: string
    const rankingItemId: string
    var entries: seq<CriteriaScore>
    var selected: Option<RankingCriteria>
    var score: int

    /** The screen opens with no entries, nothing selected and a score of `0`. */
    constructor(rankingId: string, rankingItemId: string)
      ensures this.rankingId == rankingId && this.rankingItemId == rankingItemId
      ensures entries == [] && selected.None? && score == 0
    {
      this.rankingId := rankingId;
      this.rankingItemId := rankingItemId;
      entries := [];
      selected := None;
      score := 0;
    }

    /** The merge effect: the entries are rebuilt, and when the criteria list is loaded and
      non-empty its first criterion is selected; otherwise the selection is unchanged. */
    method LoadCriteria(rankingCriteria: Option<seq<RankingCriteria>>, rankingItemScores: Option<seq<ItemScore>>)
      modifies this
      ensures entries == MergeCriteriaScores(rankingCriteria, rankingItemScores)
      ensures selected == if rankingCriteria.Some? && rankingCriteria.value != [] then Some(rankingCriteria.value[0]) else old(selected)
      ensures score == old(score)
    {
      entries := MergeCriteriaScores(rankingCriteria, rankingItemScores);
      if rankingCriteria.Some? && |rankingCriteria.value| > 0 {
        selected := Some(rankingCriteria.value[0]);
      }
    }

    /** `handleCriteriaSelect`: selecting the selected criterion deselects it and keeps the
      score; selecting another one selects it and loads its stored score. */
    method SelectCriteria(criteria: RankingCriteria)
      modifies this
      ensures entries == old(entries)
      ensures old(selected).Some? && old(selected).value.id == criteria.id ==>
        selected.None? && score == old(score)
      ensures !(old(selected).Some? && old(selected).value.id == criteria.id) ==>
        selected == Some(criteria) && score == StoredScore(old(entries), criteria.id)
    {
      if selected.Some? && selected.value.id == criteria.id {
        selected := None;
        return;
      }
      score := StoredScore(entries, criteria.id);
      selected := Some(criteria);
    }

    /** `handleScoreChange`: the displayed score takes the text parsed with a decimal comma
      (`0` when it is not a number); without a criterion id (`undefined` or `''`) nothing else
      happens, otherwise that criterion's entries take the text parsed as written. */
    method ChangeScore(criteriaId: Option<string>, parsedWithComma: Option<int>, parsedAsWritten: Option<int>)
      modifies this
      ensures score == OrZero(parsedWithComma)
      ensures selected == old(selected)
      ensures entries == if criteriaId.None? || criteriaId.value == "" then old(entries)
                         else UpdateEntryScore(old(entries), criteriaId.value, parsedAsWritten)
    {
      score := OrZero(parsedWithComma);
      if criteriaId.None? || criteriaId.value == "" {
        return;
      }
      entries := UpdateEntryScore(entries, criteriaId.value, parsedAsWritten);
    }

    /** `handleSaveAddScore`: the score requests of the current entries, after which the
      selection is cleared, the score reset and the entries emptied. */
    method Save() returns (requests: seq<ScoreRequest>)
      modifies this
      ensures requests == ScoreRequests(old(entries), rankingItemId, rankingId)
      ensures entries == [] && selected.None? && score == 0
    {
      requests := ScoreRequests(entries, rankingItemId, rankingId);
      selected := None;
      score := 0;
      entries := [];
    }
  }

  /** After an update, looking the criterion up gives the new score (or `0`) when the criterion
      has an entry, and still `0` when it has none. */
  lemma {:induction false} UpdateThenLookup(entries: seq<CriteriaScore>, id: string, score: Option<int>)
    ensures StoredScore(UpdateEntryScore(entries, id, score), id)
         == if exists k :: 0 <= k < |entries| && entries[k].id == id then OrZero(score) else 0
  {
    if entries != [] {
      UpdateThenLookup(entries[1..], id, score);
      assert forall k :: 0 < k < |entries| ==> entries[k] == entries[1..][k - 1];
    }
  }

  /** An update leaves the stored score of every other criterion unchanged. */
  lemma {:induction false} UpdateKeepsOthers(entries: seq<CriteriaScore>, id: string, score: Option<int>, other: string)
    requires other != id
    ensures StoredScore(UpdateEntryScore(entries, id, score), other) == StoredScore(entries, other)
  {
    if entries != [] {
      UpdateKeepsOthers(entries[1..], id, score, other);
    }
  }

  /** Saving distributes over concatenation, so the requests follow the list order. */
  lemma {:induction false} ScoreRequestsConcat(a: seq<CriteriaScore>, b: seq<CriteriaScore>, rankingItemId: string, rankingId: string)
    ensures ScoreRequests(a + b, rankingItemId, rankingId)
         == ScoreRequests(a, rankingItemId, rankingId) + ScoreRequests(b, rankingItemId, rankingId)
  {
    if a == [] {
      assert a + b == b;
    } else {
      assert (a + b)[1..] == a[1..] + b;
      ScoreRequestsConcat(a[1..], b, rankingItemId, rankingId);
    }
  }

  /** A request is issued exactly for the entries that have a non-zero score. */
  lemma {:induction false} ScoreRequestsExactly(entries: seq<CriteriaScore>, rankingItemId: string, rankingId: string)
    ensures forall q :: q in ScoreRequests(entries, rankingItemId, rankingId) <==>
      exists e :: e in entries && HasScore(e) && q == RequestOf(e, rankingItemId, rankingId)
  {
    if entries != [] {
      ScoreRequestsExactly(entries[1..], rankingItemId, rankingId);
      assert forall e :: e in entries <==> e == entries[0] || e in entries[1..];
    }
  }

  /** The server scores of the criteria that saving right after the merge sends back: the
      criteria whose first server score is non-zero, in criteria order. */
  function ResentScores(criteria: seq<RankingCriteria>, scores: seq<ItemScore>, rankingItemId: string, rankingId: string): seq<ScoreRequest> {
    if criteria == [] then []
    else
      var n := OrZero(FirstScoreFor(scores, criteria[0].id));
      (if n != 0 then [ScoreRequest(rankingItemId, rankingId, criteria[0].id, n)] else [])
        + ResentScores(criteria[1..], scores, rankingItemId, rankingId)
  }

  /** Saving right after the merge sends, in criteria order, each criterion's existing non-zero
      score and nothing for the others. */
  lemma {:induction false} MergeThenSave(criteria: seq<RankingCriteria>, scores: seq<ItemScore>, rankingItemId: string, rankingId: string)
    ensures ScoreRequests(MergeCriteriaScores(Some(criteria), Some(scores)), rankingItemId, rankingId)
         == ResentScores(criteria, scores, rankingItemId, rankingId)
  {
    if criteria != [] {
      MergeThenSave(criteria[1..], scores, rankingItemId, rankingId);
      var merged := MergeAll(criteria, Some(scores));
      assert merged == [merged[0]] + MergeAll(criteria[1..], Some(scores));
      ScoreRequestsConcat([merged[0]], MergeAll(criteria[1..], Some(scores)), rankingItemId, rankingId);
    }
  }
}
