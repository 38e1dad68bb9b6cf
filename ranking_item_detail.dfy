/** The grouping step of `RankingItemDetailScreen`
    (`src/screens/Core/RankingItemDetailScreen/index.tsx`): the scores of a ranking item are
    reduced into a record keyed by criterion id, each key holding that criterion's scores; the
    screen renders one section per key, headed by the criterion name of the first score. */
module RankingItemDetail {
  import opened Wrappers
  import opened RankingItemVotes

  /** The accumulated record: its keys in insertion order (the order in which `Object.keys`
      lists them) and the list of scores stored under each key. */
  datatype CriteriaGroups = CriteriaGroups(keys: seq<string>, groups: map<string, seq<ItemScore>>)

  function Last(scores: seq<ItemScore>): ItemScore
    requires scores != []
  {
    scores[|scores| - 1]
  }

  function Init(scores: seq<ItemScore>): seq<ItemScore>
    requires scores != []
  {
    scores[..|scores| - 1]
  }

  /** The criterion ids that occur among the scores. */
  function CriteriaIds(scores: seq<ItemScore>): set<string> {
    if scores == [] then {} else CriteriaIds(Init(scores)) + {CriteriaIdOf(Last(scores))}
  }

  /** The scores of criterion `k`, in input order. */
  function ScoresOfCriteria(scores: seq<ItemScore>, k: string): seq<ItemScore> {
    if scores == [] then []
    else ScoresOfCriteria(Init(scores), k) + (if CriteriaIdOf(Last(scores)) == k then [Last(scores)] else [])
  }

  /** The criterion ids in order of first occurrence. */
  function FirstSeenIds(scores: seq<ItemScore>): seq<string> {
    if scores == [] then []
    else
      var k := CriteriaIdOf(Last(scores));
      FirstSeenIds(Init(scores)) + (if k in CriteriaIds(Init(scores)) then [] else [k])
  }

  /** `rankingItemScores?.reduce(...)`: `undefined` without scores; otherwise, for each score in
      turn, an empty list is created under its criterion id the first time the id is seen and
      the score is pushed onto that list. The keys come out in order of first occurrence, the
      key set is the set of criterion ids, each key holds exactly its criterion's scores in
      input order, and every list is non-empty and starts with a score of its own criterion. */
  method GroupScoresByCriteria(rankingItemScores: Option<seq<ItemScore>>) returns (grouped: Option<CriteriaGroups>)
    ensures grouped.None? <==> rankingItemScores.None?
    ensures grouped.Some? ==>
      var scores, g := rankingItemScores.value, grouped.value;
      && g.keys == FirstSeenIds(scores)
      && g.groups.Keys == CriteriaIds(scores)
      && (forall k :: k in g.groups ==> g.groups[k] == ScoresOfCriteria(scores, k))
      && (forall k :: k in g.groups ==> g.groups[k] != [] && CriteriaIdOf(g.groups[k][0]) == k)
  {
    if rankingItemScores.None? {
      return None;
    }
    var scores := rankingItemScores.value;
    var acc: map<string, seq<ItemScore>> := map[];
    var keys: seq<string> := [];
    var i := 0;
    while i < |scores|
      invariant 0 <= i <= |scores|
      invariant keys == FirstSeenIds(scores[..i])
      invariant acc.Keys == CriteriaIds(scores[..i])
      invariant forall k :: k in acc ==> acc[k] == ScoresOfCriteria(scores[..i], k)
    {
      assert scores[..i + 1][..i] == scores[..i];
      var criteriaId := scores[i].rankingCriteria.id;
      if criteriaId !in acc {
        acc := acc[criteriaId := []];
        keys := keys + [criteriaId];
        NoScoresOfUnseen(scores[..i], criteriaId);
      }
      acc := acc[criteriaId := acc[criteriaId] + [scores[i]]];
      i := i + 1;
    }
    assert scores[..i] == scores;
    forall k | k in acc ensures acc[k] != [] && CriteriaIdOf(acc[k][0]) == k {
      GroupOfSeenId(scores, k);
    }
    return Some(CriteriaGroups(keys, acc));
  }

  lemma {:induction false} NoScoresOfUnseen(scores: seq<ItemScore>, k: string)
    requires k !in CriteriaIds(scores)
    ensures ScoresOfCriteria(scores, k) == []
  {
    if scores != [] {
      NoScoresOfUnseen(Init(scores), k);
    }
  }

  /** Every element of a group belongs to the group's criterion. */
  lemma {:induction false} GroupIsHomogeneous(scores: seq<ItemScore>, k: string)
    ensures forall x :: x in ScoresOfCriteria(scores, k) ==> CriteriaIdOf(x) == k
  {
    if scores != [] {
      GroupIsHomogeneous(Init(scores), k);
    }
  }

  /** The group of an id that occurs is non-empty, and its first score (the one whose criterion
      name heads the section) belongs to that criterion. */
  lemma {:induction false} GroupOfSeenId(scores: seq<ItemScore>, k: string)
    requires k in CriteriaIds(scores)
    ensures ScoresOfCriteria(scores, k) != []
    ensures CriteriaIdOf(ScoresOfCriteria(scores, k)[0]) == k
  {
    var p := Init(scores);
    if k in CriteriaIds(p) {
      GroupOfSeenId(p, k);
    }
    GroupIsHomogeneous(scores, k);
  }

  /** Every score appears in exactly one group, as often as in the input: the group of its own
      criterion. */
  lemma {:induction false} GroupCounts(scores: seq<ItemScore>, k: string, x: ItemScore)
    ensures multiset(ScoresOfCriteria(scores, k))[x] == if CriteriaIdOf(x) == k then multiset(scores)[x] else 0
  {
    if scores != [] {
      assert scores == Init(scores) + [Last(scores)];
      GroupCounts(Init(scores), k, x);
    }
  }

  /** Grouping distributes over concatenation, so each group keeps the input order. */
  lemma {:induction false} GroupConcat(a: seq<ItemScore>, b: seq<ItemScore>, k: string)
    ensures ScoresOfCriteria(a + b, k) == ScoresOfCriteria(a, k) + ScoresOfCriteria(b, k)
  {
    if b == [] {
      assert a + b == a;
    } else {
      assert Init(a + b) == a + Init(b);
      assert Last(a + b) == Last(b);
      GroupConcat(a, Init(b), k);
    }
  }

  /** The first-occurrence order lists every criterion id that occurs exactly once, and
      nothing else. */
  lemma {:induction false} FirstSeenIdsDistinct(scores: seq<ItemScore>, k: string)
    ensures multiset(FirstSeenIds(scores))[k] == if k in CriteriaIds(scores) then 1 else 0
  {
    if scores != [] {
      FirstSeenIdsDistinct(Init(scores), k);
    }
  }

  /** The total size of the groups of `keys`. */
  function GroupSizes(keys: seq<string>, scores: seq<ItemScore>): nat {
    if keys == [] then 0 else |ScoresOfCriteria(scores, keys[0])| + GroupSizes(keys[1..], scores)
  }

  lemma {:induction false} GroupSizesAppendKey(keys: seq<string>, k: string, scores: seq<ItemScore>)
    ensures GroupSizes(keys + [k], scores) == GroupSizes(keys, scores) + |ScoresOfCriteria(scores, k)|
  {
    if keys != [] {
      assert (keys + [k])[1..] == keys[1..] + [k];
      GroupSizesAppendKey(keys[1..], k, scores);
    }
  }

  lemma {:induction false} GroupSizesAppendScore(keys: seq<string>, scores: seq<ItemScore>, x: ItemScore)
    ensures GroupSizes(keys, scores + [x]) == GroupSizes(keys, scores) + multiset(keys)[CriteriaIdOf(x)]
  {
    if keys != [] {
      assert keys == [keys[0]] + keys[1..];
      assert Init(scores + [x]) == scores;
      GroupSizesAppendScore(keys[1..], scores, x);
    }
  }

  /** The group sizes add up to the number of scores. */
  lemma {:induction false} GroupSizesSum(scores: seq<ItemScore>)
    ensures GroupSizes(FirstSeenIds(scores), scores) == |scores|
  {
    if scores != [] {
      var p, x := Init(scores), Last(scores);
      var k := CriteriaIdOf(x);
      assert scores == p + [x];
      GroupSizesSum(p);
      GroupSizesAppendScore(FirstSeenIds(p), p, x);
      FirstSeenIdsDistinct(p, k);
      if k !in CriteriaIds(p) {
        assert FirstSeenIds(scores) == FirstSeenIds(p) + [k];
        GroupSizesAppendKey(FirstSeenIds(p), k, scores);
        NoScoresOfUnseen(p, k);
        assert ScoresOfCriteria(scores, k) == [x];
      } else {
        assert FirstSeenIds(scores) == FirstSeenIds(p);
      }
    }
  }
}
