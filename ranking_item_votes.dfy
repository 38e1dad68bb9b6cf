/** The score records of `src/api/resources/core/get-ranking-item-votes.ts`, as received from
    the server: one user's score of one ranking item against one criterion. */
module RankingItemVotes {

  datatype ScoreAvatar = ScoreAvatar(id: string, name: string, url: string, path: string)

  datatype ScoreUser = ScoreUser(id: string, name: string, avatar: ScoreAvatar)

  datatype RankingCriteriaRef = RankingCriteriaRef(id: string, name: string)

  /** `GetRankingItemScoresResponse`; scores are whole numbers in this model. */
  datatype ItemScore = ItemScore(
    id: string, score: int, rankingItemId: string, user: ScoreUser, rankingCriteria: RankingCriteriaRef)

  /** The criterion id a score belongs to. */
  function CriteriaIdOf(s: ItemScore): string {
    s.rankingCriteria.id
  }
}
