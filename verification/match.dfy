/** The `Match` record and the two derived result fields, `Draw` and `WinnerID`. */
module Matches {

  /** A calendar day, numbered consecutively; day `d + 1` is the day after `d`. */
  type Day = int

  /** One game result, field for field as the Go struct `Match`. */
  datatype Match = Match(
    date: Day,
    competitionId: string,
    competitionName: string,
    t1Id: string,
    t2Id: string,
    t1Name: string,
    t2Name: string,
    t1Score: int,
    t2Score: int,
    winnerId: string,
    draw: bool)

  /** A fresh record, as `Match{}` with its date and competition filled in. */
  function NewMatch(date: Day, competitionId: string, competitionName: string): (m: Match)
    ensures m.date == date && m.competitionId == competitionId && m.competitionName == competitionName
    ensures m.t1Id == m.t2Id == m.t1Name == m.t2Name == m.winnerId == ""
    ensures m.t1Score == m.t2Score == 0 && !m.draw
  {
    Match(date, competitionId, competitionName, "", "", "", "", 0, 0, "", false)
  }

  /**
   * The result fields agree with the scores: a draw exactly when the scores
   * are equal, no winner on a draw, and otherwise the winner is the team
   * whose score is strictly higher.
   */
  predicate ResultConsistent(m: Match) {
    && (m.draw <==> m.t1Score == m.t2Score)
    && (m.draw ==> m.winnerId == "")
    && (!m.draw ==>
          || (m.t1Score > m.t2Score && m.winnerId == m.t1Id)
          || (m.t2Score > m.t1Score && m.winnerId == m.t2Id))
  }

  /** `setDraw`: records whether the scores are level; nothing else changes. */
  function SetDraw(m: Match): (r: Match)
    ensures r.draw <==> m.t1Score == m.t2Score
    ensures r.(draw := m.draw) == m
  {
    m.(draw := m.t1Score == m.t2Score)
  }

  /**
   * `setWinner`: on a record not flagged as a draw, names team 1 when it
   * scored more and team 2 otherwise; a draw keeps its winner.
   */
  function SetWinner(m: Match): (r: Match)
    ensures r.(winnerId := m.winnerId) == m
    ensures m.draw ==> r.winnerId == m.winnerId
    ensures !m.draw ==> r.winnerId in {m.t1Id, m.t2Id}
    ensures !m.draw && m.t1Score > m.t2Score ==> r.winnerId == m.t1Id
    ensures !m.draw && m.t1Score <= m.t2Score ==> r.winnerId == m.t2Id
  {
    if !m.draw then
      if m.t1Score > m.t2Score then m.(winnerId := m.t1Id) else m.(winnerId := m.t2Id)
    else m
  }

  /**
   * `setDraw` followed by `setWinner`, the order the extractor always uses.
   * Applied to a record with no winner yet, it makes the record consistent.
   */
  function Settle(m: Match): (r: Match)
    ensures r.(draw := m.draw, winnerId := m.winnerId) == m
    ensures r.draw ==> r.winnerId == m.winnerId
    ensures m.winnerId == "" ==> ResultConsistent(r)
  {
    SetWinner(SetDraw(m))
  }

  /**
   * The order matters: `setWinner` on a record whose `Draw` flag was never
   * set names team 2 even when the scores are level.
   */
  lemma WinnerNeedsDrawFirst(m: Match)
    requires !m.draw && m.t1Score == m.t2Score
    ensures SetWinner(m).winnerId == m.t2Id && !SetWinner(m).draw
    ensures !ResultConsistent(SetWinner(m))
    ensures ResultConsistent(Settle(m.(winnerId := "")))
  {
  }
}
