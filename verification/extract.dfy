/**
 * The page extractor, `parseMatches`: a left-to-right scan over the children
 * of the results container that carries the current competition (id and
 * name) and emits one `Match` per match-row block.
 *
 * The HTML tree and the CSS selectors are abstracted: each child is a `Node`
 * that already carries what the extractor reads from it.
 */
module Extract {
  import opened Wrappers
  import opened GoStrings
  import opened Numerals
  import opened Matches

  /**
   * A `.club-gamelist-match-clubs` element of a match row: the `href` of its
   * first link (`None` when the link or the attribute is missing) and its text.
   */
  datatype Club = Club(href: Option<string>, text: string)

  /**
   * One child of the results container: its tag, its attributes, its text,
   * the combined text of its `.club-gamelist-match-score` descendants and its
   * `.club-gamelist-match-clubs` descendants in document order.
   */
  datatype Node = Node(
    tag: string,
    attrs: map<string, string>,
    text: string,
    scoreText: string,
    clubs: seq<Club>)

  /** The marker a `div` class string must contain to be a match row. */
  const MatchRowClass: string := "club-gamelist-match"

  /** An `a` node carrying a `name` attribute: it sets the competition id. */
  predicate IsNamedAnchor(n: Node) {
    n.tag == "a" && "name" in n.attrs
  }

  /** An `h4` node: it sets the competition name. */
  predicate IsHeading(n: Node) {
    n.tag == "h4"
  }

  /** A `div` whose raw class string contains the match-row marker. */
  predicate IsMatchRow(n: Node) {
    n.tag == "div" && "class" in n.attrs && Contains(n.attrs["class"], MatchRowClass)
  }

  /** The running competition state of the scan. */
  datatype Context = Context(competitionId: string, competitionName: string)

  const NoCompetition: Context := Context("", "")

  /**
   * The two scores of a match row: the trimmed score text split on `-`,
   * each of the first two pieces trimmed and read with `Atoi` (0 when it is
   * not a number, the `int` maximum when its leading digits overflow).
   * Fewer than two pieces is an index panic in the source, here `None`.
   */
  function ParseScores(scoreText: string): (r: Option<(int, int)>)
    ensures r.Some? <==> Count(TrimSpace(scoreText), '-') >= 1
    ensures r.Some? ==> 0 <= r.value.0 <= MaxInt && 0 <= r.value.1 <= MaxInt
  {
    var parts := Split(TrimSpace(scoreText), '-');
    if |parts| < 2 then None
    else Some((ReadScore(parts[0]), ReadScore(parts[1])))
  }

  /** One side of a score: the piece trimmed, then read by `Atoi`. */
  function ReadScore(piece: string): (n: int)
    ensures MinInt <= n <= MaxInt
    ensures '-' !in piece ==> n >= 0
  {
    TrimSpaceKeepsOut(piece, '-');
    Atoi(TrimSpace(piece))
  }

  /**
   * A team id: segment 2 of a club link split on `/` (a missing link reads
   * as the empty string). Fewer than three segments is an index panic in
   * the source, here `None`.
   */
  function TeamId(href: Option<string>): (r: Option<string>)
    ensures r.Some? <==> Count(href.GetOr(""), '/') >= 2
    ensures r.Some? ==> '/' !in r.value
  {
    var segments := Split(href.GetOr(""), '/');
    if |segments| < 3 then None else Some(segments[2])
  }

  /** Ids and names of the two teams as the club loop fills them. */
  datatype Teams = Teams(t1Id: string, t1Name: string, t2Id: string, t2Name: string)

  const NoTeams: Teams := Teams("", "", "", "")

  /**
   * The club loop of a match row: each club fills team 1 while the team 1
   * id is still empty and team 2 after that. `None` when some club's link
   * has no team id.
   */
  function AssignClubs(clubs: seq<Club>, t: Teams): (r: Option<Teams>)
    ensures r.Some? <==> forall i :: 0 <= i < |clubs| ==> TeamId(clubs[i].href).Some?
    ensures r.Some? && t.t1Id != "" ==> r.value.t1Id == t.t1Id && r.value.t1Name == t.t1Name
    decreases |clubs|
  {
    if |clubs| == 0 then Some(t)
    else
      match TeamId(clubs[0].href)
      case None => None
      case Some(id) =>
        var t' := if t.t1Id == "" then t.(t1Id := id, t1Name := clubs[0].text)
                  else t.(t2Id := id, t2Name := clubs[0].text);
        AssignClubs(clubs[1..], t')
  }

  /** A match row whose score text and club links can be read without a panic. */
  predicate WellFormedRow(n: Node) {
    ParseScores(n.scoreText).Some? && AssignClubs(n.clubs, NoTeams).Some?
  }

  /** What a match row says independently of where it stands: its teams and its score. */
  datatype Row = Row(teams: Teams, t1Score: int, t2Score: int)

  /**
   * The club loop and the score parse of one match row; `None` when either
   * panics in the source.
   */
  function ReadRow(n: Node): (r: Option<Row>)
    ensures r.Some? <==> WellFormedRow(n)
    ensures r.Some? ==> r.value.teams == AssignClubs(n.clubs, NoTeams).value
    ensures r.Some? ==> (r.value.t1Score, r.value.t2Score) == ParseScores(n.scoreText).value
    ensures r.Some? ==> 0 <= r.value.t1Score <= MaxInt && 0 <= r.value.t2Score <= MaxInt
  {
    match AssignClubs(n.clubs, NoTeams)
    case None => None
    case Some(t) =>
      match ParseScores(n.scoreText)
      case None => None
      case Some(scores) => Some(Row(t, scores.0, scores.1))
  }

  /**
   * The record of a read row under the current competition: a snapshot of
   * the context, the teams, the scores and the derived result fields.
   */
  function BuildMatch(row: Row, ctx: Context, date: Day): (r: Match)
    ensures && r.date == date
            && r.competitionId == ctx.competitionId
            && r.competitionName == ctx.competitionName
    ensures r.t1Score == row.t1Score && r.t2Score == row.t2Score
    ensures Teams(r.t1Id, r.t1Name, r.t2Id, r.t2Name) == row.teams
    ensures ResultConsistent(r)
  {
    var t := row.teams;
    var m := NewMatch(date, ctx.competitionId, ctx.competitionName);
    Settle(m.(t1Id := t.t1Id, t2Id := t.t2Id, t1Name := t.t1Name, t2Name := t.t2Name,
              t1Score := row.t1Score, t2Score := row.t2Score))
  }

  /** The record a match row yields under the current competition, if it reads. */
  function ExtractMatch(n: Node, ctx: Context, date: Day): (r: Option<Match>)
    ensures r.Some? <==> WellFormedRow(n)
    ensures r.Some? ==> && r.value.date == date
                        && r.value.competitionId == ctx.competitionId
                        && r.value.competitionName == ctx.competitionName
    ensures r.Some? ==> (r.value.t1Score, r.value.t2Score) == ParseScores(n.scoreText).value
    ensures r.Some? ==> Teams(r.value.t1Id, r.value.t1Name, r.value.t2Id, r.value.t2Name)
                        == AssignClubs(n.clubs, NoTeams).value
    ensures r.Some? ==> ResultConsistent(r.value)
  {
    match ReadRow(n)
    case None => None
    case Some(row) => Some(BuildMatch(row, ctx, date))
  }

  /** The scan state: the running competition and the matches emitted so far. */
  datatype Scan = Scan(ctx: Context, matches: seq<Match>)

  /**
   * How the scan reads a match row. The source reads rows with `ReadRow`;
   * the scan is stated over any reader so that its properties do not
   * depend on how scores and clubs are parsed.
   */
  type Reader = Node -> Option<Row>

  /**
   * One child of the container, dispatched on its tag. `None` is a panic
   * inside a match row the reader cannot read.
   */
  function Visit(st: Scan, n: Node, date: Day, read: Reader): (r: Option<Scan>)
    ensures r.Some? <==> !IsMatchRow(n) || read(n).Some?
    ensures r.Some? ==> r.value.ctx.competitionId
                        == if IsNamedAnchor(n) then n.attrs["name"] else st.ctx.competitionId
    ensures r.Some? ==> r.value.ctx.competitionName
                        == if IsHeading(n) then n.text else st.ctx.competitionName
    ensures r.Some? ==> r.value.matches
                        == st.matches + if IsMatchRow(n) then [BuildMatch(read(n).value, st.ctx, date)] else []
  {
    match n.tag
    case "a" =>
      if "name" in n.attrs then Some(st.(ctx := st.ctx.(competitionId := n.attrs["name"])))
      else Some(st)
    case "h4" =>
      Some(st.(ctx := st.ctx.(competitionName := n.text)))
    case "div" =>
      if "class" in n.attrs && Contains(n.attrs["class"], MatchRowClass) then
        match read(n)
        case None => None
        case Some(row) => Some(st.(matches := st.matches + [BuildMatch(row, st.ctx, date)]))
      else Some(st)
    case _ => Some(st)
  }

  /** Every match row among `nodes` can be read. */
  predicate RowsRead(nodes: seq<Node>, read: Reader)
    decreases |nodes|
  {
    |nodes| == 0 || ((IsMatchRow(nodes[0]) ==> read(nodes[0]).Some?) && RowsRead(nodes[1..], read))
  }

  /** Every match row among `nodes` is well formed. */
  predicate RowsWellFormed(nodes: seq<Node>) {
    RowsRead(nodes, ReadRow)
  }

  /** Number of match rows among `nodes`. */
  function CountRows(nodes: seq<Node>): nat
    decreases |nodes|
  {
    if |nodes| == 0 then 0 else (if IsMatchRow(nodes[0]) then 1 else 0) + CountRows(nodes[1..])
  }

  /**
   * The scan over the container's children, left to right. It succeeds
   * exactly when every match row can be read, appends one record per
   * match row and never touches the records it started with.
   */
  function ScanNodes(nodes: seq<Node>, st: Scan, date: Day, read: Reader): (r: Option<Scan>)
    ensures r.Some? <==> RowsRead(nodes, read)
    ensures r.Some? ==> |r.value.matches| == |st.matches| + CountRows(nodes)
    ensures r.Some? ==> r.value.matches[..|st.matches|] == st.matches
    decreases |nodes|
  {
    if |nodes| == 0 then Some(st)
    else
      match Visit(st, nodes[0], date, read)
      case None => None
      case Some(st') =>
        var r := ScanNodes(nodes[1..], st', date, read);
        assert r.Some? ==> r.value.matches[..|st.matches|] == st'.matches[..|st.matches|];
        r
  }

  /**
   * `parseMatches`: the records of one page appended to the existing ones,
   * starting from no competition. `None` is a panic on a malformed row.
   */
  function ParseMatches(existing: seq<Match>, nodes: seq<Node>, date: Day): (r: Option<seq<Match>>)
    ensures r.Some? <==> RowsWellFormed(nodes)
    ensures r.Some? ==> |r.value| == |existing| + CountRows(nodes) && r.value[..|existing|] == existing
  {
    match ScanNodes(nodes, Scan(NoCompetition, existing), date, ReadRow)
    case None => None
    case Some(st) => Some(st.matches)
  }
}
