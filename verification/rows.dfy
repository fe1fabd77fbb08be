/** Properties of reading one match row: its scores and its two clubs. */
module RowProps {
  import opened Wrappers
  import opened GoStrings
  import opened Numerals
  import opened Extract

  /**
   * Score text made of two hyphen-free pieces around one hyphen yields the
   * pieces, each trimmed and read with `Atoi`.
   */
  lemma ScoresOfPieces(x: string, y: string)
    requires '-' !in x && '-' !in y
    requires |x| > 0 && !IsSpace(x[0])
    requires |y| > 0 && !IsSpace(y[|y| - 1])
    ensures ParseScores(x + "-" + y) == Some((Atoi(TrimSpace(x)), Atoi(TrimSpace(y))))
  {
    var s := x + "-" + y;
    TrimSpaceOfTrimmed(s);
    SplitFirstPiece(x, '-', y);
    SplitWithoutSeparator(y, '-');
  }

  /** The score text `"a - b"` reads back as the scores `a` and `b`. */
  lemma ScoresRoundTrip(a: int, b: int)
    requires 0 <= a <= MaxInt && 0 <= b <= MaxInt
    ensures ParseScores(FormatInt(a) + " - " + FormatInt(b)) == Some((a, b))
  {
    var sa, sb := FormatInt(a), FormatInt(b);
    DigitsAreNotSpace(sa);
    DigitsAreNotSpace(sb);
    var x := sa + " ";
    var y := " " + sb;
    assert sa + " - " + sb == x + "-" + y;
    assert '-' !in x && '-' !in y;
    ScoresOfPieces(x, y);
    TrimSpaceOfPadded(sa);
    TrimSpaceOfPadded(sb);
    AtoiOfFormatInt(a);
    AtoiOfFormatInt(b);
  }

  /** Decimal digits contain neither white space nor a hyphen. */
  lemma DigitsAreNotSpace(s: string)
    requires AllDigits(s)
    ensures forall i :: 0 <= i < |s| ==> !IsSpace(s[i])
    ensures '-' !in s
  {
  }

  /** A score piece that does not start with a digit or a sign counts as 0. */
  lemma UnreadablePieceIsZero(x: string, y: string)
    requires '-' !in x && '-' !in y
    requires |x| > 0 && !IsSpace(x[0]) && !IsDigit(x[0]) && x[0] != '+'
    requires |y| > 0 && !IsSpace(y[|y| - 1])
    ensures ParseScores(x + "-" + y).Some?
    ensures ParseScores(x + "-" + y).value.0 == 0
  {
    ScoresOfPieces(x, y);
    TrimSpaceIsSlice(x);
    assert |x| - |TrimLeft(x)| == 0;
  }

  /**
   * A score piece whose leading digits exceed the `uint64` range reads as
   * the `int` maximum, whatever follows the digits, because `Atoi` stops at
   * the range error.
   */
  lemma OverflowingScoreIsMaxInt(digits: string, rest: string, y: string)
    requires |digits| > 0 && AllDigits(digits) && DigitsValue(digits) > MaxUint64
    requires '-' !in rest && (|rest| == 0 || !IsSpace(rest[|rest| - 1]))
    requires '-' !in y && |y| > 0 && !IsSpace(y[|y| - 1])
    ensures ParseScores(digits + rest + "-" + y).Some?
    ensures ParseScores(digits + rest + "-" + y).value.0 == MaxInt
  {
    var x := digits + rest;
    DigitsAreNotSpace(digits);
    assert '-' !in x;
    assert x[0] == digits[0];
    assert x[|x| - 1] == if |rest| == 0 then digits[|digits| - 1] else rest[|rest| - 1];
    ScoresOfPieces(x, y);
    TrimSpaceOfTrimmed(x);
    AtoiOverflow(digits, rest);
  }

  /** The team id is the third `/`-separated segment of the link. */
  lemma TeamIdOfPath(a: string, b: string, id: string, rest: string)
    requires '/' !in a && '/' !in b && '/' !in id
    ensures TeamId(Some(a + "/" + b + "/" + id)) == Some(id)
    ensures TeamId(Some(a + "/" + b + "/" + id + "/" + rest)) == Some(id)
  {
    assert a + "/" + b + "/" + id == a + ['/'] + (b + ['/'] + id);
    SplitFirstPiece(a, '/', b + ['/'] + id);
    SplitFirstPiece(b, '/', id);
    SplitWithoutSeparator(id, '/');
    var long := a + "/" + b + "/" + id + "/" + rest;
    assert long == a + ['/'] + (b + ['/'] + (id + ['/'] + rest));
    SplitFirstPiece(a, '/', b + ['/'] + (id + ['/'] + rest));
    SplitFirstPiece(b, '/', id + ['/'] + rest);
    SplitFirstPiece(id, '/', rest);
  }

  /** Every club link of `clubs` yields a team id, possibly an empty one. */
  predicate AllIdsRead(clubs: seq<Club>) {
    forall i :: 0 <= i < |clubs| ==> TeamId(clubs[i].href).Some?
  }

  /** Once team 1 is set, each further club overwrites team 2. */
  lemma {:induction false} LaterClubsFillTeamTwo(clubs: seq<Club>, t: Teams)
    requires t.t1Id != ""
    requires AllIdsRead(clubs)
    ensures |clubs| == 0 ==> AssignClubs(clubs, t) == Some(t)
    ensures |clubs| > 0 ==> AssignClubs(clubs, t) == Some(t.(t2Id := TeamId(clubs[|clubs| - 1].href).value,
                                                             t2Name := clubs[|clubs| - 1].text))
    decreases |clubs|
  {
    if |clubs| > 0 {
      var id := TeamId(clubs[0].href).value;
      var t' := t.(t2Id := id, t2Name := clubs[0].text);
      assert AllIdsRead(clubs[1..]) by {
        forall i | 0 <= i < |clubs[1..]|
          ensures TeamId(clubs[1..][i].href).Some?
        {
          assert clubs[1..][i] == clubs[i + 1];
        }
      }
      LaterClubsFillTeamTwo(clubs[1..], t');
    }
  }

  /**
   * With every link carrying a team id and the first one not empty, the
   * first club is team 1 and the last of the others is team 2, whatever its
   * id; a missing second club leaves team 2 empty.
   */
  lemma {:induction false} ClubsFillTeams(clubs: seq<Club>)
    requires AllIdsRead(clubs)
    requires |clubs| > 0 ==> TeamId(clubs[0].href).value != ""
    ensures |clubs| == 0 ==> AssignClubs(clubs, NoTeams) == Some(NoTeams)
    ensures |clubs| == 1 ==> AssignClubs(clubs, NoTeams)
                             == Some(Teams(TeamId(clubs[0].href).value, clubs[0].text, "", ""))
    ensures |clubs| >= 2 ==> AssignClubs(clubs, NoTeams)
                             == Some(Teams(TeamId(clubs[0].href).value, clubs[0].text,
                                           TeamId(clubs[|clubs| - 1].href).value, clubs[|clubs| - 1].text))
  {
    if |clubs| > 0 {
      var t := NoTeams.(t1Id := TeamId(clubs[0].href).value, t1Name := clubs[0].text);
      assert AllIdsRead(clubs[1..]) by {
        forall i | 0 <= i < |clubs[1..]|
          ensures TeamId(clubs[1..][i].href).Some?
        {
          assert clubs[1..][i] == clubs[i + 1];
        }
      }
      LaterClubsFillTeamTwo(clubs[1..], t);
    }
  }

  /**
   * While the team 1 id is empty, a club whose link has an empty third
   * segment takes team 1 again: it sets only the team 1 name and the rest of
   * the clubs go on from there.
   */
  lemma EmptyIdRetakesTeamOne(clubs: seq<Club>, t: Teams)
    requires |clubs| > 0 && t.t1Id == ""
    requires TeamId(clubs[0].href) == Some("")
    ensures AssignClubs(clubs, t) == AssignClubs(clubs[1..], t.(t1Name := clubs[0].text))
  {
  }

  /**
   * Any run of clubs with empty ids leaves team 1 open: the clubs after the
   * run start from the same teams, with the team 1 name of the run's last club.
   */
  lemma {:induction false} EmptyIdsKeepTeamOneOpen(empties: seq<Club>, rest: seq<Club>, t: Teams)
    requires |empties| > 0 && t.t1Id == ""
    requires forall i :: 0 <= i < |empties| ==> TeamId(empties[i].href) == Some("")
    ensures AssignClubs(empties + rest, t)
            == AssignClubs(rest, t.(t1Name := empties[|empties| - 1].text))
    decreases |empties|
  {
    var clubs := empties + rest;
    assert clubs[0] == empties[0];
    assert clubs[1..] == empties[1..] + rest;
    EmptyIdRetakesTeamOne(clubs, t);
    var t' := t.(t1Name := empties[0].text);
    if |empties| == 1 {
      assert empties[1..] + rest == rest;
    } else {
      forall i | 0 <= i < |empties[1..]|
        ensures TeamId(empties[1..][i].href) == Some("")
      {
        assert empties[1..][i] == empties[i + 1];
      }
      EmptyIdsKeepTeamOneOpen(empties[1..], rest, t');
      assert empties[1..][|empties[1..]| - 1] == empties[|empties| - 1];
      assert t'.(t1Name := empties[|empties| - 1].text) == t.(t1Name := empties[|empties| - 1].text);
    }
  }

  /**
   * A first club whose link has an empty third segment leaves the team 1 id
   * empty, so the next club is taken as team 1 again and team 2 stays empty.
   */
  lemma EmptyFirstIdKeepsTeamOneOpen(c0: Club, c1: Club)
    requires TeamId(c0.href) == Some("")
    requires TeamId(c1.href).Some? && TeamId(c1.href).value != ""
    ensures AssignClubs([c0, c1], NoTeams) == Some(Teams(TeamId(c1.href).value, c1.text, "", ""))
  {
    var t := NoTeams.(t1Name := c0.text);
    assert [c0, c1][1..] == [c1];
    assert AssignClubs([c0, c1], NoTeams) == AssignClubs([c1], t);
    assert [c1][1..] == [];
    assert AssignClubs([c1], t) == AssignClubs([], t.(t1Id := TeamId(c1.href).value, t1Name := c1.text));
  }
}
