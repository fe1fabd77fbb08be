/**
 * Properties of the sibling scan: how it composes over concatenated node
 * sequences, that records already emitted are never changed, and that every
 * record carries the competition of the last preceding markers.
 */
module ScanProps {
  import opened Wrappers
  import opened GoStrings
  import opened Numerals
  import opened Matches
  import opened Extract

  /**
   * The `name` of the last named anchor in `nodes`, or `otherwise` when
   * there is none.
   */
  function LastAnchorName(nodes: seq<Node>, otherwise: string): string
    decreases |nodes|
  {
    if |nodes| == 0 then otherwise
    else if IsNamedAnchor(nodes[|nodes| - 1]) then nodes[|nodes| - 1].attrs["name"]
    else LastAnchorName(nodes[..|nodes| - 1], otherwise)
  }

  /** The text of the last heading in `nodes`, or `otherwise` when there is none. */
  function LastHeadingText(nodes: seq<Node>, otherwise: string): string
    decreases |nodes|
  {
    if |nodes| == 0 then otherwise
    else if IsHeading(nodes[|nodes| - 1]) then nodes[|nodes| - 1].text
    else LastHeadingText(nodes[..|nodes| - 1], otherwise)
  }

  /** The anchor at `j` is the last one in `nodes`, so it decides the name. */
  lemma {:induction false} LastAnchorNameAt(nodes: seq<Node>, otherwise: string, j: int)
    requires 0 <= j < |nodes| && IsNamedAnchor(nodes[j])
    requires forall k :: j < k < |nodes| ==> !IsNamedAnchor(nodes[k])
    ensures LastAnchorName(nodes, otherwise) == nodes[j].attrs["name"]
    decreases |nodes|
  {
    if j < |nodes| - 1 {
      LastAnchorNameAt(nodes[..|nodes| - 1], otherwise, j);
    }
  }

  /** Without any named anchor the default stands. */
  lemma {:induction false} LastAnchorNameNone(nodes: seq<Node>, otherwise: string)
    requires forall k :: 0 <= k < |nodes| ==> !IsNamedAnchor(nodes[k])
    ensures LastAnchorName(nodes, otherwise) == otherwise
    decreases |nodes|
  {
    if |nodes| > 0 {
      LastAnchorNameNone(nodes[..|nodes| - 1], otherwise);
    }
  }

  /** The heading at `j` is the last one in `nodes`, so it decides the text. */
  lemma {:induction false} LastHeadingTextAt(nodes: seq<Node>, otherwise: string, j: int)
    requires 0 <= j < |nodes| && IsHeading(nodes[j])
    requires forall k :: j < k < |nodes| ==> !IsHeading(nodes[k])
    ensures LastHeadingText(nodes, otherwise) == nodes[j].text
    decreases |nodes|
  {
    if j < |nodes| - 1 {
      LastHeadingTextAt(nodes[..|nodes| - 1], otherwise, j);
    }
  }

  /** Without any heading the default stands. */
  lemma {:induction false} LastHeadingTextNone(nodes: seq<Node>, otherwise: string)
    requires forall k :: 0 <= k < |nodes| ==> !IsHeading(nodes[k])
    ensures LastHeadingText(nodes, otherwise) == otherwise
    decreases |nodes|
  {
    if |nodes| > 0 {
      LastHeadingTextNone(nodes[..|nodes| - 1], otherwise);
    }
  }

  /** `RowsRead` says that every match row, wherever it stands, can be read. */
  lemma {:induction false} RowsReadIff(nodes: seq<Node>, read: Reader)
    ensures RowsRead(nodes, read) <==> forall i :: 0 <= i < |nodes| && IsMatchRow(nodes[i]) ==> read(nodes[i]).Some?
    decreases |nodes|
  {
    if |nodes| > 0 {
      RowsReadIff(nodes[1..], read);
      assert forall i :: 0 < i < |nodes| ==> nodes[i] == nodes[1..][i - 1];
    }
  }

  /** A page is well formed exactly when each of its match rows is. */
  lemma RowsWellFormedIff(nodes: seq<Node>)
    ensures RowsWellFormed(nodes) <==> forall i :: 0 <= i < |nodes| && IsMatchRow(nodes[i]) ==> WellFormedRow(nodes[i])
  {
    RowsReadIff(nodes, ReadRow);
  }

  /** Without match rows there is nothing to be malformed. */
  lemma {:induction false} NoRowsAreRead(nodes: seq<Node>, read: Reader)
    requires CountRows(nodes) == 0
    ensures RowsRead(nodes, read)
    decreases |nodes|
  {
    if |nodes| > 0 {
      NoRowsAreRead(nodes[1..], read);
    }
  }

  /** Scanning `a + b` is scanning `a`, then `b` from where `a` left off. */
  lemma {:induction false} ScanAppend(a: seq<Node>, b: seq<Node>, st: Scan, date: Day, read: Reader)
    ensures ScanNodes(a + b, st, date, read)
            == match ScanNodes(a, st, date, read)
               case None => None
               case Some(mid) => ScanNodes(b, mid, date, read)
    decreases |a|
  {
    if |a| > 0 {
      assert (a + b)[1..] == a[1..] + b;
      match Visit(st, a[0], date, read)
      case None =>
      case Some(st') =>
        ScanAppend(a[1..], b, st', date, read);
    } else {
      assert a + b == b;
    }
  }

  /** The number of match rows adds up over a concatenation. */
  lemma {:induction false} CountRowsAppend(a: seq<Node>, b: seq<Node>)
    ensures CountRows(a + b) == CountRows(a) + CountRows(b)
    decreases |a|
  {
    if |a| > 0 {
      assert (a + b)[1..] == a[1..] + b;
      CountRowsAppend(a[1..], b);
    } else {
      assert a + b == b;
    }
  }

  /**
   * A node that is neither a named anchor, a heading nor a match row (an
   * anchor without `name`, a `div` of another class, any other tag) leaves
   * the competition and the records as they were.
   */
  lemma OtherNodesChangeNothing(st: Scan, n: Node, date: Day, read: Reader)
    requires !IsNamedAnchor(n) && !IsHeading(n) && !IsMatchRow(n)
    ensures Visit(st, n, date, read) == Some(st)
  {
    assert st.matches + [] == st.matches;
  }

  /** One unfolding of the scan. */
  lemma ScanStep(nodes: seq<Node>, st: Scan, date: Day, read: Reader)
    requires |nodes| > 0
    ensures ScanNodes(nodes, st, date, read)
            == match Visit(st, nodes[0], date, read)
               case None => None
               case Some(next) => ScanNodes(nodes[1..], next, date, read)
  {
  }

  /** A scan outcome with `acc` put in front of its records. */
  function Prepend(acc: seq<Match>, r: Option<Scan>): Option<Scan> {
    match r
    case None => None
    case Some(st) => Some(Scan(st.ctx, acc + st.matches))
  }

  /** Putting `m` in front and then `acc` is putting `acc + m` in front. */
  lemma PrependTwice(acc: seq<Match>, m: seq<Match>, r: Option<Scan>)
    ensures Prepend(acc, Prepend(m, r)) == Prepend(acc + m, r)
  {
    if r.Some? {
      assert acc + (m + r.value.matches) == acc + m + r.value.matches;
    }
  }

  /** One step of the scan does not depend on the records emitted before it. */
  lemma VisitIgnoresEarlierRecords(n: Node, ctx: Context, acc: seq<Match>, date: Day, read: Reader)
    ensures Visit(Scan(ctx, acc), n, date, read) == Prepend(acc, Visit(Scan(ctx, []), n, date, read))
  {
    assert acc + [] == acc;
    if IsMatchRow(n) && read(n).Some? {
      var m := BuildMatch(read(n).value, ctx, date);
      assert acc + ([] + [m]) == acc + [m];
    }
  }

  /**
   * The records a scan emits do not depend on the records it started with:
   * they are appended after them, and the competition state ends the same.
   */
  lemma {:induction false} ScanIgnoresEarlierRecords(nodes: seq<Node>, ctx: Context, acc: seq<Match>, date: Day, read: Reader)
    ensures ScanNodes(nodes, Scan(ctx, acc), date, read) == Prepend(acc, ScanNodes(nodes, Scan(ctx, []), date, read))
    decreases |nodes|
  {
    if |nodes| == 0 {
      assert acc + [] == acc;
    } else {
      ScanStep(nodes, Scan(ctx, []), date, read);
      ScanStep(nodes, Scan(ctx, acc), date, read);
      VisitIgnoresEarlierRecords(nodes[0], ctx, acc, date, read);
      match Visit(Scan(ctx, []), nodes[0], date, read)
      case None =>
      case Some(v) =>
        ScanIgnoresEarlierRecords(nodes[1..], v.ctx, acc + v.matches, date, read);
        ScanIgnoresEarlierRecords(nodes[1..], v.ctx, v.matches, date, read);
        PrependTwice(acc, v.matches, ScanNodes(nodes[1..], Scan(v.ctx, []), date, read));
    }
  }

  /**
   * After a scan the competition id is that of the last named anchor and the
   * competition name that of the last heading, falling back to the state
   * the scan started from.
   */
  lemma {:induction false} ScanContext(nodes: seq<Node>, st: Scan, date: Day, read: Reader)
    requires ScanNodes(nodes, st, date, read).Some?
    ensures ScanNodes(nodes, st, date, read).value.ctx
            == Context(LastAnchorName(nodes, st.ctx.competitionId), LastHeadingText(nodes, st.ctx.competitionName))
    decreases |nodes|
  {
    if |nodes| > 0 {
      var init, last := nodes[..|nodes| - 1], nodes[|nodes| - 1];
      assert nodes == init + [last];
      ScanAppend(init, [last], st, date, read);
      ScanContext(init, st, date, read);
    }
  }

  /**
   * The record of the match row at index `i` is the `CountRows(nodes[..i])`-th
   * new record of the scan, built under the competition of the last anchor
   * and the last heading before it.
   */
  lemma ScanAttribution(nodes: seq<Node>, date: Day, read: Reader, i: int)
    requires 0 <= i < |nodes| && IsMatchRow(nodes[i])
    requires ScanNodes(nodes, Scan(NoCompetition, []), date, read).Some?
    ensures var out := ScanNodes(nodes, Scan(NoCompetition, []), date, read).value.matches;
            var k := CountRows(nodes[..i]);
            && read(nodes[i]).Some?
            && k < |out|
            && out[k] == BuildMatch(read(nodes[i]).value, Context(LastAnchorName(nodes[..i], ""), LastHeadingText(nodes[..i], "")), date)
  {
    var st0 := Scan(NoCompetition, []);
    var before, rest := nodes[..i], nodes[i..];
    assert nodes == before + rest;
    ScanAppend(before, rest, st0, date, read);
    var mid := ScanNodes(before, st0, date, read).value;
    ScanContext(before, st0, date, read);
    ScanStep(rest, mid, date, read);
    var v := Visit(mid, rest[0], date, read).value;
    var out := ScanNodes(rest[1..], v, date, read).value.matches;
    assert out[..|v.matches|] == v.matches;
    assert out[|mid.matches|] == v.matches[|mid.matches|];
  }

  /**
   * The record of the match row at index `i` is the `CountRows(nodes[..i])`-th
   * record of the page, built under the competition of the last anchor and
   * the last heading before it.
   */
  lemma {:induction false} RowAttribution(nodes: seq<Node>, date: Day, i: int)
    requires 0 <= i < |nodes| && IsMatchRow(nodes[i])
    requires ParseMatches([], nodes, date).Some?
    ensures var out := ParseMatches([], nodes, date).value;
            var k := CountRows(nodes[..i]);
            && WellFormedRow(nodes[i])
            && k < |out|
            && out[k] == ExtractMatch(nodes[i], Context(LastAnchorName(nodes[..i], ""), LastHeadingText(nodes[..i], "")), date).value
  {
    ScanAttribution(nodes, date, ReadRow, i);
  }

  /**
   * The competition of the record of the match row at index `i`: the last
   * named anchor and the last heading before the row.
   */
  lemma RecordCompetition(nodes: seq<Node>, date: Day, i: int)
    requires 0 <= i < |nodes| && IsMatchRow(nodes[i])
    requires ParseMatches([], nodes, date).Some?
    ensures CountRows(nodes[..i]) < |ParseMatches([], nodes, date).value|
    ensures var m := ParseMatches([], nodes, date).value[CountRows(nodes[..i])];
            && m.competitionId == LastAnchorName(nodes[..i], "")
            && m.competitionName == LastHeadingText(nodes[..i], "")
  {
    RowAttribution(nodes, date, i);
  }

  /**
   * A record's competition id is the `name` of the last named anchor before
   * its match row.
   */
  lemma CompetitionIdFromLastAnchor(nodes: seq<Node>, date: Day, i: int, j: int)
    requires 0 <= j < i < |nodes| && IsMatchRow(nodes[i]) && IsNamedAnchor(nodes[j])
    requires forall k :: j < k < i ==> !IsNamedAnchor(nodes[k])
    requires ParseMatches([], nodes, date).Some?
    ensures CountRows(nodes[..i]) < |ParseMatches([], nodes, date).value|
    ensures ParseMatches([], nodes, date).value[CountRows(nodes[..i])].competitionId == nodes[j].attrs["name"]
  {
    RecordCompetition(nodes, date, i);
    LastAnchorNameAt(nodes[..i], "", j);
  }

  /** A match row with no named anchor before it has an empty competition id. */
  lemma {:induction false} CompetitionIdEmptyWithoutAnchor(nodes: seq<Node>, date: Day, i: int)
    requires 0 <= i < |nodes| && IsMatchRow(nodes[i])
    requires forall k :: 0 <= k < i ==> !IsNamedAnchor(nodes[k])
    requires ParseMatches([], nodes, date).Some?
    ensures CountRows(nodes[..i]) < |ParseMatches([], nodes, date).value|
    ensures ParseMatches([], nodes, date).value[CountRows(nodes[..i])].competitionId == ""
  {
    RecordCompetition(nodes, date, i);
    LastAnchorNameNone(nodes[..i], "");
  }

  /** A record's competition name is the text of the last heading before its match row. */
  lemma {:induction false} CompetitionNameFromLastHeading(nodes: seq<Node>, date: Day, i: int, j: int)
    requires 0 <= j < i < |nodes| && IsMatchRow(nodes[i]) && IsHeading(nodes[j])
    requires forall k :: j < k < i ==> !IsHeading(nodes[k])
    requires ParseMatches([], nodes, date).Some?
    ensures CountRows(nodes[..i]) < |ParseMatches([], nodes, date).value|
    ensures ParseMatches([], nodes, date).value[CountRows(nodes[..i])].competitionName == nodes[j].text
  {
    RecordCompetition(nodes, date, i);
    LastHeadingTextAt(nodes[..i], "", j);
  }

  /** A match row with no heading before it has an empty competition name. */
  lemma {:induction false} CompetitionNameEmptyWithoutHeading(nodes: seq<Node>, date: Day, i: int)
    requires 0 <= i < |nodes| && IsMatchRow(nodes[i])
    requires forall k :: 0 <= k < i ==> !IsHeading(nodes[k])
    requires ParseMatches([], nodes, date).Some?
    ensures CountRows(nodes[..i]) < |ParseMatches([], nodes, date).value|
    ensures ParseMatches([], nodes, date).value[CountRows(nodes[..i])].competitionName == ""
  {
    RecordCompetition(nodes, date, i);
    LastHeadingTextNone(nodes[..i], "");
  }

  /**
   * Nodes that come later never change the records already emitted: the
   * records of a prefix of the page are a prefix of the page's records.
   */
  lemma LaterNodesKeepEarlierRecords(a: seq<Node>, b: seq<Node>, date: Day)
    requires ParseMatches([], a + b, date).Some?
    ensures ParseMatches([], a, date).Some?
    ensures var early := ParseMatches([], a, date).value;
            |early| <= |ParseMatches([], a + b, date).value| && ParseMatches([], a + b, date).value[..|early|] == early
  {
    ScanAppend(a, b, Scan(NoCompetition, []), date, ReadRow);
  }

  /**
   * `parseMatches` appends the page's records after the existing ones,
   * whatever those are, in document order.
   */
  lemma ParseMatchesAppends(existing: seq<Match>, nodes: seq<Node>, date: Day)
    ensures ParseMatches(existing, nodes, date).Some? == ParseMatches([], nodes, date).Some?
    ensures ParseMatches(existing, nodes, date).Some? ==>
              ParseMatches(existing, nodes, date).value == existing + ParseMatches([], nodes, date).value
  {
    ScanIgnoresEarlierRecords(nodes, NoCompetition, existing, date, ReadRow);
  }

  /** A page without match rows yields no records and no panic. */
  lemma NoRowsNoRecords(nodes: seq<Node>, date: Day)
    requires CountRows(nodes) == 0
    ensures ParseMatches([], nodes, date) == Some([])
  {
    NoRowsAreRead(nodes, ReadRow);
  }

  /** Both scores of a row fit Go's `int` and are never negative. */
  predicate ScoresInRange(t1Score: int, t2Score: int) {
    0 <= t1Score <= MaxInt && 0 <= t2Score <= MaxInt
  }

  /** A record of the page of `date` with consistent result fields and scores in range. */
  predicate SoundRecord(m: Match, date: Day) {
    m.date == date && ResultConsistent(m) && ScoresInRange(m.t1Score, m.t2Score)
  }

  /**
   * Every record a scan emits carries the page date and consistent result
   * fields, and its scores are in range when the reader's always are.
   */
  lemma {:induction false} EmittedRecordsWellFormed(nodes: seq<Node>, st: Scan, date: Day, read: Reader)
    requires ScanNodes(nodes, st, date, read).Some?
    requires forall n :: read(n).Some? ==> ScoresInRange(read(n).value.t1Score, read(n).value.t2Score)
    ensures var out := ScanNodes(nodes, st, date, read).value.matches;
            forall k :: |st.matches| <= k < |out| ==> SoundRecord(out[k], date)
    decreases |nodes|
  {
    if |nodes| > 0 {
      ScanStep(nodes, st, date, read);
      var st' := Visit(st, nodes[0], date, read).value;
      assert forall k :: |st.matches| <= k < |st'.matches| ==> SoundRecord(st'.matches[k], date);
      EmittedRecordsWellFormed(nodes[1..], st', date, read);
      var out := ScanNodes(nodes[1..], st', date, read).value.matches;
      assert forall k :: |st.matches| <= k < |st'.matches| ==> out[k] == st'.matches[k] by {
        assert out[..|st'.matches|] == st'.matches;
      }
    }
  }

  /**
   * Every record `parseMatches` adds carries the page date, consistent
   * result fields and scores within Go's `int` range that are never negative.
   */
  lemma ParsedRecordsWellFormed(existing: seq<Match>, nodes: seq<Node>, date: Day)
    requires ParseMatches(existing, nodes, date).Some?
    ensures var out := ParseMatches(existing, nodes, date).value;
            forall k :: |existing| <= k < |out| ==> SoundRecord(out[k], date)
  {
    EmittedRecordsWellFormed(nodes, Scan(NoCompetition, existing), date, ReadRow);
  }
}
