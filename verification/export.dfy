/**
 * The CSV text `ExportAsCSV` writes: one line per record, eleven fields,
 * each in double quotes, separated by commas and ended by a newline. Fields
 * are written verbatim, so a field holding a quote or a newline is not
 * escaped; the reading side below states what survives a round trip.
 */
module Export {
  import opened Wrappers
  import opened GoStrings
  import opened Numerals
  import opened Matches

  /** Number of columns of a line. */
  const Columns: nat := 11

  /** The `%t` verb. */
  function BoolText(b: bool): (s: string)
    ensures s == "true" <==> b
  {
    if b then "true" else "false"
  }

  /**
   * The fields of a record in column order: date, competition id and name,
   * team names, team ids, scores, winner id and draw flag. The date is
   * printed by `showDate`, standing for Go's `time.Time.String`.
   */
  function CsvFields(m: Match, showDate: Day -> string): (fs: seq<string>)
    ensures |fs| == Columns
  {
    [showDate(m.date), m.competitionId, m.competitionName, m.t1Name, m.t2Name, m.t1Id, m.t2Id,
     FormatInt(m.t1Score), FormatInt(m.t2Score), m.winnerId, BoolText(m.draw)]
  }

  /** A field in double quotes. */
  function Quote(f: string): string {
    "\"" + f + "\""
  }

  /** Quoted fields separated by commas. */
  function QuotedLine(fs: seq<string>): string
    decreases |fs|
  {
    if |fs| == 0 then ""
    else if |fs| == 1 then Quote(fs[0])
    else Quote(fs[0]) + "," + QuotedLine(fs[1..])
  }

  /**
   * The line `ExportAsCSV` writes for one record. It starts with a quote,
   * ends with the newline, and reads back into the record's fields whenever
   * the record's text holds no quote.
   */
  function CsvLine(m: Match, showDate: Day -> string): (line: string)
    ensures |line| >= 2 && line[0] == '"' && line[|line| - 1] == '\n'
    ensures TextFree(m, showDate, '"') ==> ReadLine(line) == Some(CsvFields(m, showDate))
  {
    CsvLineReadsBack(m, showDate);
    QuotedLine(CsvFields(m, showDate)) + "\n"
  }

  /** A record's quoted fields, ended by a newline, read back into them when its text holds no quote. */
  lemma CsvLineReadsBack(m: Match, showDate: Day -> string)
    ensures TextFree(m, showDate, '"') ==>
              ReadLine(QuotedLine(CsvFields(m, showDate)) + "\n") == Some(CsvFields(m, showDate))
  {
    if TextFree(m, showDate, '"') {
      CsvFieldsFree(m, showDate, '"');
      QuotedLineRoundTrip(CsvFields(m, showDate));
    }
  }

  /** No text field of any record holds a newline. */
  predicate NoNewlines(ms: seq<Match>, showDate: Day -> string) {
    forall i :: 0 <= i < |ms| ==> TextFree(ms[i], showDate, '\n')
  }

  /**
   * The whole file: the lines of the records, in order. It is empty exactly
   * when there are no records, otherwise ends with a newline, and when no
   * text field holds a newline it splits at newlines into one line body per
   * record, in record order, and the empty rest after the final newline.
   */
  function ExportText(ms: seq<Match>, showDate: Day -> string): (text: string)
    ensures |text| == 0 <==> |ms| == 0
    ensures |ms| > 0 ==> text[|text| - 1] == '\n'
    ensures NoNewlines(ms, showDate) ==> Split(text, '\n') == Bodies(ms, showDate) + [""]
    decreases |ms|
  {
    if |ms| == 0 then ""
    else
      var rest := ExportText(ms[1..], showDate);
      NextLine(ms, showDate, rest);
      CsvLine(ms[0], showDate) + rest
  }

  /**
   * One more record in front: its line body comes first, then the lines of
   * the rest, when no text field holds a newline.
   */
  lemma NextLine(ms: seq<Match>, showDate: Day -> string, rest: string)
    requires |ms| > 0
    requires NoNewlines(ms[1..], showDate) ==> Split(rest, '\n') == Bodies(ms[1..], showDate) + [""]
    ensures NoNewlines(ms, showDate) ==> Split(CsvLine(ms[0], showDate) + rest, '\n') == Bodies(ms, showDate) + [""]
  {
    if NoNewlines(ms, showDate) {
      var body := QuotedLine(CsvFields(ms[0], showDate));
      assert NoNewlines(ms[1..], showDate) by {
        forall i | 0 <= i < |ms[1..]|
          ensures TextFree(ms[1..][i], showDate, '\n')
        {
          assert ms[1..][i] == ms[i + 1];
        }
      }
      assert TextFree(ms[0], showDate, '\n');
      CsvFieldsFree(ms[0], showDate, '\n');
      QuotedLineFree(CsvFields(ms[0], showDate), '\n');
      SplitFirstPiece(body, '\n', rest);
      assert CsvLine(ms[0], showDate) + rest == body + ['\n'] + rest;
    }
  }

  /** No field contains `c`. */
  predicate FieldsFree(fs: seq<string>, c: char) {
    forall i :: 0 <= i < |fs| ==> c !in fs[i]
  }

  /**
   * The pieces of a quoted line between its quote characters: each field
   * followed by the text up to the next opening quote, "," between fields
   * and "" after the last one.
   */
  function Interleave(fs: seq<string>): (ps: seq<string>)
    requires |fs| >= 1
    ensures |ps| == 2 * |fs|
    decreases |fs|
  {
    if |fs| == 1 then [fs[0], ""] else [fs[0], ","] + Interleave(fs[1..])
  }

  /** The inverse of `Interleave`: `None` when a separator is not a comma. */
  function Unquote(ps: seq<string>): (r: Option<seq<string>>)
    ensures r.Some? ==> 2 * |r.value| == |ps|
    decreases |ps|
  {
    if |ps| < 2 then None
    else if |ps| == 2 then (if ps[1] == "" then Some([ps[0]]) else None)
    else if ps[1] == "," then
      match Unquote(ps[2..])
      case None => None
      case Some(rest) => Some([ps[0]] + rest)
    else None
  }

  /**
   * Reads one line back into its fields: the newline must end it, and it
   * must consist of quoted fields separated by commas.
   */
  function ReadLine(line: string): (r: Option<seq<string>>)
    ensures r.Some? ==> |line| >= 1 && line[|line| - 1] == '\n'
  {
    if |line| == 0 || line[|line| - 1] != '\n' then None
    else
      var parts := Split(line[..|line| - 1], '"');
      if parts[0] != "" then None else Unquote(parts[1..])
  }

  /** `Unquote` undoes `Interleave`. */
  lemma {:induction false} UnquoteInterleave(fs: seq<string>)
    requires |fs| >= 1
    ensures Unquote(Interleave(fs)) == Some(fs)
    decreases |fs|
  {
    if |fs| > 1 {
      var ps := Interleave(fs);
      assert ps == [fs[0], ","] + Interleave(fs[1..]);
      assert ps[0] == fs[0] && ps[1] == ",";
      assert ps[2..] == Interleave(fs[1..]);
      UnquoteInterleave(fs[1..]);
      assert [fs[0]] + fs[1..] == fs;
    } else {
      assert [fs[0]] == fs;
    }
  }

  /** Joining a piece in front of at least one more. */
  lemma JoinCons(p: string, rest: seq<string>, sep: char)
    requires |rest| >= 1
    ensures Join([p] + rest, sep) == p + [sep] + Join(rest, sep)
  {
    assert ([p] + rest)[1..] == rest;
  }

  /** The separator between two quoted fields is a quote, a comma and a quote. */
  lemma BetweenFields(x: string, j: string)
    ensures x + ['"'] + ("," + ['"'] + j) == x + "\",\"" + j
  {
  }

  /** A field, a comma piece and more pieces, joined by quote characters. */
  lemma JoinFieldComma(p: string, tail: seq<string>)
    requires |tail| >= 1
    ensures Join([p] + ([","] + tail), '"') == p + "\",\"" + Join(tail, '"')
  {
    var j := Join(tail, '"');
    JoinCons(p, [","] + tail, '"');
    JoinCons(",", tail, '"');
    BetweenFields(p, j);
  }

  /** The pieces after the first field, joined: the rest of the line. */
  lemma {:induction false} InterleaveJoinStep(fs: seq<string>)
    requires |fs| >= 2
    ensures Join(Interleave(fs), '"') == fs[0] + "\",\"" + Join(Interleave(fs[1..]), '"')
  {
    InterleaveCons(fs);
    JoinFieldComma(fs[0], Interleave(fs[1..]));
  }

  /** Two or more fields: the first field, a comma piece, then the rest. */
  lemma InterleaveCons(fs: seq<string>)
    requires |fs| >= 2
    ensures Interleave(fs) == [fs[0]] + ([","] + Interleave(fs[1..]))
  {
  }

  /** A quoted line is its pieces joined by quote characters. */
  lemma {:induction false} QuotedLineIsJoin(fs: seq<string>)
    requires |fs| >= 1
    ensures QuotedLine(fs) == Join([""] + Interleave(fs), '"')
    decreases |fs|
  {
    JoinCons("", Interleave(fs), '"');
    if |fs| == 1 {
      assert Join([fs[0], ""], '"') == fs[0] + "\"" + "";
    } else {
      QuotedLineIsJoin(fs[1..]);
      JoinCons("", Interleave(fs[1..]), '"');
      InterleaveJoinStep(fs);
      var j := Join(Interleave(fs[1..]), '"');
      assert QuotedLine(fs[1..]) == "\"" + j;
      assert QuotedLine(fs) == "\"" + fs[0] + "\"" + "," + ("\"" + j);
    }
  }

  /** The pieces of a quoted line are free of quotes when its fields are. */
  lemma {:induction false} InterleaveFree(fs: seq<string>, c: char)
    requires |fs| >= 1 && c != ',' && FieldsFree(fs, c)
    ensures FieldsFree([""] + Interleave(fs), c)
    decreases |fs|
  {
    if |fs| > 1 {
      InterleaveFree(fs[1..], c);
      var tail := Interleave(fs[1..]);
      assert [""] + Interleave(fs) == ["", fs[0], ","] + tail;
      assert forall i :: 0 <= i < |tail| ==> tail[i] == ([""] + tail)[i + 1];
    }
  }

  /** Reading a quoted line back gives its fields, when none holds a quote. */
  lemma {:induction false} QuotedLineRoundTrip(fs: seq<string>)
    requires |fs| >= 1 && FieldsFree(fs, '"')
    ensures ReadLine(QuotedLine(fs) + "\n") == Some(fs)
  {
    var line := QuotedLine(fs) + "\n";
    var ps := [""] + Interleave(fs);
    QuotedLineIsJoin(fs);
    InterleaveFree(fs, '"');
    SplitJoin(ps, '"');
    assert line[..|line| - 1] == QuotedLine(fs);
    assert ps[1..] == Interleave(fs);
    UnquoteInterleave(fs);
  }

  /** `%d` and `%t` never print a quote or a newline. */
  lemma FormattedFree(n: int, b: bool, c: char)
    requires c == '"' || c == '\n'
    ensures c !in FormatInt(n) && c !in BoolText(b)
  {
    var s := FormatInt(n);
    if n < 0 {
      assert s[1..] == FormatNat(-n);
      assert forall i :: 0 <= i < |s| ==> s[i] == '-' || IsDigit(s[i]);
    } else {
      assert forall i :: 0 <= i < |s| ==> IsDigit(s[i]);
    }
  }

  /** The text fields of a record and its printed date avoid `c`. */
  predicate TextFree(m: Match, showDate: Day -> string, c: char) {
    && c !in showDate(m.date)
    && c !in m.competitionId && c !in m.competitionName
    && c !in m.t1Name && c !in m.t2Name && c !in m.t1Id && c !in m.t2Id
    && c !in m.winnerId
  }

  /** A record whose text avoids `c` has fields that avoid it. */
  lemma CsvFieldsFree(m: Match, showDate: Day -> string, c: char)
    requires c == '"' || c == '\n'
    requires TextFree(m, showDate, c)
    ensures FieldsFree(CsvFields(m, showDate), c)
  {
    FormattedFree(m.t1Score, m.draw, c);
    FormattedFree(m.t2Score, m.draw, c);
  }

  /**
   * A line of the export reads back into the record's fields: the text
   * fields verbatim, the scores through `Atoi` and the draw flag as "true",
   * whenever the text holds no quote and the scores fit Go's `int`.
   */
  lemma CsvLineRoundTrip(m: Match, showDate: Day -> string)
    requires TextFree(m, showDate, '"')
    requires MinInt <= m.t1Score <= MaxInt && MinInt <= m.t2Score <= MaxInt
    ensures ReadLine(CsvLine(m, showDate)).Some?
    ensures var fs := ReadLine(CsvLine(m, showDate)).value;
            && |fs| == Columns
            && fs[0] == showDate(m.date)
            && fs[1] == m.competitionId && fs[2] == m.competitionName
            && fs[3] == m.t1Name && fs[4] == m.t2Name
            && fs[5] == m.t1Id && fs[6] == m.t2Id
            && Atoi(fs[7]) == m.t1Score && Atoi(fs[8]) == m.t2Score
            && fs[9] == m.winnerId
            && (fs[10] == "true" <==> m.draw)
  {
    assert ReadLine(CsvLine(m, showDate)) == Some(CsvFields(m, showDate));
    TextColumns(m, showDate);
    ScoreColumns(m, showDate);
  }

  /** The columns other than the scores, in the order of the format string. */
  lemma TextColumns(m: Match, showDate: Day -> string)
    ensures var fs := CsvFields(m, showDate);
            && fs[0] == showDate(m.date)
            && fs[1] == m.competitionId && fs[2] == m.competitionName
            && fs[3] == m.t1Name && fs[4] == m.t2Name
            && fs[5] == m.t1Id && fs[6] == m.t2Id
            && fs[9] == m.winnerId
            && (fs[10] == "true" <==> m.draw)
  {
  }

  /** The two score columns read back through `Atoi` as the scores. */
  lemma ScoreColumns(m: Match, showDate: Day -> string)
    requires MinInt <= m.t1Score <= MaxInt && MinInt <= m.t2Score <= MaxInt
    ensures Atoi(CsvFields(m, showDate)[7]) == m.t1Score
    ensures Atoi(CsvFields(m, showDate)[8]) == m.t2Score
  {
    var fs := CsvFields(m, showDate);
    assert fs[7] == FormatInt(m.t1Score) && fs[8] == FormatInt(m.t2Score);
    assert Atoi(fs[7]) == m.t1Score by { AtoiOfFormatInt(m.t1Score); }
    assert Atoi(fs[8]) == m.t2Score by { AtoiOfFormatInt(m.t2Score); }
  }

  /** A quoted line holds no newline when its fields hold none. */
  lemma {:induction false} QuotedLineFree(fs: seq<string>, c: char)
    requires c != '"' && c != ',' && FieldsFree(fs, c)
    ensures c !in QuotedLine(fs)
    decreases |fs|
  {
    if |fs| > 1 {
      QuotedLineFree(fs[1..], c);
      assert fs[1..][0] == fs[1];
    }
  }

  /** The line bodies of the export, one per record. */
  function Bodies(ms: seq<Match>, showDate: Day -> string): (bs: seq<string>)
    ensures |bs| == |ms|
    decreases |ms|
  {
    if |ms| == 0 then [] else [QuotedLine(CsvFields(ms[0], showDate))] + Bodies(ms[1..], showDate)
  }
}
