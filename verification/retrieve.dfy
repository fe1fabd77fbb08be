/**
 * The date loop: `ParsePage` fetches and scans the page of one day,
 * `ParseAllWithTimeRange` does so for every day of a range in ascending
 * order and stops at the first error, and `ParseAllWithStringRange` parses
 * the two bounds first and then drops the loop's error.
 *
 * Fetching a page is the oracle `fetch`, and reading a date text is the
 * oracle `parseDate`; both stand for code outside the model (the network,
 * the HTML parser, `time.Parse`). Scanning a page is the parameter `scan`,
 * which the source instantiates with `PageMatches`, so the loop's
 * properties hold whatever the page holds.
 */
module Retrieve {
  import opened Wrappers
  import opened Matches
  import opened Extract
  import opened ScanProps

  /** The accumulator `MatchesResult`: the day being parsed and all records so far. */
  datatype Results = Results(currentDate: Day, matches: seq<Match>)

  /**
   * How a call ends: normally, with a returned error, or with a panic
   * raised inside `parseMatches` by a malformed match row. The source does
   * not recover panics, so a panic ends the whole program.
   */
  datatype Outcome<+E> = Done | Failed(error: E) | Panicked

  /** Fetching the page of a day: its container's children, or the error. */
  type Fetcher<!E> = Day -> Result<seq<Node>, E>

  /** Scanning a page into its own records; `None` is a panic. */
  type PageScanner = (seq<Node>, Day) -> Option<seq<Match>>

  /** The source's page scanner: the records `parseMatches` appends for a page. */
  function PageMatches(nodes: seq<Node>, d: Day): (r: Option<seq<Match>>)
    ensures r.Some? <==> RowsWellFormed(nodes)
    ensures r.Some? ==> |r.value| == CountRows(nodes)
  {
    ParseMatches([], nodes, d)
  }

  /** The page of day `d` downloads and scans without a panic. */
  predicate PageLoads<E>(d: Day, fetch: Fetcher<E>, scan: PageScanner) {
    fetch(d).Success? && scan(fetch(d).value, d).Some?
  }

  /**
   * `ParsePage` for one day: record the day as current, fetch its page and
   * append the page's records. A fetch error is returned with the records
   * untouched; a malformed row panics.
   */
  function ParsePage<E>(r: Results, d: Day, fetch: Fetcher<E>, scan: PageScanner): (res: (Results, Outcome<E>))
    ensures res.0.currentDate == d
    ensures res.1 == Done <==> PageLoads(d, fetch, scan)
    ensures res.1.Failed? <==> fetch(d).Failure?
    ensures res.1.Failed? ==> res.1.error == fetch(d).error
    ensures res.1 != Done ==> res.0.matches == r.matches
    ensures res.1 == Done ==> res.0.matches == r.matches + scan(fetch(d).value, d).value
  {
    var r' := r.(currentDate := d);
    match fetch(d)
    case Failure(e) => (r', Failed(e))
    case Success(nodes) =>
      match scan(nodes, d)
      case None => (r', Panicked)
      case Some(ms) => (r'.(matches := r.matches + ms), Done)
  }

  /**
   * With the source's scanner, a page that loads adds exactly what
   * `parseMatches` adds to the existing records, and a page whose rows
   * are malformed is the panic of `parseMatches`.
   */
  lemma ParsePageIsParseMatches<E>(r: Results, d: Day, fetch: Fetcher<E>)
    requires fetch(d).Success?
    ensures var res := ParsePage(r, d, fetch, PageMatches);
            && (res.1 == Done <==> ParseMatches(r.matches, fetch(d).value, d).Some?)
            && (res.1 == Done ==> res.0.matches == ParseMatches(r.matches, fetch(d).value, d).value)
  {
    ParseMatchesAppends(r.matches, fetch(d).value, d);
  }

  /** The days from `start` to `end`, both included, in ascending order. */
  function Days(start: Day, end: Day): (ds: seq<Day>)
    ensures |ds| == if start <= end then end - start + 1 else 0
    ensures forall k :: 0 <= k < |ds| ==> ds[k] == start + k
    decreases end - start
  {
    if start > end then [] else [start] + Days(start + 1, end)
  }

  /**
   * The reference semantics of the loop: parse the pages of `days` in
   * order, stopping at the first call that does not end normally.
   */
  function RunDays<E>(r: Results, days: seq<Day>, fetch: Fetcher<E>, scan: PageScanner): (res: (Results, Outcome<E>))
    decreases |days|
  {
    if |days| == 0 then (r, Done)
    else
      var (r', o) := ParsePage(r, days[0], fetch, scan);
      if o != Done then (r', o) else RunDays(r', days[1..], fetch, scan)
  }

  /** The records of the pages of `days`, in order, when all of them load. */
  function Collected<E>(days: seq<Day>, fetch: Fetcher<E>, scan: PageScanner): seq<Match>
    requires forall k :: 0 <= k < |days| ==> PageLoads(days[k], fetch, scan)
    decreases |days|
  {
    if |days| == 0 then []
    else
      assert PageLoads(days[0], fetch, scan);
      scan(fetch(days[0]).value, days[0]).value + Collected(days[1..], fetch, scan)
  }

  /**
   * When every page loads, the loop ends normally having appended the
   * records of every page in day order.
   */
  lemma {:induction false} RunDaysAllLoad<E>(r: Results, days: seq<Day>, fetch: Fetcher<E>, scan: PageScanner)
    requires forall k :: 0 <= k < |days| ==> PageLoads(days[k], fetch, scan)
    ensures RunDays(r, days, fetch, scan).1 == Done
    ensures RunDays(r, days, fetch, scan).0.matches == r.matches + Collected(days, fetch, scan)
    decreases |days|
  {
    if |days| == 0 {
      assert r.matches + [] == r.matches;
    } else {
      assert PageLoads(days[0], fetch, scan);
      var r' := ParsePage(r, days[0], fetch, scan).0;
      RunDaysAllLoad(r', days[1..], fetch, scan);
      var page := scan(fetch(days[0]).value, days[0]).value;
      assert r.matches + page + Collected(days[1..], fetch, scan)
             == r.matches + (page + Collected(days[1..], fetch, scan));
    }
  }

  /**
   * The loop stops at the first day whose page does not load: it returns
   * that day's outcome, with that day as the current one and the records of
   * the earlier days appended.
   */
  lemma {:induction false} RunDaysStopsAtFirstError<E>(r: Results, days: seq<Day>, fetch: Fetcher<E>, scan: PageScanner, i: int)
    requires 0 <= i < |days|
    requires forall k :: 0 <= k < i ==> PageLoads(days[k], fetch, scan)
    requires !PageLoads(days[i], fetch, scan)
    ensures RunDays(r, days, fetch, scan).1 == ParsePage(r, days[i], fetch, scan).1
    ensures RunDays(r, days, fetch, scan).1 != Done
    ensures RunDays(r, days, fetch, scan).0.currentDate == days[i]
    ensures RunDays(r, days, fetch, scan).0.matches == r.matches + Collected(days[..i], fetch, scan)
    decreases i
  {
    if i == 0 {
      assert r.matches + [] == r.matches;
    } else {
      assert PageLoads(days[0], fetch, scan);
      var r' := ParsePage(r, days[0], fetch, scan).0;
      RunDaysStopsAtFirstError(r', days[1..], fetch, scan, i - 1);
      assert days[1..][..i - 1] == days[..i][1..];
      var page := scan(fetch(days[0]).value, days[0]).value;
      assert r.matches + page + Collected(days[..i][1..], fetch, scan)
             == r.matches + (page + Collected(days[..i][1..], fetch, scan));
    }
  }

  /** One step of the loop from `d`, while `d` is not past `end`. */
  lemma DaysStep(d: Day, end: Day)
    requires d <= end
    ensures Days(d, end) == [d] + Days(d + 1, end)
  {
  }

  /**
   * `ParseAllWithTimeRange`: for `d` from `start` while `d` is not after
   * `end`, parse the page of `d`, returning at the first error. A panic
   * also ends the loop. The result agrees with `RunDays` over `Days`.
   */
  method ParseAllWithTimeRange<E>(r: Results, start: Day, end: Day, fetch: Fetcher<E>, scan: PageScanner)
    returns (res: Results, outcome: Outcome<E>)
    ensures (res, outcome) == RunDays(r, Days(start, end), fetch, scan)
    ensures outcome.Failed? ==> start <= res.currentDate <= end && fetch(res.currentDate) == Failure(outcome.error)
    ensures outcome == Panicked ==> start <= res.currentDate <= end && !PageLoads(res.currentDate, fetch, scan)
    ensures outcome == Done && start <= end ==> res.currentDate == end
    ensures start > end ==> res == r && outcome == Done
  {
    res, outcome := r, Done;
    var d := start;
    while d <= end
      invariant start <= d <= end + 1 || (d == start && start > end)
      invariant RunDays(r, Days(start, end), fetch, scan) == RunDays(res, Days(d, end), fetch, scan)
      invariant d > start ==> res.currentDate == d - 1
      invariant d == start ==> res == r
      decreases end - d
    {
      DaysStep(d, end);
      var page := ParsePage(res, d, fetch, scan);
      if page.1 != Done {
        return page.0, page.1;
      }
      res := page.0;
      d := d + 1;
    }
  }

  /**
   * `ParseAllWithStringRange`: read both bounds, returning the first read
   * error untouched; otherwise run the loop and drop its error, so only a
   * read error or a panic is visible to the caller.
   */
  method ParseAllWithStringRange<E>(r: Results, start: string, end: string,
                                    parseDate: string -> Result<Day, E>, fetch: Fetcher<E>, scan: PageScanner)
    returns (res: Results, outcome: Outcome<E>)
    ensures parseDate(start).Failure? ==> res == r && outcome == Failed(parseDate(start).error)
    ensures parseDate(start).Success? && parseDate(end).Failure? ==>
              res == r && outcome == Failed(parseDate(end).error)
    ensures parseDate(start).Success? && parseDate(end).Success? ==>
              var run := RunDays(r, Days(parseDate(start).value, parseDate(end).value), fetch, scan);
              && res == run.0
              && outcome == (if run.1 == Panicked then Panicked else Done)
  {
    match parseDate(start)
    case Failure(e) =>
      return r, Failed(e);
    case Success(s) =>
      match parseDate(end)
      case Failure(e) =>
        return r, Failed(e);
      case Success(t) =>
        var loop;
        res, loop := ParseAllWithTimeRange(r, s, t, fetch, scan);
        outcome := if loop == Panicked then Panicked else Done;
  }
}
