/** The page cursor of a market: how it is stored, and how the runs that move it go through all pages. */
module HarvestCursor {
  import opened Records
  import opened Texts

  // ---------- the stored cursor ----------

  const PAGE_PREFIX := "HARVEST_SEARCH_PAGE:"

  /** What the stored text means; anything but a positive number means the first page. */
  function PageOf(rows: map<string, string>, market: string): (page: int)
    ensures page >= 1
  {
    var key := PAGE_PREFIX + market;
    var value := if key in rows then ParseInt(rows[key]) else Some(1);
    if value.Some? && value.value >= 1 then value.value else 1
  }

  lemma PrintedPageIsRead(n: nat)
    ensures ParseInt(Print(n)) == Some(n)
  {
    var s := Print(n);
    assert IsDigit(s[0]);
    AllDigitsAreTaken(s);
  }

  lemma {:induction false} AllDigitsAreTaken(s: string)
    requires AllDigits(s)
    ensures DigitPrefix(s) == s
  {
    if s != "" {
      AllDigitsAreTaken(s[1..]);
    }
  }

  lemma KeysDiffer(a: string, b: string)
    requires a != b
    ensures PAGE_PREFIX + a != PAGE_PREFIX + b
  {
    assert (PAGE_PREFIX + a)[|PAGE_PREFIX|..] == a && (PAGE_PREFIX + b)[|PAGE_PREFIX|..] == b;
  }

  /** The key-value table that outlives the runs. */
  class SystemState {
    var rows: map<string, string>

    constructor ()
      ensures rows == map[]
    {
      rows := map[];
    }

    /** Nothing stored, or nothing that reads as a page, means the first one; a page that was written is read back. */
    method GetHarvestSearchPage(market: string) returns (page: int)
      ensures page == PageOf(rows, market) && page >= 1
      ensures "HARVEST_SEARCH_PAGE:" + market !in rows ==> page == 1
      ensures "HARVEST_SEARCH_PAGE:" + market in rows && ParseInt(rows["HARVEST_SEARCH_PAGE:" + market]) == None ==>
        page == 1
      ensures forall n: nat :: PAGE_PREFIX + market in rows && rows[PAGE_PREFIX + market] == Print(n) ==>
        page == if n >= 1 then n else 1
    {
      var key := PAGE_PREFIX + market;
      var value := 1;
      if key in rows {
        var parsed := ParseInt(rows[key]);
        value := if parsed.Some? then parsed.value else 0;
      }
      page := if value >= 1 then value else 1;
      forall n: nat
        ensures ParseInt(Print(n)) == Some(n)
      {
        PrintedPageIsRead(n);
      }
    }

    /** A page written is the page read, and no other market notices. */
    method SetHarvestSearchPage(market: string, page: int)
      modifies this
      ensures PageOf(rows, market) == if page >= 1 then page else 1
      ensures forall other :: other != market ==> PageOf(rows, other) == old(PageOf(rows, other))
      ensures forall key :: key != PAGE_PREFIX + market ==>
        (key in rows <==> key in old(rows)) && (key in rows ==> rows[key] == old(rows)[key])
    {
      var shown: nat := if page >= 1 then page else 1;
      rows := rows[PAGE_PREFIX + market := Print(shown)];
      PrintedPageIsRead(shown);
      forall other | other != market
        ensures PageOf(rows, other) == old(PageOf(rows, other))
      {
        KeysDiffer(other, market);
      }
    }
  }

  // ---------- the numbers of a run ----------

  datatype Config = Config(pagesPerRun: int, perPageCap: int, maxPage: int, sendMax: int)

  /** The cap on sends from the environment: never unlimited, never none; a value in range is kept, one above it cut
      to the range, and anything else replaced by the default. */
  function SendMax(untilBlocked: bool, raw: Option<int>): (max: int)
    ensures 1 <= max <= if untilBlocked then 500 else 50
    ensures raw.None? || raw.value < 1 ==> max == if untilBlocked then 200 else 10
    ensures raw.Some? && raw.value >= 1 ==>
      max <= raw.value && (max == raw.value || max == if untilBlocked then 500 else 50)
  {
    var fallback, top := if untilBlocked then 200 else 10, if untilBlocked then 500 else 50;
    if raw.None? || raw.value < 1 then fallback else if raw.value < top then raw.value else top
  }

  /** How many of `count` listings `slice(0, limit)` keeps: a negative limit counts from the end. */
  function BatchSize(count: nat, limit: int): (n: nat)
    ensures n <= count
  {
    if limit >= count then count else if limit >= 0 then limit else if count + limit >= 0 then count + limit else 0
  }

  function PagesFrom(start: int, count: nat): seq<int> {
    seq(count, i requires 0 <= i < count => start + i)
  }

  /** The first page of a run. */
  function StartPage(cursor: int, maxPage: int): int { if cursor > maxPage then 1 else cursor }

  /** The first page of the next run, after `count` pages with listings. */
  function NextCursor(start: int, count: nat, maxPage: int): int {
    if count == 0 then 1 else if start + count > maxPage then 1 else start + count
  }

  /** A page of this run is still to come after `count` pages. */
  predicate HasNext(start: int, c: Config, count: nat) {
    start + count <= c.maxPage && count < c.pagesPerRun
  }

  /** How many pages an undisturbed run goes through. */
  function RunLength(start: int, c: Config): nat {
    if c.pagesPerRun <= 0 || start > c.maxPage then 0
    else if start + c.pagesPerRun <= c.maxPage + 1 then c.pagesPerRun else c.maxPage + 1 - start
  }

  /** What a search page shows. */
  datatype Screen = Captcha | NetworkBlock | LoggedOut | Loaded(count: nat)

  predicate HasListings(s: Screen) { s.Loaded? && s.count > 0 }

  /** `visited`: the pages whose listings were gone through, in order. `cut`: a blocked send or the cap ended the
      run. */
  datatype RunEnd = RunEnd(visited: seq<int>, failure: Option<Screen>, cut: bool)

  /** The pages a run goes through are consecutive, within the market and the run, and each had listings; why it ended:
      a page that failed, no page left, a page without listings, or the cut. */
  ghost predicate RanWell(start: int, c: Config, screens: seq<Screen>, end: RunEnd) {
    var n := |end.visited|;
    && end.visited == PagesFrom(start, n) && n <= |screens| <= n + 1
    && (n > 0 ==> start + n <= c.maxPage + 1 && n <= c.pagesPerRun)
    && (forall i :: 0 <= i < n ==> HasListings(screens[i]))
    && (|screens| == n + 1 ==> HasNext(start, c, n) && !HasListings(screens[n]) && !end.cut)
    && (end.failure.Some? <==> |screens| == n + 1 && !screens[n].Loaded?)
    && (end.failure.Some? ==> end.failure == Some(screens[n]))
    && (|screens| == n ==> end.cut || !HasNext(start, c, n))
  }

  /** The cursor a run leaves behind: a failed one leaves it alone. */
  predicate Moves(before: int, c: Config, end: RunEnd, after: int) {
    after == if end.failure.Some? then before else NextCursor(StartPage(before, c.maxPage), |end.visited|, c.maxPage)
  }

  // ---------- the numbers, spelled out ----------

  /** A page of `count` listings cut to a limit: never more than either, and a negative limit drops that many from the
      end. */
  lemma BatchMeans(count: nat, limit: int)
    ensures var n := BatchSize(count, limit);
      && (limit >= 0 ==> n <= limit && (n == count || n == limit))
      && (limit < 0 ==> n == 0 || n == count + limit)
      && (limit < 0 && count >= -limit ==> n == count + limit)
  {
  }

  /** Where a run starts: at the stored page, or at the first when that lies behind the last. */
  lemma StartMeans(cursor: int, maxPage: int)
    ensures cursor <= maxPage ==> StartPage(cursor, maxPage) == cursor
    ensures cursor > maxPage ==> StartPage(cursor, maxPage) == 1
  {
  }

  /** Where the next run starts: at the first page when no page had listings or the market is through, else behind the
      last page with listings. */
  lemma NextMeans(start: int, count: nat, maxPage: int)
    ensures count == 0 ==> NextCursor(start, count, maxPage) == 1
    ensures count > 0 && start + count - 1 >= maxPage ==> NextCursor(start, count, maxPage) == 1
    ensures count > 0 && start + count - 1 < maxPage ==> NextCursor(start, count, maxPage) == start + count
  {
  }

  /** Another page follows iff the market has one and the run may still go through one. */
  lemma NextPageMeans(start: int, c: Config, count: nat)
    ensures HasNext(start, c, count) <==> start + count - 1 < c.maxPage && count < c.pagesPerRun
  {
  }

  /** A page has listings iff it was shown with at least one: not when it shows none, a captcha, a block or a lost
      login. */
  lemma ListingsMean(s: Screen)
    ensures HasListings(s) <==> s != Screen.Captcha && s != NetworkBlock && s != LoggedOut && s != Loaded(0)
  {
  }

  // ---------- sweeps over many runs ----------

  /** Where the next run would start. */
  function NextStart(c: Config, cursor: int): int { StartPage(cursor, c.maxPage) }

  /** Runs of one market, the cursor before the first, between any two and after the last. */
  ghost predicate Chain(c: Config, cursors: seq<int>, ends: seq<RunEnd>) {
    && |cursors| == |ends| + 1 && cursors[0] >= 1
    && forall i :: 0 <= i < |ends| ==> Link(c, cursors[i], ends[i], cursors[i + 1])
  }

  ghost predicate Link(c: Config, before: int, end: RunEnd, after: int) {
    && Moves(before, c, end, after)
    && RanFrom(c, before, end)
  }

  ghost predicate RanFrom(c: Config, cursor: int, end: RunEnd) {
    exists screens :: RanWell(NextStart(c, cursor), c, screens, end)
  }

  lemma ChainOneMore(c: Config, cursors: seq<int>, ends: seq<RunEnd>, end: RunEnd, after: int)
    requires Chain(c, cursors, ends) && Link(c, cursors[|ends|], end, after)
    ensures Chain(c, cursors + [after], ends + [end])
  {
    var cs, es := cursors + [after], ends + [end];
    forall i | 0 <= i < |es|
      ensures Link(c, cs[i], es[i], cs[i + 1])
    {
      if i < |ends| {
        assert Link(c, cursors[i], ends[i], cursors[i + 1]);
      }
    }
  }

  /** The pages the finished runs from the `i`-th up to the `j`-th went through. */
  ghost function Swept(ends: seq<RunEnd>, i: nat, j: nat): seq<int>
    requires i <= j <= |ends|
    decreases j
  {
    if i == j then []
    else Swept(ends, i, j - 1) + if ends[j - 1].failure.Some? then [] else ends[j - 1].visited
  }

  /** The start of every run is a page of the market, whatever was stored at first. */
  lemma {:induction false} CursorStaysInside(c: Config, cursors: seq<int>, ends: seq<RunEnd>, j: nat)
    requires Chain(c, cursors, ends) && j <= |ends| && c.maxPage >= 1
    ensures 1 <= NextStart(c, cursors[j]) <= c.maxPage && cursors[j] >= 1
    ensures cursors[j] == cursors[0] || cursors[j] <= c.maxPage
  {
    if j > 0 {
      CursorStaysInside(c, cursors, ends, j - 1);
      assert Link(c, cursors[j - 1], ends[j - 1], cursors[j]);
    }
  }

  /** No finished run from the `i`-th up to the `j`-th put the cursor back to the first page. */
  predicate NoReset(cursors: seq<int>, ends: seq<RunEnd>, i: nat, j: nat)
    requires i <= j <= |ends| && |cursors| == |ends| + 1
  {
    forall k :: i <= k < j ==> ends[k].failure.Some? || cursors[k + 1] != 1
  }

  /** Nothing is skipped: between two resets of the cursor the finished runs go through exactly the pages between their
      starts, each once and in order, however many runs failed in between. */
  lemma {:induction false} NothingIsSkipped(c: Config, cursors: seq<int>, ends: seq<RunEnd>, i: nat, j: nat)
    requires Chain(c, cursors, ends) && i <= j <= |ends| && c.maxPage >= 1
    requires NoReset(cursors, ends, i, j)
    ensures NextStart(c, cursors[i]) <= NextStart(c, cursors[j])
    ensures Swept(ends, i, j) == PagesFrom(NextStart(c, cursors[i]),
      NextStart(c, cursors[j]) - NextStart(c, cursors[i]))
    decreases j
  {
    if i < j {
      NothingIsSkipped(c, cursors, ends, i, j - 1);
      OneRunOn(c, cursors, ends, j);
      PagesMeet(NextStart(c, cursors[i]), NextStart(c, cursors[j - 1]), NextStart(c, cursors[j]));
    }
  }

  /** One run, finished or not, that does not reset the cursor. */
  lemma OneRunOn(c: Config, cursors: seq<int>, ends: seq<RunEnd>, j: nat)
    requires Chain(c, cursors, ends) && 1 <= j <= |ends| && c.maxPage >= 1
    requires ends[j - 1].failure.Some? || cursors[j] != 1
    ensures var mid, to := NextStart(c, cursors[j - 1]), NextStart(c, cursors[j]);
      mid <= to && (if ends[j - 1].failure.Some? then [] else ends[j - 1].visited) == PagesFrom(mid, to - mid)
  {
    CursorStaysInside(c, cursors, ends, j - 1);
    assert Link(c, cursors[j - 1], ends[j - 1], cursors[j]);
    if ends[j - 1].failure.None? {
      AdvanceByVisited(c, cursors[j - 1], ends[j - 1], cursors[j]);
    }
  }

  lemma PagesMeet(from: int, mid: int, to: int)
    requires from <= mid <= to
    ensures PagesFrom(from, mid - from) + PagesFrom(mid, to - mid) == PagesFrom(from, to - from)
  {
  }

  lemma SkipsNothing(c: Config, cursors: seq<int>, ends: seq<RunEnd>)
    requires Chain(c, cursors, ends) && c.maxPage >= 1
    ensures forall j :: 0 <= j <= |ends| ==> cursors[j] >= 1 && (cursors[j] == cursors[0] || cursors[j] <= c.maxPage)
    ensures forall i, j :: 0 <= i <= j <= |ends| ==>
      1 <= NextStart(c, cursors[j]) <= c.maxPage && (NoReset(cursors, ends, i, j) ==>
      NextStart(c, cursors[i]) <= NextStart(c, cursors[j])
      && Swept(ends, i, j) == PagesFrom(NextStart(c, cursors[i]), NextStart(c, cursors[j]) - NextStart(c, cursors[i])))
  {
    forall j | 0 <= j <= |ends|
      ensures cursors[j] >= 1 && (cursors[j] == cursors[0] || cursors[j] <= c.maxPage)
    {
      CursorStaysInside(c, cursors, ends, j);
    }
    forall i, j | 0 <= i <= j <= |ends|
      ensures 1 <= NextStart(c, cursors[j]) <= c.maxPage && (NoReset(cursors, ends, i, j) ==>
        NextStart(c, cursors[i]) <= NextStart(c, cursors[j])
        && Swept(ends, i, j) == PagesFrom(NextStart(c, cursors[i]),
          NextStart(c, cursors[j]) - NextStart(c, cursors[i])))
    {
      CursorStaysInside(c, cursors, ends, j);
      if NoReset(cursors, ends, i, j) {
        NothingIsSkipped(c, cursors, ends, i, j);
      }
    }
  }

  /** A finished run that does not reset the cursor moves it past the pages it went through. */
  lemma AdvanceByVisited(c: Config, before: int, end: RunEnd, after: int)
    requires Link(c, before, end, after) && end.failure.None? && after != 1 && before >= 1 && c.maxPage >= 1
    ensures end.visited == PagesFrom(NextStart(c, before), |end.visited|)
    ensures NextStart(c, after) == NextStart(c, before) + |end.visited|
  {
  }

  lemma PagesJoin(start: int, a: nat, b: nat)
    ensures PagesFrom(start, a) + PagesFrom(start + a, b) == PagesFrom(start, a + b)
  {
  }

  /** Runs needed for so many pages: rounded up. */
  function RunsFor(pages: nat, pagesPerRun: int): nat
    requires pagesPerRun >= 1
  {
    (pages + pagesPerRun - 1) / pagesPerRun
  }

  lemma RunsForFewer(pages: nat, pagesPerRun: int)
    requires pages > pagesPerRun >= 1
    ensures RunsFor(pages, pagesPerRun) == 1 + RunsFor(pages - pagesPerRun, pagesPerRun)
  {
    var x := pages - 1;
    assert x / pagesPerRun * pagesPerRun + x % pagesPerRun == x;
    DivideStep(x, pagesPerRun);
  }

  lemma DivideStep(x: nat, d: int)
    requires d >= 1
    ensures (x + d) / d == x / d + 1
  {
    var q, r := x / d, x % d;
    assert x + d == (q + 1) * d + r;
    QuotientIs(x + d, d, q + 1, r);
  }

  lemma QuotientIs(x: int, d: int, q: int, r: int)
    requires d >= 1 && x == q * d + r && 0 <= r < d
    ensures x / d == q
  {
    var e := x / d - q;
    assert x / d * d + x % d == x;
    assert e * d == r - x % d;
    MultipleIsFar(e, d);
  }

  lemma MultipleIsFar(e: int, d: int)
    requires d >= 1
    ensures (e >= 1 ==> e * d >= d) && (e <= -1 ==> e * d <= -d)
  {
    if e >= 1 {
      assert (e - 1) * d >= 0;
    } else if e <= -1 {
      assert (e + 1) * d <= 0;
    }
  }

  /** Undisturbed: every page shown had listings and nothing cut the run short. */
  predicate Undisturbed(c: Config, start: int, end: RunEnd) {
    end.failure.None? && end.visited == PagesFrom(start, RunLength(start, c))
  }

  /** A run on a market all of whose pages have listings is undisturbed unless it is cut. */
  lemma UncutRunsAreFull(start: int, c: Config, screens: seq<Screen>, end: RunEnd)
    requires start >= 1 && RanWell(start, c, screens, end) && !end.cut
    requires forall i :: 0 <= i < |screens| ==> HasListings(screens[i])
    ensures Undisturbed(c, start, end)
  {
  }

  /** From any stored page on, undisturbed runs go through the rest of the market, each page once and in order, and
      start over after exactly the rounded-up number of runs. */
  lemma {:induction false} RestOfSweep(c: Config, cursors: seq<int>, ends: seq<RunEnd>, n: nat)
    requires Chain(c, cursors, ends) && c.pagesPerRun >= 1 && c.maxPage >= 1
    requires n == RunsFor(c.maxPage + 1 - NextStart(c, cursors[0]), c.pagesPerRun) <= |ends|
    requires forall i :: 0 <= i < n ==> Undisturbed(c, NextStart(c, cursors[i]), ends[i])
    ensures var start := NextStart(c, cursors[0]);
      && Swept(ends, 0, n) == PagesFrom(start, c.maxPage + 1 - start)
      && cursors[n] == 1 && forall k :: 0 < k < n ==> cursors[k] != 1
    decreases n
  {
    var start := NextStart(c, cursors[0]);
    var left := c.maxPage + 1 - start;
    FirstRun(c, cursors, ends, n);
    SweptShift(ends, n);
    if left <= c.pagesPerRun {
      assert Swept(ends[1..], 0, 0) == [];
    } else {
      LaterRuns(c, cursors, ends, n);
      RestOfSweep(c, cursors[1..], ends[1..], n - 1);
      PagesJoin(start, c.pagesPerRun, left - c.pagesPerRun);
      NotFirstAgain(cursors, n);
    }
  }

  /** What the first of the runs leaves to the others. */
  lemma FirstRun(c: Config, cursors: seq<int>, ends: seq<RunEnd>, n: nat)
    requires Chain(c, cursors, ends) && c.pagesPerRun >= 1 && c.maxPage >= 1
    requires n == RunsFor(c.maxPage + 1 - NextStart(c, cursors[0]), c.pagesPerRun) <= |ends|
    requires n >= 1 ==> Undisturbed(c, NextStart(c, cursors[0]), ends[0])
    ensures var start := NextStart(c, cursors[0]); var left := c.maxPage + 1 - start;
      n >= 1 && left >= 1 &&
      if left <= c.pagesPerRun then n == 1 && cursors[1] == 1 && ends[0].visited == PagesFrom(start, left)
      else
        && n - 1 == RunsFor(left - c.pagesPerRun, c.pagesPerRun) && ends[0].visited == PagesFrom(start, c.pagesPerRun)
        && cursors[1] == NextStart(c, cursors[1]) == start + c.pagesPerRun && cursors[1] != 1
  {
    var left := c.maxPage + 1 - NextStart(c, cursors[0]);
    CursorStaysInside(c, cursors, ends, 0);
    RunsForSome(left, c.pagesPerRun);
    assert Link(c, cursors[0], ends[0], cursors[1]);
    FullStep(c, cursors[0], ends[0], cursors[1]);
    if left <= c.pagesPerRun {
      QuotientIs(left + c.pagesPerRun - 1, c.pagesPerRun, 1, left - 1);
    } else {
      RunsForFewer(left, c.pagesPerRun);
    }
  }

  lemma NotFirstAgain(cursors: seq<int>, n: nat)
    requires 1 <= n < |cursors| && cursors[1] != 1 && forall k :: 0 < k < n - 1 ==> cursors[1..][k] != 1
    ensures forall k :: 0 < k < n ==> cursors[k] != 1
  {
    forall k | 0 < k < n
      ensures cursors[k] != 1
    {
      assert cursors[1..][k - 1] == cursors[k];
    }
  }

  lemma LaterRuns(c: Config, cursors: seq<int>, ends: seq<RunEnd>, n: nat)
    requires Chain(c, cursors, ends) && 1 <= n <= |ends| && cursors[1] >= 1
    requires forall i :: 0 <= i < n ==> Undisturbed(c, NextStart(c, cursors[i]), ends[i])
    ensures Chain(c, cursors[1..], ends[1..])
    ensures forall i :: 0 <= i < n - 1 ==> Undisturbed(c, NextStart(c, cursors[1..][i]), ends[1..][i])
  {
    forall i | 0 <= i < |ends| - 1
      ensures Link(c, cursors[1..][i], ends[1..][i], cursors[1..][i + 1])
    {
      assert Link(c, cursors[i + 1], ends[i + 1], cursors[i + 2]);
    }
    forall i | 0 <= i < n - 1
      ensures Undisturbed(c, NextStart(c, cursors[1..][i]), ends[1..][i])
    {
      assert Undisturbed(c, NextStart(c, cursors[i + 1]), ends[i + 1]);
    }
  }

  /** An undisturbed run goes as far as its length or the last page, and past the last page the cursor starts over. */
  lemma FullStep(c: Config, before: int, end: RunEnd, after: int)
    requires Link(c, before, end, after) && before >= 1 && c.maxPage >= 1 && c.pagesPerRun >= 1
    requires Undisturbed(c, NextStart(c, before), end)
    ensures var start := NextStart(c, before); var left := c.maxPage + 1 - start;
      if left <= c.pagesPerRun then after == 1 && end.visited == PagesFrom(start, left)
      else after == start + c.pagesPerRun && after != 1 && NextStart(c, after) == after &&
           end.visited == PagesFrom(start, c.pagesPerRun)
  {
  }

  lemma RunsForSome(pages: nat, pagesPerRun: int)
    requires pages >= 1 && pagesPerRun >= 1
    ensures RunsFor(pages, pagesPerRun) >= 1
  {
    if pages <= pagesPerRun {
      QuotientIs(pages + pagesPerRun - 1, pagesPerRun, 1, pages - 1);
    } else {
      RunsForFewer(pages, pagesPerRun);
    }
  }

  lemma {:induction false} SweptShift(ends: seq<RunEnd>, n: nat)
    requires 1 <= n <= |ends|
    ensures Swept(ends, 0, n) == (if ends[0].failure.Some? then [] else ends[0].visited) + Swept(ends[1..], 0, n - 1)
  {
    if n > 1 {
      SweptShift(ends, n - 1);
    } else {
      assert Swept(ends, 0, 0) == [];
    }
  }
}
