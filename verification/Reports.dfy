/** Dashboard reports: sums over the rollup rows of a window, and why they agree with the raw
    events however the rollups were rebuilt. */
module Reports {
  import opened Relational
  import opened Ranking
  import opened RawEvents
  import opened SiteRollup
  import opened PageRollup
  import opened SearchRollup
  import opened RollupStore

  // ---- Selecting rollup rows --------------------------------------------------------

  /** The rows of one period. */
  function At(rows: seq<Stored>, grain: Grain, date: int): seq<Stored> { InRange(rows, grain, date, date) }

  /** grain = ? AND period_start BETWEEN ? AND ?. */
  function InRange(rows: seq<Stored>, grain: Grain, first: int, last: int): seq<Stored>
  {
    if rows == [] then []
    else if rows[0].grain == grain && first <= rows[0].date <= last
    then [rows[0]] + InRange(rows[1..], grain, first, last)
    else InRange(rows[1..], grain, first, last)
  }

  lemma {:induction false} InRangeAppend(a: seq<Stored>, b: seq<Stored>, grain: Grain, first: int, last: int)
    ensures InRange(a + b, grain, first, last) == InRange(a, grain, first, last) + InRange(b, grain, first, last)
  {
    if a == [] {
      assert a + b == b;
    } else {
      var all := a + b;
      var head := if a[0].grain == grain && first <= a[0].date <= last then [a[0]] else [];
      assert all[0] == a[0] && all[1..] == a[1..] + b;
      InRangeAppend(a[1..], b, grain, first, last);
      assert InRange(all, grain, first, last) == head + InRange(all[1..], grain, first, last);
    }
  }

  lemma {:induction false} RangeTotal(rows: seq<Stored>, grain: Grain, first: int, last: int, weight: Stored -> int)
    requires first <= last
    ensures Total(InRange(rows, grain, first, last), weight) ==
            Total(InRange(rows, grain, first, last - 1), weight) + Total(At(rows, grain, last), weight)
  {
    if rows != [] {
      RangeTotal(rows[1..], grain, first, last, weight);
    }
  }

  // ---- Jobs -------------------------------------------------------------------------

  /** A rebuild job; a recompute sees the first-seen table as it is at that moment. */
  datatype Job = Recompute(period: Period, firstSeen: map<int, int>) | DeleteFrom(date: int)

  function Apply(tables: Tables, raw: Raw, caps: Caps, job: Job): Tables
  {
    match job
    case Recompute(p, firstSeen) => Recomputed(tables, raw, firstSeen, p, caps)
    case DeleteFrom(date) => Cut(tables, date)
  }

  function RunJobs(tables: Tables, raw: Raw, caps: Caps, jobs: seq<Job>): Tables
  {
    if jobs == [] then tables
    else Apply(RunJobs(tables, raw, caps, jobs[..|jobs| - 1]), raw, caps, jobs[|jobs| - 1])
  }

  /** The job rewrites or removes the rows of (grain, date). */
  predicate Touches(job: Job, grain: Grain, date: int)
  {
    match job
    case Recompute(p, _) => p.grain == grain && p.date == date
    case DeleteFrom(d) => d <= date
  }

  lemma {:induction false} ClearedRows(rows: seq<Stored>, p: Period, grain: Grain, date: int)
    ensures At(Cleared(rows, p), grain, date) ==
            if p.grain == grain && p.date == date then [] else At(rows, grain, date)
  {
    if rows != [] {
      ClearedRows(rows[1..], p, grain, date);
    }
  }

  lemma {:induction false} CutRows(rows: seq<Stored>, d: int, grain: Grain, date: int)
    ensures At(CutFrom(rows, d), grain, date) == if d <= date then [] else At(rows, grain, date)
  {
    if rows != [] {
      CutRows(rows[1..], d, grain, date);
    }
  }

  lemma {:induction false} StampedRows(rows: seq<Stored>, p: Period, grain: Grain, date: int)
    requires forall i :: 0 <= i < |rows| ==> rows[i].grain == p.grain && rows[i].date == p.date
    ensures At(rows, grain, date) == if p.grain == grain && p.date == date then rows else []
  {
    if rows != [] {
      StampedRows(rows[1..], p, grain, date);
    }
  }

  /** A recompute replaces exactly its period's rows, a delete removes exactly the later ones. */
  lemma JobEffect(tables: Tables, raw: Raw, caps: Caps, job: Job, i: nat, grain: Grain, date: int)
    requires i < TableCount
    ensures At(Apply(tables, raw, caps, job)[i], grain, date) ==
            if !Touches(job, grain, date) then At(tables[i], grain, date)
            else if job.Recompute? then Fill(i, raw, job.firstSeen, job.period, caps)
            else []
  {
    match job
    case Recompute(p, firstSeen) =>
      ReplacedRows(tables[i], Fill(i, raw, firstSeen, p, caps), p, grain, date);
    case DeleteFrom(d) =>
      CutRows(tables[i], d, grain, date);
  }

  lemma ReplacedRows(rows: seq<Stored>, fill: seq<Stored>, p: Period, grain: Grain, date: int)
    requires forall i :: 0 <= i < |fill| ==> fill[i].grain == p.grain && fill[i].date == p.date
    ensures At(Cleared(rows, p) + fill, grain, date) ==
            if p.grain == grain && p.date == date then fill else At(rows, grain, date)
  {
    InRangeAppend(Cleared(rows, p), fill, grain, date, date);
    ClearedRows(rows, p, grain, date);
    StampedRows(fill, p, grain, date);
  }

  /** Periods no job touches keep their rows, in every table. */
  lemma {:induction false} UntouchedPeriods(
    tables: Tables, raw: Raw, caps: Caps, jobs: seq<Job>, grain: Grain, date: int, i: nat)
    requires i < TableCount && forall j :: 0 <= j < |jobs| ==> !Touches(jobs[j], grain, date)
    ensures At(RunJobs(tables, raw, caps, jobs)[i], grain, date) == At(tables[i], grain, date)
  {
    if jobs != [] {
      var before := jobs[..|jobs| - 1];
      UntouchedPeriods(tables, raw, caps, before, grain, date, i);
      JobEffect(RunJobs(tables, raw, caps, before), raw, caps, jobs[|jobs| - 1], i, grain, date);
    }
  }

  /** The tables hold exactly what the queries answer for p. */
  ghost predicate Current(tables: Tables, raw: Raw, caps: Caps, p: Period)
  {
    exists firstSeen :: CurrentWith(tables, raw, caps, p, firstSeen)
  }

  ghost predicate CurrentWith(tables: Tables, raw: Raw, caps: Caps, p: Period, firstSeen: map<int, int>)
  {
    forall i :: 0 <= i < TableCount ==> At(tables[i], p.grain, p.date) == Fill(i, raw, firstSeen, p, caps)
  }

  /** p is recomputed at some point and not deleted after, and no job takes its (grain, date) for
      other bounds: one time zone throughout. */
  ghost predicate Covers(jobs: seq<Job>, p: Period)
  {
    && (exists i :: 0 <= i < |jobs| && jobs[i].Recompute? && jobs[i].period == p && NotDeletedAfter(jobs, p, i))
    && (forall i :: 0 <= i < |jobs| && jobs[i].Recompute? && Touches(jobs[i], p.grain, p.date) ==> jobs[i].period == p)
  }

  ghost predicate NotDeletedAfter(jobs: seq<Job>, p: Period, i: nat)
  {
    forall j :: i < j < |jobs| && jobs[j].DeleteFrom? ==> p.date < jobs[j].date
  }

  /** Whatever the order and however often, the covered periods end up current. */
  lemma {:induction false} JobsMakeCurrent(tables: Tables, raw: Raw, caps: Caps, jobs: seq<Job>, p: Period)
    requires Covers(jobs, p)
    ensures Current(RunJobs(tables, raw, caps, jobs), raw, caps, p)
  {
    var before, last := jobs[..|jobs| - 1], jobs[|jobs| - 1];
    var mid, after := RunJobs(tables, raw, caps, before), RunJobs(tables, raw, caps, jobs);
    forall i | 0 <= i < TableCount
      ensures At(after[i], p.grain, p.date) ==
              if !Touches(last, p.grain, p.date) then At(mid[i], p.grain, p.date)
              else if last.Recompute? then Fill(i, raw, last.firstSeen, last.period, caps)
              else []
    {
      JobEffect(mid, raw, caps, last, i, p.grain, p.date);
    }
    if last.Recompute? && Touches(last, p.grain, p.date) {
      assert CurrentWith(after, raw, caps, p, last.firstSeen);
    } else {
      var i :| 0 <= i < |jobs| && jobs[i].Recompute? && jobs[i].period == p && NotDeletedAfter(jobs, p, i);
      assert i < |before| && before[i] == jobs[i];
      assert NotDeletedAfter(before, p, i);
      assert Covers(before, p);
      JobsMakeCurrent(tables, raw, caps, before, p);
      var firstSeen :| CurrentWith(mid, raw, caps, p, firstSeen);
      assert CurrentWith(after, raw, caps, p, firstSeen);
    }
  }

  // ---- Windows ----------------------------------------------------------------------

  /** A run of consecutive days. */
  ghost predicate DayWindow(window: seq<Period>)
  {
    && window != []
    && (forall i :: 0 <= i < |window| ==> window[i].grain == Day && window[i].span.from <= window[i].span.to)
    && (forall i :: 0 < i < |window| ==>
          window[i].date == window[i - 1].date + 1 && window[i].span.from == window[i - 1].span.to)
  }

  function Whole(window: seq<Period>): Span
    requires window != []
  {
    Span(window[0].span.from, window[|window| - 1].span.to)
  }

  ghost predicate Additive(direct: Span -> int)
  {
    forall a, b, c :: a <= b <= c ==> direct(Span(a, c)) == direct(Span(a, b)) + direct(Span(b, c))
  }

  ghost predicate Subadditive(direct: Span -> int)
  {
    forall a, b, c :: a <= b <= c ==> direct(Span(a, c)) <= direct(Span(a, b)) + direct(Span(b, c))
  }

  /** The rows of table i that a report of the window reads. */
  function WindowRows(tables: Tables, i: nat, window: seq<Period>): seq<Stored>
    requires i < TableCount && window != []
  {
    InRange(tables[i], Day, window[0].date, window[|window| - 1].date)
  }

  /** If every period's rows add up to a count over its span, the window's rows add up to the
      count over the whole window (at least that, for a count of distinct values). */
  lemma {:induction false} WindowSum(tables: Tables, i: nat, window: seq<Period>, weight: Stored -> int,
                                     direct: Span -> int)
    requires i < TableCount && DayWindow(window) && Subadditive(direct)
    requires forall j :: 0 <= j < |window| ==>
              Total(At(tables[i], Day, window[j].date), weight) == direct(window[j].span)
    ensures direct(Whole(window)) <= Total(WindowRows(tables, i, window), weight)
    ensures Additive(direct) ==> direct(Whole(window)) == Total(WindowRows(tables, i, window), weight)
    decreases |window|
  {
    var last := window[|window| - 1];
    if |window| == 1 {
      assert window[0] == last;
      assert Total(At(tables[i], Day, window[0].date), weight) == direct(window[0].span);
    } else {
      var before := window[..|window| - 1];
      assert forall j :: 0 <= j < |before| ==> before[j] == window[j];
      WindowOrdered(window, |window| - 1);
      WindowSum(tables, i, before, weight, direct);
      RangeTotal(tables[i], Day, window[0].date, last.date, weight);
      assert Total(At(tables[i], Day, window[|window| - 1].date), weight) == direct(window[|window| - 1].span);
      var a, b, c := window[0].span.from, last.span.from, last.span.to;
      assert a <= b <= c && Whole(before) == Span(a, b) && last.span == Span(b, c);
    }
  }

  lemma {:induction false} WindowOrdered(window: seq<Period>, i: nat)
    requires DayWindow(window) && i < |window|
    ensures window[0].date <= window[i].date && window[0].span.from <= window[i].span.from
  {
    if i > 0 {
      WindowOrdered(window, i - 1);
    }
  }

  // ---- Counts over adjacent spans ---------------------------------------------------

  lemma {:induction false} BetweenSplit<T>(rows: seq<T>, at: T -> int, a: int, b: int, c: int, weight: T -> int)
    requires a <= b <= c
    ensures Total(Between(rows, at, a, c), weight) ==
              Total(Between(rows, at, a, b), weight) + Total(Between(rows, at, b, c), weight)
    ensures |Between(rows, at, a, c)| == |Between(rows, at, a, b)| + |Between(rows, at, b, c)|
  {
    if rows != [] {
      BetweenSplit(rows[1..], at, a, b, c, weight);
    }
  }

  lemma BetweenValues<T(!new), K>(rows: seq<T>, at: T -> int, a: int, b: int, c: int, key: T -> K)
    requires a <= b <= c
    ensures Values(Between(rows, at, a, c), key) ==
              Values(Between(rows, at, a, b), key) + Values(Between(rows, at, b, c), key)
  {
    forall r
      ensures r in Between(rows, at, a, c) <==> r in Between(rows, at, a, b) || r in Between(rows, at, b, c)
    {
      BetweenMember(rows, at, a, c, r);
      BetweenMember(rows, at, a, b, r);
      BetweenMember(rows, at, b, c, r);
    }
  }

  lemma {:induction false} AmongUnion<T, K>(rows: seq<T>, key: T -> K, xs: set<K>, ys: set<K>)
    requires xs !! ys
    ensures |Among(rows, key, xs + ys)| == |Among(rows, key, xs)| + |Among(rows, key, ys)|
  {
    if rows != [] {
      AmongUnion(rows[1..], key, xs, ys);
    }
  }

  lemma AmongValues<T(!new), K>(rows: seq<T>, key: T -> K, xs: set<K>)
    ensures Values(Among(rows, key, xs), key) == Values(rows, key) * xs
  {
    forall r ensures r in Among(rows, key, xs) <==> r in rows && key(r) in xs {
      AmongMember(rows, key, xs, r);
    }
  }

  /** Searches of disjoint spans are different searches. */
  lemma UuidsDisjoint(raw: Raw, a: int, b: int, c: int)
    requires ValidRaw(raw) && a <= b <= c
    ensures Values(SearchesIn(raw, Span(a, b)), SearchUuid) !! Values(SearchesIn(raw, Span(b, c)), SearchUuid)
  {
    forall x, y | x in SearchesIn(raw, Span(a, b)) && y in SearchesIn(raw, Span(b, c))
      ensures x.uuid != y.uuid
    {
      BetweenMember(raw.searches, SearchAt, a, b, x);
      BetweenMember(raw.searches, SearchAt, b, c, y);
      var i :| 0 <= i < |raw.searches| && raw.searches[i] == x;
      var j :| 0 <= j < |raw.searches| && raw.searches[j] == y;
      assert SearchUuid(raw.searches[i]) != SearchUuid(raw.searches[j]) by { assert i < j || j < i; }
    }
  }

  function RawViews(raw: Raw): Span -> int { (w: Span) => |ViewsIn(raw, w)| }
  function RawVisitors(raw: Raw): Span -> int { (w: Span) => |Values(ViewsIn(raw, w), VisitorOf)| }
  function RawSessions(raw: Raw): Span -> int { (w: Span) => |Values(ViewsIn(raw, w), SessionOf)| }
  function RawSearches(raw: Raw): Span -> int { (w: Span) => |SearchesIn(raw, w)| }
  function RawZero(raw: Raw): Span -> int { (w: Span) => Total(SearchesIn(raw, w), IsZeroResult) }
  function RawWithClick(raw: Raw): Span -> int { (w: Span) => |Values(ClicksOf(raw, w), ClickSearch)| }
  function RawClicks(raw: Raw): Span -> int { (w: Span) => |ClicksOf(raw, w)| }

  lemma ViewsAdd(raw: Raw)
    ensures Additive(RawViews(raw)) && Subadditive(RawVisitors(raw)) && Subadditive(RawSessions(raw))
  {
    forall a, b, c | a <= b <= c
      ensures RawViews(raw)(Span(a, c)) == RawViews(raw)(Span(a, b)) + RawViews(raw)(Span(b, c))
      ensures RawVisitors(raw)(Span(a, c)) <= RawVisitors(raw)(Span(a, b)) + RawVisitors(raw)(Span(b, c))
      ensures RawSessions(raw)(Span(a, c)) <= RawSessions(raw)(Span(a, b)) + RawSessions(raw)(Span(b, c))
    {
      BetweenSplit(raw.views, ViewAt, a, b, c, One<PageView>);
      BetweenValues(raw.views, ViewAt, a, b, c, VisitorOf);
      BetweenValues(raw.views, ViewAt, a, b, c, SessionOf);
    }
  }

  lemma SearchesAdd(raw: Raw)
    requires ValidRaw(raw)
    ensures Additive(RawSearches(raw)) && Additive(RawZero(raw))
    ensures Additive(RawWithClick(raw)) && Additive(RawClicks(raw))
  {
    forall a, b, c | a <= b <= c
      ensures RawSearches(raw)(Span(a, c)) == RawSearches(raw)(Span(a, b)) + RawSearches(raw)(Span(b, c))
      ensures RawZero(raw)(Span(a, c)) == RawZero(raw)(Span(a, b)) + RawZero(raw)(Span(b, c))
      ensures RawWithClick(raw)(Span(a, c)) == RawWithClick(raw)(Span(a, b)) + RawWithClick(raw)(Span(b, c))
      ensures RawClicks(raw)(Span(a, c)) == RawClicks(raw)(Span(a, b)) + RawClicks(raw)(Span(b, c))
    {
      BetweenSplit(raw.searches, SearchAt, a, b, c, IsZeroResult);
      ClicksAdd(raw, a, b, c);
    }
  }

  lemma ClicksAdd(raw: Raw, a: int, b: int, c: int)
    requires ValidRaw(raw) && a <= b <= c
    ensures |ClicksOf(raw, Span(a, c))| == |ClicksOf(raw, Span(a, b))| + |ClicksOf(raw, Span(b, c))|
    ensures |Values(ClicksOf(raw, Span(a, c)), ClickSearch)| ==
            |Values(ClicksOf(raw, Span(a, b)), ClickSearch)| + |Values(ClicksOf(raw, Span(b, c)), ClickSearch)|
  {
    var xs, ys := Values(SearchesIn(raw, Span(a, b)), SearchUuid), Values(SearchesIn(raw, Span(b, c)), SearchUuid);
    BetweenValues(raw.searches, SearchAt, a, b, c, SearchUuid);
    UuidsDisjoint(raw, a, b, c);
    AmongUnion(raw.clicks, ClickSearch, xs, ys);
    AmongValues(raw.clicks, ClickSearch, xs);
    AmongValues(raw.clicks, ClickSearch, ys);
    AmongValues(raw.clicks, ClickSearch, xs + ys);
    var all := Values(raw.clicks, ClickSearch);
    assert all * (xs + ys) == all * xs + all * ys && (all * xs) !! (all * ys);
  }

  // ---- Site and search reports ------------------------------------------------------

  function OnSite(measure: SiteRow -> int): Stored -> int
  {
    (s: Stored) => if s.row.OfSite? then measure(s.row.site) else 0
  }

  function OnSearch(measure: SearchRow -> int): Stored -> int
  {
    (s: Stored) => if s.row.OfSearch? then measure(s.row.search) else 0
  }

  /** A site column summed over the window. */
  function SiteTotal(tables: Tables, window: seq<Period>, measure: SiteRow -> int): int
    requires window != []
  {
    Total(WindowRows(tables, Index(Site), window), OnSite(measure))
  }

  lemma SitePeriod(tables: Tables, raw: Raw, caps: Caps, p: Period, measure: SiteRow -> int, direct: Span -> int)
    requires Current(tables, raw, caps, p)
    requires forall firstSeen, w :: measure(SiteQuery(raw, firstSeen, w)) == direct(w)
    ensures Total(At(tables[Index(Site)], p.grain, p.date), OnSite(measure)) == direct(p.span)
  {
  }

  lemma SearchPeriod(tables: Tables, raw: Raw, caps: Caps, p: Period, measure: SearchRow -> int)
    requires Current(tables, raw, caps, p)
    ensures Total(At(tables[Index(Searches)], p.grain, p.date), OnSearch(measure)) ==
            Total(SearchesQuery(raw, p.span, caps.n, caps.k), measure)
  {
    var firstSeen :| CurrentWith(tables, raw, caps, p, firstSeen);
    var rows := At(tables[Index(Searches)], p.grain, p.date);
    assert rows == Fill(Index(Searches), raw, firstSeen, p, caps);
    TotalEqual(rows, SearchesQuery(raw, p.span, caps.n, caps.k), OnSearch(measure), measure);
  }

  function SiteViews(r: SiteRow): int { r.views }
  function SiteVisitors(r: SiteRow): int { r.visitors }
  function SiteSessions(r: SiteRow): int { r.sessions }
  function SiteSearches(r: SiteRow): int { r.searches }
  function SiteZero(r: SiteRow): int { r.zeroResults }
  function SiteWithClick(r: SiteRow): int { r.searchesWithClick }
  function SiteClicks(r: SiteRow): int { r.searchClicks }

  lemma SiteWindow(tables: Tables, raw: Raw, caps: Caps, window: seq<Period>, measure: SiteRow -> int,
                   direct: Span -> int)
    requires DayWindow(window) && Subadditive(direct)
    requires forall i :: 0 <= i < |window| ==> Current(tables, raw, caps, window[i])
    requires forall firstSeen, w :: measure(SiteQuery(raw, firstSeen, w)) == direct(w)
    ensures direct(Whole(window)) <= SiteTotal(tables, window, measure)
    ensures Additive(direct) ==> direct(Whole(window)) == SiteTotal(tables, window, measure)
  {
    forall i | 0 <= i < |window|
      ensures Total(At(tables[Index(Site)], Day, window[i].date), OnSite(measure)) == direct(window[i].span)
    {
      SitePeriod(tables, raw, caps, window[i], measure, direct);
    }
    WindowSum(tables, Index(Site), window, OnSite(measure), direct);
  }

  /** However a contiguous window of days was rebuilt, its site totals equal direct counts on the
      raw events for everything that adds up, and bound them from above for distinct visitors and
      sessions. */
  lemma SiteReportAgrees(tables: Tables, raw: Raw, caps: Caps, jobs: seq<Job>, window: seq<Period>)
    requires ValidRaw(raw) && DayWindow(window)
    requires forall i :: 0 <= i < |window| ==> Covers(jobs, window[i])
    ensures var t, w := RunJobs(tables, raw, caps, jobs), Whole(window);
            && SiteTotal(t, window, SiteViews) == |ViewsIn(raw, w)|
            && SiteTotal(t, window, SiteSearches) == |SearchesIn(raw, w)|
            && SiteTotal(t, window, SiteZero) == Total(SearchesIn(raw, w), IsZeroResult)
            && SiteTotal(t, window, SiteWithClick) == |Values(ClicksOf(raw, w), ClickSearch)|
            && SiteTotal(t, window, SiteClicks) == |ClicksOf(raw, w)|
            && SiteTotal(t, window, SiteVisitors) >= |Values(ViewsIn(raw, w), VisitorOf)|
            && SiteTotal(t, window, SiteSessions) >= |Values(ViewsIn(raw, w), SessionOf)|
  {
    var t := RunJobs(tables, raw, caps, jobs);
    forall i | 0 <= i < |window|
      ensures Current(t, raw, caps, window[i])
    {
      JobsMakeCurrent(tables, raw, caps, jobs, window[i]);
    }
    ViewsAdd(raw);
    SearchesAdd(raw);
    forall w ensures |PerSession(ViewsIn(raw, w))| == |Values(ViewsIn(raw, w), SessionOf)| {
      SessionsAreDistinct(ViewsIn(raw, w));
    }
    SiteWindow(t, raw, caps, window, SiteViews, RawViews(raw));
    SiteWindow(t, raw, caps, window, SiteSearches, RawSearches(raw));
    SiteWindow(t, raw, caps, window, SiteZero, RawZero(raw));
    SiteWindow(t, raw, caps, window, SiteWithClick, RawWithClick(raw));
    SiteWindow(t, raw, caps, window, SiteClicks, RawClicks(raw));
    SiteWindow(t, raw, caps, window, SiteVisitors, RawVisitors(raw));
    SiteWindow(t, raw, caps, window, SiteSessions, RawSessions(raw));
  }

  // ---- Search queries ---------------------------------------------------------------

  function SearchOf(s: Stored): SearchRow { if s.row.OfSearch? then s.row.search else SearchRow("", 0, 0, 0, 0, 0) }

  /** The searches rollup rows of the window. */
  function WindowSearches(tables: Tables, window: seq<Period>): seq<SearchRow>
    requires window != []
  {
    Project(WindowRows(tables, Index(Searches), window), SearchOf)
  }

  function RowVisitors(r: SearchRow): int { r.visitors }

  function AddRows(query: string, rows: seq<SearchRow>): SearchRow
  {
    SearchRow(query, Total(rows, RowSearches), Total(rows, RowVisitors), Total(rows, RowZero),
              Total(rows, RowWithClick), Total(rows, RowClicks))
  }

  /** q: one row per query, summed over the periods. */
  function ByQuery(rows: seq<SearchRow>): seq<SearchRow> { GroupBy(rows, RowQuery, AddRows) }

  function WithZero(rows: seq<SearchRow>): seq<SearchRow>
  {
    if rows == [] then []
    else if rows[0].zeroResults > 0 && rows[0].query != Other then [rows[0]] + WithZero(rows[1..])
    else WithZero(rows[1..])
  }

  predicate BySearches(a: SearchRow, b: SearchRow)
  {
    a.searches > b.searches || (a.searches == b.searches && TextBefore(a.query, b.query))
  }

  predicate ByZeroResults(a: SearchRow, b: SearchRow)
  {
    a.zeroResults > b.zeroResults || (a.zeroResults == b.zeroResults && TextBefore(a.query, b.query))
  }

  datatype List = TopList | TotalList | ZeroList
  datatype Listed = Listed(list: List, row: SearchRow)

  function Tag(list: List): SearchRow -> Listed { (r: SearchRow) => Listed(list, r) }

  /** The scan's rows, ordered by list, then rank. */
  function Scan(rows: seq<SearchRow>, limit: nat): seq<Listed>
  {
    var q := ByQuery(rows);
    Project(First(q, BySearches, limit), Tag(TopList)) + [Listed(TotalList, AddRows("", q))] +
    Project(First(WithZero(q), ByZeroResults, limit), Tag(ZeroList))
  }

  /** The totals are the sums of all rollup rows, the folded bucket included; the lists are the
      scan's lists. */
  method SearchQueries(rows: seq<SearchRow>, limit: nat)
    returns (totals: SearchRow, top: seq<SearchRow>, zero: seq<SearchRow>)
    ensures totals == AddRows("", rows)
    ensures top == First(ByQuery(rows), BySearches, limit)
    ensures zero == First(WithZero(ByQuery(rows)), ByZeroResults, limit)
  {
    var scan := Scan(rows, limit);
    ghost var tops := First(ByQuery(rows), BySearches, limit);
    ghost var zeros := First(WithZero(ByQuery(rows)), ByZeroResults, limit);
    assert |scan| == |tops| + 1 + |zeros|;
    totals, top, zero := SearchRow("", 0, 0, 0, 0, 0), [], [];
    for i := 0 to |scan|
      invariant i <= |tops| ==> top == tops[..i] && zero == []
      invariant i > |tops| ==> top == tops && totals == AddRows("", ByQuery(rows)) && zero == zeros[..i - |tops| - 1]
    {
      match scan[i].list
      case TotalList => totals := scan[i].row;
      case TopList => top := top + [scan[i].row];
      case ZeroList => zero := zero + [scan[i].row];
    }
    GroupTotals(rows, RowQuery, AddRows, RowSearches, RowSearches);
    GroupTotals(rows, RowQuery, AddRows, RowVisitors, RowVisitors);
    GroupTotals(rows, RowQuery, AddRows, RowZero, RowZero);
    GroupTotals(rows, RowQuery, AddRows, RowWithClick, RowWithClick);
    GroupTotals(rows, RowQuery, AddRows, RowClicks, RowClicks);
  }

  lemma SearchWindow(tables: Tables, raw: Raw, caps: Caps, window: seq<Period>, measure: SearchRow -> int,
                     direct: Span -> int)
    requires DayWindow(window) && Additive(direct)
    requires measure(SearchRow("", 0, 0, 0, 0, 0)) == 0
    requires forall i :: 0 <= i < |window| ==> Current(tables, raw, caps, window[i])
    requires forall w :: Total(SearchesQuery(raw, w, caps.n, caps.k), measure) == direct(w)
    ensures Total(WindowSearches(tables, window), measure) == direct(Whole(window))
  {
    forall i | 0 <= i < |window|
      ensures Total(At(tables[Index(Searches)], Day, window[i].date), OnSearch(measure)) == direct(window[i].span)
    {
      SearchPeriod(tables, raw, caps, window[i], measure);
    }
    WindowSum(tables, Index(Searches), window, OnSearch(measure), direct);
    TotalEqual(WindowSearches(tables, window), WindowRows(tables, Index(Searches), window), measure, OnSearch(measure));
  }

  /** The search report's totals over a rebuilt window equal direct counts on the raw events, and
      so agree with the site totals. */
  lemma SearchReportAgrees(tables: Tables, raw: Raw, caps: Caps, jobs: seq<Job>, window: seq<Period>)
    requires ValidRaw(raw) && DayWindow(window)
    requires forall i :: 0 <= i < |window| ==> Covers(jobs, window[i])
    ensures var w := Whole(window);
            var totals := AddRows("", WindowSearches(RunJobs(tables, raw, caps, jobs), window));
            && totals.searches == |SearchesIn(raw, w)|
            && totals.zeroResults == Total(SearchesIn(raw, w), IsZeroResult)
            && totals.searchesWithClick == |Values(ClicksOf(raw, w), ClickSearch)|
            && totals.clicks == |ClicksOf(raw, w)|
  {
    var t := RunJobs(tables, raw, caps, jobs);
    forall i | 0 <= i < |window|
      ensures Current(t, raw, caps, window[i])
    {
      JobsMakeCurrent(tables, raw, caps, jobs, window[i]);
    }
    forall w
      ensures var rows := SearchesQuery(raw, w, caps.n, caps.k);
              && Total(rows, RowSearches) == RawSearches(raw)(w)
              && Total(rows, RowZero) == RawZero(raw)(w)
              && Total(rows, RowWithClick) == RawWithClick(raw)(w)
              && Total(rows, RowClicks) == RawClicks(raw)(w)
    {
      SearchesConserveSite(raw, map[], w, caps.n, caps.k);
    }
    SearchesAdd(raw);
    SearchWindow(t, raw, caps, window, RowSearches, RawSearches(raw));
    SearchWindow(t, raw, caps, window, RowZero, RawZero(raw));
    SearchWindow(t, raw, caps, window, RowWithClick, RawWithClick(raw));
    SearchWindow(t, raw, caps, window, RowClicks, RawClicks(raw));
  }

  lemma {:induction false} WithZeroRows(rows: seq<SearchRow>, r: SearchRow)
    ensures r in WithZero(rows) <==> r in rows && r.zeroResults > 0 && r.query != Other
  {
    if rows != [] {
      WithZeroRows(rows[1..], r);
    }
  }

  lemma {:induction false} WithZeroUnique(rows: seq<SearchRow>)
    requires Unique(rows, RowQuery)
    ensures Unique(WithZero(rows), RowQuery)
  {
    if rows != [] {
      UniqueCons(rows, RowQuery);
      WithZeroUnique(rows[1..]);
      if rows[0].zeroResults > 0 && rows[0].query != Other {
        forall r | r in WithZero(rows[1..])
          ensures RowQuery(r) in Values(rows[1..], RowQuery)
        {
          WithZeroRows(rows[1..], r);
        }
        UniqueCons(WithZero(rows), RowQuery);
      }
    }
  }

  lemma OrderedByQuery(rows: seq<SearchRow>)
    requires Unique(rows, RowQuery)
    ensures StrictOrder(Elements(rows), BySearches) && StrictOrder(Elements(rows), ByZeroResults) && Distinct(rows)
  {
    KeysDiffer(rows, RowQuery);
    assert forall r: SearchRow :: RowQuery(r) == r.query;
    forall i, j | 0 <= i < j < |rows|
      ensures rows[i] != rows[j]
    {
      assert RowQuery(rows[i]) != RowQuery(rows[j]);
    }
    TextTransitiveAll();
  }

  /** The i-th listed query is the one numbered i + 1; the zero-result list never names the
      folded bucket. */
  lemma ListedQueries(rows: seq<SearchRow>, limit: nat, i: nat)
    ensures var top := First(ByQuery(rows), BySearches, limit);
            i < |top| ==> top[i] in ByQuery(rows) && RowNumber(Elements(ByQuery(rows)), BySearches, top[i]) == i + 1
    ensures var zero := First(WithZero(ByQuery(rows)), ByZeroResults, limit);
            i < |zero| ==>
              && zero[i] in ByQuery(rows) && zero[i].zeroResults > 0 && zero[i].query != Other
              && RowNumber(Elements(WithZero(ByQuery(rows))), ByZeroResults, zero[i]) == i + 1
  {
    var q := ByQuery(rows);
    var withZero := WithZero(q);
    GroupByUnique(rows, RowQuery, AddRows, RowQuery);
    WithZeroUnique(q);
    OrderedByQuery(q);
    OrderedByQuery(withZero);
    FirstAreNumbered(q, BySearches, limit, i);
    FirstAreNumbered(withZero, ByZeroResults, limit, i);
    if i < |First(withZero, ByZeroResults, limit)| {
      WithZeroRows(q, First(withZero, ByZeroResults, limit)[i]);
    }
  }
}
