/** analytics_rollup_pages: views, entries, exits and focus time per path, the paths past the
    top n folded into one bucket. */
module PageRollup {
  import opened Common
  import opened Relational
  import opened Ranking
  import opened RawEvents
  import opened SiteRollup

  /** The folded remainder of a capped dimension. */
  const Other: string := "(other)"

  datatype RankedView = RankedView(view: PageView, firstRank: nat, lastRank: nat)
  datatype PathCount = PathCount(path: string, views: int)
  datatype Bucket = Bucket(path: string, bucket: string)
  datatype ViewsRow = ViewsRow(bucket: string, views: int, visitors: int, entries: int, exits: int)
  datatype FocusRow = FocusRow(bucket: string, seconds: int, views: int)
  datatype PageRow = PageRow(
    path: string, views: int, visitors: int, entries: int, exits: int, focusSeconds: int, focusViews: int)

  type JoinedView = (RankedView, Bucket)
  type JoinedSpent = (TimeSpent, Option<Bucket>)
  type JoinedRow = (Option<ViewsRow>, Option<FocusRow>)

  // ---- The query --------------------------------------------------------------------

  /** ORDER BY occurred_at, id. */
  predicate Earlier(a: PageView, b: PageView) { a.at < b.at || (a.at == b.at && a.id < b.id) }
  /** ORDER BY occurred_at DESC, id DESC. */
  predicate Later(a: PageView, b: PageView) { Earlier(b, a) }
  /** ORDER BY count(*) DESC, path. */
  predicate MoreViewed(a: PathCount, b: PathCount)
  {
    a.views > b.views || (a.views == b.views && TextBefore(a.path, b.path))
  }

  function SessionRows(pv: seq<PageView>, session: int): set<PageView> { set v | v in pv && v.session == session }

  function RankIn(pv: seq<PageView>): PageView -> RankedView
  {
    (v: PageView) => RankedView(
      v, RowNumber(SessionRows(pv, v.session), Earlier, v), RowNumber(SessionRows(pv, v.session), Later, v))
  }

  function RankedViews(pv: seq<PageView>): seq<RankedView> { Project(pv, RankIn(pv)) }

  function CountPath(path: string, rows: seq<PageView>): PathCount { PathCount(path, |rows|) }
  function CountedPath(c: PathCount): string { c.path }
  function PathCounts(pv: seq<PageView>): seq<PathCount> { GroupBy(pv, PathOf, CountPath) }

  function CountSet(pv: seq<PageView>): set<PathCount> { set c | c in PathCounts(pv) }

  function BucketIn(counts: set<PathCount>, n: int): PathCount -> Bucket
  {
    (c: PathCount) => Bucket(c.path, if RowNumber(counts, MoreViewed, c) <= n then c.path else Other)
  }

  function Buckets(pv: seq<PageView>, n: int): seq<Bucket>
  {
    Project(PathCounts(pv), BucketIn(CountSet(pv), n))
  }

  function RankedPath(r: RankedView): string { r.view.path }
  function BucketPath(b: Bucket): string { b.path }
  function ViewBucket(j: JoinedView): string { j.1.bucket }
  function ViewVisitor(j: JoinedView): string { j.0.view.visitor }
  function IsEntry(j: JoinedView): int { if j.0.firstRank == 1 then 1 else 0 }
  function IsExit(j: JoinedView): int { if j.0.lastRank == 1 then 1 else 0 }
  function SumViews(bucket: string, rows: seq<JoinedView>): ViewsRow
  {
    ViewsRow(bucket, |rows|, |Values(rows, ViewVisitor)|, Total(rows, IsEntry), Total(rows, IsExit))
  }

  function ViewsRows(pv: seq<PageView>, n: int): seq<ViewsRow>
  {
    GroupBy(Join(RankedViews(pv), Buckets(pv, n), RankedPath, BucketPath), ViewBucket, SumViews)
  }

  function FocusBucket(j: JoinedSpent): string { if j.1.Some? then j.1.value.bucket else Other }
  function JoinedFocus(j: JoinedSpent): int { j.0.focusSeconds }
  function SumFocus(bucket: string, rows: seq<JoinedSpent>): FocusRow
  {
    FocusRow(bucket, Total(rows, JoinedFocus), |rows|)
  }

  function FocusRows(pv: seq<PageView>, ts: seq<TimeSpent>, n: int): seq<FocusRow>
  {
    GroupBy(LeftJoin(ts, Buckets(pv, n), SpentPath, BucketPath), FocusBucket, SumFocus)
  }

  function ViewsRowBucket(r: ViewsRow): string { r.bucket }
  function FocusRowBucket(r: FocusRow): string { r.bucket }

  function ToPageRow(j: JoinedRow): PageRow
  {
    var v := if j.0.Some? then j.0.value else ViewsRow("", 0, 0, 0, 0);
    var f := if j.1.Some? then j.1.value else FocusRow("", 0, 0);
    PageRow(if j.0.Some? then v.bucket else f.bucket, v.views, v.visitors, v.entries, v.exits, f.seconds, f.views)
  }

  function PagesQuery(raw: Raw, w: Span, n: int): seq<PageRow>
  {
    var pv := ViewsIn(raw, w);
    Project(FullJoin(ViewsRows(pv, n), FocusRows(pv, SpentIn(raw, w), n), ViewsRowBucket, FocusRowBucket), ToPageRow)
  }

  // ---- Row accessors used as measures -----------------------------------------------

  function PagePath(r: PageRow): string { r.path }
  function PageViews(r: PageRow): int { r.views }
  function PageEntries(r: PageRow): int { r.entries }
  function PageExits(r: PageRow): int { r.exits }
  function PageFocus(r: PageRow): int { r.focusSeconds }
  function PageFocusViews(r: PageRow): int { r.focusViews }

  // ---- One entry and one exit per session -------------------------------------------

  function FirstIn(pv: seq<PageView>, before: (PageView, PageView) -> bool): PageView -> int
  {
    (v: PageView) => if RowNumber(SessionRows(pv, v.session), before, v) == 1 then 1 else 0
  }

  /** Within each session the row order is strict and total. */
  ghost predicate OrdersSessions(pv: seq<PageView>, before: (PageView, PageView) -> bool)
  {
    forall session :: StrictOrder(SessionRows(pv, session), before)
  }

  lemma RowsAreOrdered(pv: seq<PageView>)
    requires Unique(pv, ViewId)
    ensures OrdersSessions(pv, Earlier) && OrdersSessions(pv, Later)
  {
  }

  lemma FirstRowsOf(pv: seq<PageView>, before: (PageView, PageView) -> bool, session: int)
    ensures Marked(Group(pv, SessionOf, session), FirstIn(pv, before)) == Top(SessionRows(pv, session), before, 1)
  {
    var rows, all := Group(pv, SessionOf, session), SessionRows(pv, session);
    forall v
      ensures v in rows && FirstIn(pv, before)(v) == 1 <==> v in all && RowNumber(all, before, v) <= 1
    {
      GroupMember(pv, SessionOf, session, v);
      if v in all {
        assert SessionRows(pv, v.session) == all;
      }
    }
  }

  lemma OneTop(pv: seq<PageView>, before: (PageView, PageView) -> bool, session: int)
    requires StrictOrder(SessionRows(pv, session), before) && session in Values(pv, SessionOf)
    ensures |Top(SessionRows(pv, session), before, 1)| == 1
  {
    TopSize(SessionRows(pv, session), before, 1);
    var v :| v in pv && SessionOf(v) == session;
    assert v in SessionRows(pv, session);
  }

  /** Exactly one row of each session has number 1. */
  lemma OneFirstRow(pv: seq<PageView>, before: (PageView, PageView) -> bool, session: int)
    requires Unique(pv, ViewId)
    requires StrictOrder(SessionRows(pv, session), before) && session in Values(pv, SessionOf)
    ensures Total(Group(pv, SessionOf, session), FirstIn(pv, before)) == 1
  {
    OneTop(pv, before, session);
    FirstRowsOf(pv, before, session);
    GroupUnique(pv, SessionOf, session, ViewId);
    IndicatorTotal(Group(pv, SessionOf, session), ViewId, FirstIn(pv, before));
  }

  function TotalOf(weight: PageView -> int): (int, seq<PageView>) -> int
  {
    (session: int, rows: seq<PageView>) => Total(rows, weight)
  }

  function Self(x: int): int { x }

  /** The rows numbered 1 within their session are as many as the sessions. */
  lemma FirstRowsAreSessions(pv: seq<PageView>, before: (PageView, PageView) -> bool)
    requires Unique(pv, ViewId) && OrdersSessions(pv, before)
    ensures Total(pv, FirstIn(pv, before)) == |Values(pv, SessionOf)|
  {
    var first := FirstIn(pv, before);
    var sums := GroupBy(pv, SessionOf, TotalOf(first));
    GroupTotals(pv, SessionOf, TotalOf(first), Self, first);
    forall i | 0 <= i < |sums|
      ensures Self(sums[i]) == One(sums[i])
    {
      var k := GroupByRow(pv, SessionOf, TotalOf(first), i);
      OneFirstRow(pv, before, k);
    }
    TotalEqual(sums, sums, Self, One<int>);
    TotalOne(sums);
    SameGroupCount(pv, SessionOf, TotalOf(first), CountSession);
    SessionsAreDistinct(pv);
  }

  // ---- Buckets ----------------------------------------------------------------------

  lemma OneCountPerPath(pv: seq<PageView>)
    ensures forall a, b :: a in CountSet(pv) && b in CountSet(pv) && a != b ==> a.path != b.path
  {
    GroupByUnique(pv, PathOf, CountPath, CountedPath);
    KeysDiffer(PathCounts(pv), CountedPath);
    assert forall c: PathCount :: CountedPath(c) == c.path;
  }

  lemma CountsAreOrdered(pv: seq<PageView>)
    ensures StrictOrder(CountSet(pv), MoreViewed)
  {
    OneCountPerPath(pv);
    TextTransitiveAll();
  }

  /** bucket holds each viewed path once. */
  lemma BucketsAreKeyed(pv: seq<PageView>, n: int)
    ensures Unique(Buckets(pv, n), BucketPath)
    ensures Values(Buckets(pv, n), BucketPath) == Values(pv, PathOf)
  {
    GroupByUnique(pv, PathOf, CountPath, CountedPath);
    ProjectKeys(PathCounts(pv), BucketIn(CountSet(pv), n), CountedPath, BucketPath);
  }

  /** The paths that keep their own row. */
  function KeptPaths(pv: seq<PageView>, n: int): set<string>
  {
    set c | c in Top(CountSet(pv), MoreViewed, n) :: c.path
  }

  lemma {:induction false} ImageSize<T, U>(xs: set<T>, f: T -> U, image: set<U>)
    requires image == set x | x in xs :: f(x)
    ensures |image| <= |xs|
    decreases |xs|
  {
    if xs == {} {
      assert image == {};
    } else {
      var x :| x in xs;
      var smaller := set y | y in xs - {x} :: f(y);
      ImageSize(xs - {x}, f, smaller);
      assert image == smaller + {f(x)};
    }
  }

  lemma KeptPathsSize(pv: seq<PageView>, n: int)
    ensures |KeptPaths(pv, n)| <= if n < 0 then 0 else n
  {
    CountsAreOrdered(pv);
    TopAtMost(CountSet(pv), MoreViewed, n);
    ImageSize(Top(CountSet(pv), MoreViewed, n), CountedPath, KeptPaths(pv, n));
  }

  lemma BucketNames(pv: seq<PageView>, n: int, b: Bucket)
    requires b in Buckets(pv, n)
    ensures b.bucket in KeptPaths(pv, n) + {Other}
  {
    var counts := PathCounts(pv);
    var i :| 0 <= i < |counts| && b == BucketIn(CountSet(pv), n)(counts[i]);
    if RowNumber(CountSet(pv), MoreViewed, counts[i]) <= n {
      assert counts[i] in Top(CountSet(pv), MoreViewed, n);
    }
  }

  // ---- Conservation -----------------------------------------------------------------

  function RowViews(r: ViewsRow): int { r.views }
  function RowEntries(r: ViewsRow): int { r.entries }
  function RowExits(r: ViewsRow): int { r.exits }
  function RowSeconds(r: FocusRow): int { r.seconds }
  function RowSpent(r: FocusRow): int { r.views }

  function Joined(pv: seq<PageView>, n: int): seq<JoinedView>
  {
    Join(RankedViews(pv), Buckets(pv, n), RankedPath, BucketPath)
  }

  /** Each page view joins its one bucket. */
  lemma JoinedRows(pv: seq<PageView>, n: int)
    ensures |Joined(pv, n)| == |pv|
    ensures forall i :: 0 <= i < |pv| ==> Joined(pv, n)[i].0 == RankIn(pv)(pv[i])
    ensures forall i :: 0 <= i < |pv| ==> Joined(pv, n)[i].1 in Buckets(pv, n) && Joined(pv, n)[i].1.path == pv[i].path
  {
    BucketsAreKeyed(pv, n);
    forall i | 0 <= i < |pv|
      ensures RankedPath(RankedViews(pv)[i]) in Values(Buckets(pv, n), BucketPath)
    {
      assert pv[i] in pv && PathOf(pv[i]) in Values(pv, PathOf);
    }
    JoinOnKey(RankedViews(pv), Buckets(pv, n), RankedPath, BucketPath);
  }

  lemma ViewsRowsTotals(pv: seq<PageView>, n: int)
    requires Unique(pv, ViewId)
    ensures Total(ViewsRows(pv, n), RowViews) == |pv|
    ensures Total(ViewsRows(pv, n), RowEntries) == |Values(pv, SessionOf)|
    ensures Total(ViewsRows(pv, n), RowExits) == |Values(pv, SessionOf)|
  {
    var rows := Joined(pv, n);
    JoinedRows(pv, n);
    forall g: seq<JoinedView> ensures Total(g, One<JoinedView>) == |g| {
      TotalOne(g);
    }
    GroupTotals(rows, ViewBucket, SumViews, RowViews, One<JoinedView>);
    GroupTotals(rows, ViewBucket, SumViews, RowEntries, IsEntry);
    GroupTotals(rows, ViewBucket, SumViews, RowExits, IsExit);
    TotalEqual(rows, pv, IsEntry, FirstIn(pv, Earlier));
    TotalEqual(rows, pv, IsExit, FirstIn(pv, Later));
    RowsAreOrdered(pv);
    FirstRowsAreSessions(pv, Earlier);
    FirstRowsAreSessions(pv, Later);
  }

  lemma FocusRowsTotals(pv: seq<PageView>, ts: seq<TimeSpent>, n: int)
    ensures Total(FocusRows(pv, ts, n), RowSeconds) == Total(ts, FocusOf)
    ensures Total(FocusRows(pv, ts, n), RowSpent) == |ts|
  {
    var rows := LeftJoin(ts, Buckets(pv, n), SpentPath, BucketPath);
    BucketsAreKeyed(pv, n);
    LeftJoinOnKey(ts, Buckets(pv, n), SpentPath, BucketPath);
    forall g: seq<JoinedSpent> ensures Total(g, One<JoinedSpent>) == |g| {
      TotalOne(g);
    }
    GroupTotals(rows, FocusBucket, SumFocus, RowSpent, One<JoinedSpent>);
    GroupTotals(rows, FocusBucket, SumFocus, RowSeconds, JoinedFocus);
    TotalEqual(rows, ts, JoinedFocus, FocusOf);
  }

  lemma PartsAreKeyed(pv: seq<PageView>, ts: seq<TimeSpent>, n: int)
    ensures Unique(ViewsRows(pv, n), ViewsRowBucket) && Unique(FocusRows(pv, ts, n), FocusRowBucket)
    ensures Values(ViewsRows(pv, n), ViewsRowBucket) <= KeptPaths(pv, n) + {Other}
    ensures Values(FocusRows(pv, ts, n), FocusRowBucket) <= KeptPaths(pv, n) + {Other}
  {
    var viewed, spent := Joined(pv, n), LeftJoin(ts, Buckets(pv, n), SpentPath, BucketPath);
    GroupByUnique(viewed, ViewBucket, SumViews, ViewsRowBucket);
    GroupByUnique(spent, FocusBucket, SumFocus, FocusRowBucket);
    JoinedRows(pv, n);
    BucketsAreKeyed(pv, n);
    LeftJoinOnKey(ts, Buckets(pv, n), SpentPath, BucketPath);
    forall j: JoinedView | j in viewed
      ensures ViewBucket(j) in KeptPaths(pv, n) + {Other}
    {
      BucketNames(pv, n, j.1);
    }
    forall j: JoinedSpent | j in spent
      ensures FocusBucket(j) in KeptPaths(pv, n) + {Other}
    {
      LookupFound(Buckets(pv, n), BucketPath, SpentPath(j.0));
      if j.1.Some? {
        BucketNames(pv, n, j.1.value);
      }
    }
  }

  function JoinedPath(j: JoinedRow): string { JoinedKey(j, ViewsRowBucket, FocusRowBucket, "") }

  /** A period's page rows conserve its site row: views, focus seconds and focus views add up to
      the site's, entries and exits each to its sessions. There is one row per path and at most
      n + 1 rows. */
  lemma PagesConserveSite(raw: Raw, firstSeen: map<int, int>, w: Span, n: int)
    requires ValidRaw(raw)
    ensures var pages, site := PagesQuery(raw, w, n), SiteQuery(raw, firstSeen, w);
            && Total(pages, PageViews) == site.views
            && Total(pages, PageEntries) == site.sessions
            && Total(pages, PageExits) == site.sessions
            && Total(pages, PageFocus) == site.focusSeconds
            && Total(pages, PageFocusViews) == site.focusViews
            && Unique(pages, PagePath)
            && |pages| <= (if n < 0 then 0 else n) + 1
  {
    var pv, ts := ViewsIn(raw, w), SpentIn(raw, w);
    BetweenUnique(raw.views, ViewAt, w.from, w.to, ViewId);
    PartsAreKeyed(pv, ts, n);
    ViewsRowsTotals(pv, n);
    FocusRowsTotals(pv, ts, n);
    SessionsAreDistinct(pv);
    PageTotals(pv, ts, n);
    var left, right := ViewsRows(pv, n), FocusRows(pv, ts, n);
    var rows := FullJoin(left, right, ViewsRowBucket, FocusRowBucket);
    FullJoinKeys(left, right, ViewsRowBucket, FocusRowBucket, "", JoinedPath);
    ProjectKeys(rows, ToPageRow, JoinedPath, PagePath);
    UniqueSize(PagesQuery(raw, w, n), PagePath);
    KeptPathsSize(pv, n);
    SmallerSubset(Values(rows, JoinedPath), KeptPaths(pv, n) + {Other});
  }

  /** A measure of each side of the full join keeps its total in the page rows. */
  lemma SideTotals(left: seq<ViewsRow>, right: seq<FocusRow>, wl: ViewsRow -> int, wr: FocusRow -> int,
                   pl: PageRow -> int, pr: PageRow -> int)
    requires Unique(left, ViewsRowBucket) && Unique(right, FocusRowBucket)
    requires forall j: JoinedRow :: pl(ToPageRow(j)) == OrZero(j.0, wl) && pr(ToPageRow(j)) == OrZero(j.1, wr)
    ensures var pages := Project(FullJoin(left, right, ViewsRowBucket, FocusRowBucket), ToPageRow);
            Total(pages, pl) == Total(left, wl) && Total(pages, pr) == Total(right, wr)
  {
    var rows := FullJoin(left, right, ViewsRowBucket, FocusRowBucket);
    var onLeft := (j: JoinedRow) => OrZero(j.0, wl);
    var onRight := (j: JoinedRow) => OrZero(j.1, wr);
    FullJoinTotals(left, right, ViewsRowBucket, FocusRowBucket, wl, wr, onLeft, onRight);
    TotalEqual(Project(rows, ToPageRow), rows, pl, onLeft);
    TotalEqual(Project(rows, ToPageRow), rows, pr, onRight);
  }

  lemma PageTotals(pv: seq<PageView>, ts: seq<TimeSpent>, n: int)
    requires Unique(ViewsRows(pv, n), ViewsRowBucket) && Unique(FocusRows(pv, ts, n), FocusRowBucket)
    ensures var left, right := ViewsRows(pv, n), FocusRows(pv, ts, n);
            var pages := Project(FullJoin(left, right, ViewsRowBucket, FocusRowBucket), ToPageRow);
            && Total(pages, PageViews) == Total(left, RowViews)
            && Total(pages, PageEntries) == Total(left, RowEntries)
            && Total(pages, PageExits) == Total(left, RowExits)
            && Total(pages, PageFocus) == Total(right, RowSeconds)
            && Total(pages, PageFocusViews) == Total(right, RowSpent)
  {
    var left, right := ViewsRows(pv, n), FocusRows(pv, ts, n);
    SideTotals(left, right, RowViews, RowSeconds, PageViews, PageFocus);
    SideTotals(left, right, RowEntries, RowSpent, PageEntries, PageFocusViews);
    SideTotals(left, right, RowExits, RowSpent, PageExits, PageFocusViews);
  }

  // ---- What each row means ----------------------------------------------------------

  /** The name a path is counted under. */
  function Fold(pv: seq<PageView>, n: int, path: string): string
  {
    if path in KeptPaths(pv, n) then path else Other
  }

  /** The first (or last) view of each session. */
  ghost function Extremes(pv: seq<PageView>, before: (PageView, PageView) -> bool): set<PageView>
  {
    set v | v in pv && forall u :: u in pv && u.session == v.session && u != v ==> before(v, u)
  }

  /** The views of a set counted under a name. */
  function Under(pv: seq<PageView>, n: int, name: string, views: set<PageView>): set<PageView>
  {
    set v | v in views && Fold(pv, n, v.path) == name
  }

  function Rows(pv: seq<PageView>): set<PageView> { set v | v in pv }
  function Visitors(views: set<PageView>): set<string> { set v | v in views :: v.visitor }

  function FoldSpent(pv: seq<PageView>, n: int): TimeSpent -> string { (t: TimeSpent) => Fold(pv, n, t.path) }

  /** The row of a name, counted directly on the raw events. */
  ghost function DirectPage(pv: seq<PageView>, ts: seq<TimeSpent>, n: int, name: string): PageRow
  {
    PageRow(
      name,
      |Under(pv, n, name, Rows(pv))|,
      |Visitors(Under(pv, n, name, Rows(pv)))|,
      |Under(pv, n, name, Extremes(pv, Earlier))|,
      |Under(pv, n, name, Extremes(pv, Later))|,
      Total(Group(ts, FoldSpent(pv, n), name), FocusOf),
      |Group(ts, FoldSpent(pv, n), name)|)
  }

  lemma BucketIsFold(pv: seq<PageView>, n: int, b: Bucket)
    requires b in Buckets(pv, n)
    ensures b.bucket == Fold(pv, n, b.path)
  {
    var counts := PathCounts(pv);
    var i :| 0 <= i < |counts| && b == BucketIn(CountSet(pv), n)(counts[i]);
    OneCountPerPath(pv);
    if RowNumber(CountSet(pv), MoreViewed, counts[i]) <= n {
      assert counts[i] in Top(CountSet(pv), MoreViewed, n);
    }
  }

  /** Number 1 is the first row of the session. */
  lemma FirstIsExtreme(pv: seq<PageView>, before: (PageView, PageView) -> bool, v: PageView)
    requires OrdersSessions(pv, before) && v in pv
    ensures FirstIn(pv, before)(v) == 1 <==> v in Extremes(pv, before)
  {
    var all := SessionRows(pv, v.session);
    assert StrictOrder(all, before);
    var earlier := Preceding(all, before, v);
    if v in Extremes(pv, before) {
      assert earlier == {};
    } else {
      var u :| u in pv && u.session == v.session && u != v && !before(v, u);
      assert u in all && v in all && u in earlier;
    }
  }

  function WhenUnder(pv: seq<PageView>, n: int, name: string, weight: PageView -> int): PageView -> int
  {
    (v: PageView) => if Fold(pv, n, v.path) == name then weight(v) else 0
  }

  lemma JoinedFold(pv: seq<PageView>, n: int, i: nat)
    requires i < |pv|
    ensures |Joined(pv, n)| == |pv| && Joined(pv, n)[i].0 == RankIn(pv)(pv[i])
    ensures ViewBucket(Joined(pv, n)[i]) == Fold(pv, n, pv[i].path)
  {
    JoinedRows(pv, n);
    BucketIsFold(pv, n, Joined(pv, n)[i].1);
  }

  /** Total of a group of joined rows, read off the page views. */
  lemma JoinedGroupTotal(pv: seq<PageView>, n: int, name: string, joined: JoinedView -> int, weight: PageView -> int)
    requires Unique(pv, ViewId)
    requires forall j :: joined(j) == 0 || joined(j) == 1
    requires forall i :: 0 <= i < |pv| && i < |Joined(pv, n)| ==> joined(Joined(pv, n)[i]) == weight(pv[i])
    ensures Total(Group(Joined(pv, n), ViewBucket, name), joined) == |Under(pv, n, name, Marked(pv, weight))|
  {
    var rows := Joined(pv, n);
    var filtered := (j: JoinedView) => if ViewBucket(j) == name then joined(j) else 0;
    GroupAsFilter(rows, ViewBucket, name, joined, filtered);
    JoinedRows(pv, n);
    forall i | 0 <= i < |pv|
      ensures filtered(rows[i]) == WhenUnder(pv, n, name, weight)(pv[i])
    {
      JoinedFold(pv, n, i);
    }
    TotalEqual(rows, pv, filtered, WhenUnder(pv, n, name, weight));
    IndicatorTotal(pv, ViewId, WhenUnder(pv, n, name, weight));
    assert Marked(pv, WhenUnder(pv, n, name, weight)) == Under(pv, n, name, Marked(pv, weight));
  }

  lemma JoinedGroupVisitors(pv: seq<PageView>, n: int, name: string)
    ensures Values(Group(Joined(pv, n), ViewBucket, name), ViewVisitor) == Visitors(Under(pv, n, name, Rows(pv)))
  {
    var rows, group := Joined(pv, n), Group(Joined(pv, n), ViewBucket, name);
    JoinedRows(pv, n);
    forall visitor | visitor in Values(group, ViewVisitor)
      ensures visitor in Visitors(Under(pv, n, name, Rows(pv)))
    {
      var j :| j in group && ViewVisitor(j) == visitor;
      GroupMember(rows, ViewBucket, name, j);
      var i :| 0 <= i < |rows| && rows[i] == j;
      JoinedFold(pv, n, i);
      assert pv[i] in Under(pv, n, name, Rows(pv));
    }
    forall v | v in Under(pv, n, name, Rows(pv))
      ensures v.visitor in Values(group, ViewVisitor)
    {
      var i :| 0 <= i < |pv| && pv[i] == v;
      JoinedFold(pv, n, i);
      GroupMember(rows, ViewBucket, name, rows[i]);
    }
  }

  function OneView(v: PageView): int { 1 }
  function OneJoined(j: JoinedView): int { 1 }

  lemma ViewsRowMeaning(pv: seq<PageView>, ts: seq<TimeSpent>, n: int, name: string)
    requires Unique(pv, ViewId)
    ensures var d := DirectPage(pv, ts, n, name);
            SumViews(name, Group(Joined(pv, n), ViewBucket, name)) ==
            ViewsRow(name, d.views, d.visitors, d.entries, d.exits)
  {
    var group := Group(Joined(pv, n), ViewBucket, name);
    RowsAreOrdered(pv);
    JoinedGroupTotal(pv, n, name, OneJoined, OneView);
    TotalOne(group);
    TotalEqual(group, group, One<JoinedView>, OneJoined);
    assert Marked(pv, OneView) == Rows(pv);
    JoinedRows(pv, n);
    JoinedGroupTotal(pv, n, name, IsEntry, FirstIn(pv, Earlier));
    JoinedGroupTotal(pv, n, name, IsExit, FirstIn(pv, Later));
    ExtremesAreMarked(pv, Earlier);
    ExtremesAreMarked(pv, Later);
    JoinedGroupVisitors(pv, n, name);
  }

  lemma ExtremesAreMarked(pv: seq<PageView>, before: (PageView, PageView) -> bool)
    requires OrdersSessions(pv, before)
    ensures Marked(pv, FirstIn(pv, before)) == Extremes(pv, before)
  {
    forall v | v in pv
      ensures FirstIn(pv, before)(v) == 1 <==> v in Extremes(pv, before)
    {
      FirstIsExtreme(pv, before, v);
    }
  }

  lemma SpentFold(pv: seq<PageView>, ts: seq<TimeSpent>, n: int, i: nat)
    requires i < |ts|
    ensures var rows := LeftJoin(ts, Buckets(pv, n), SpentPath, BucketPath);
            |rows| == |ts| && rows[i].0 == ts[i] && FocusBucket(rows[i]) == Fold(pv, n, ts[i].path)
  {
    BucketsAreKeyed(pv, n);
    LeftJoinOnKey(ts, Buckets(pv, n), SpentPath, BucketPath);
    LookupFound(Buckets(pv, n), BucketPath, SpentPath(ts[i]));
    var found := Lookup(Buckets(pv, n), BucketPath, SpentPath(ts[i]));
    if found.Some? {
      BucketIsFold(pv, n, found.value);
    } else {
      KeptAreViewed(pv, n);
    }
  }

  lemma KeptAreViewed(pv: seq<PageView>, n: int)
    ensures KeptPaths(pv, n) <= Values(pv, PathOf)
  {
    GroupByUnique(pv, PathOf, CountPath, CountedPath);
    assert forall c :: c in CountSet(pv) ==> CountedPath(c) in Values(PathCounts(pv), CountedPath);
  }

  lemma SpentGroupTotal(
    pv: seq<PageView>, ts: seq<TimeSpent>, n: int, name: string, joined: JoinedSpent -> int, weight: TimeSpent -> int)
    requires forall j :: joined(j) == weight(j.0)
    ensures Total(Group(LeftJoin(ts, Buckets(pv, n), SpentPath, BucketPath), FocusBucket, name), joined) ==
            Total(Group(ts, FoldSpent(pv, n), name), weight)
  {
    var rows := LeftJoin(ts, Buckets(pv, n), SpentPath, BucketPath);
    var filtered := (j: JoinedSpent) => if FocusBucket(j) == name then joined(j) else 0;
    var direct := (t: TimeSpent) => if FoldSpent(pv, n)(t) == name then weight(t) else 0;
    GroupAsFilter(rows, FocusBucket, name, joined, filtered);
    GroupAsFilter(ts, FoldSpent(pv, n), name, weight, direct);
    BucketsAreKeyed(pv, n);
    LeftJoinOnKey(ts, Buckets(pv, n), SpentPath, BucketPath);
    forall i | 0 <= i < |ts|
      ensures filtered(rows[i]) == direct(ts[i])
    {
      SpentFold(pv, ts, n, i);
    }
    TotalEqual(rows, ts, filtered, direct);
  }

  lemma FocusRowMeaning(pv: seq<PageView>, ts: seq<TimeSpent>, n: int, name: string)
    ensures var d := DirectPage(pv, ts, n, name);
            SumFocus(name, Group(LeftJoin(ts, Buckets(pv, n), SpentPath, BucketPath), FocusBucket, name)) ==
            FocusRow(name, d.focusSeconds, d.focusViews)
  {
    SpentGroupTotal(pv, ts, n, name, JoinedFocus, FocusOf);
    SpentGroupTotal(pv, ts, n, name, One<JoinedSpent>, One<TimeSpent>);
    TotalOne(Group(LeftJoin(ts, Buckets(pv, n), SpentPath, BucketPath), FocusBucket, name));
    TotalOne(Group(ts, FoldSpent(pv, n), name));
  }

  /** Every row of the pages rollup is the direct count of its name on the raw events: its
      entries are the sessions whose first view falls under the name, its exits those whose last
      view does. */
  lemma PageRowMeaning(raw: Raw, w: Span, n: int, i: nat)
    requires ValidRaw(raw) && i < |PagesQuery(raw, w, n)|
    ensures var row := PagesQuery(raw, w, n)[i];
            row == DirectPage(ViewsIn(raw, w), SpentIn(raw, w), n, row.path)
  {
    var pv, ts := ViewsIn(raw, w), SpentIn(raw, w);
    var left, right := ViewsRows(pv, n), FocusRows(pv, ts, n);
    BetweenUnique(raw.views, ViewAt, w.from, w.to, ViewId);
    PartsAreKeyed(pv, ts, n);
    FullJoinRow(left, right, ViewsRowBucket, FocusRowBucket, "", i);
    var name := JoinedPath(FullJoin(left, right, ViewsRowBucket, FocusRowBucket)[i]);
    GroupByLookup(Joined(pv, n), ViewBucket, SumViews, ViewsRowBucket, name);
    GroupByLookup(LeftJoin(ts, Buckets(pv, n), SpentPath, BucketPath), FocusBucket, SumFocus, FocusRowBucket, name);
    ViewsRowMeaning(pv, ts, n, name);
    FocusRowMeaning(pv, ts, n, name);
  }

  /** The rows are named after the views and heartbeats of the period, folded: none is missing. */
  lemma PageNames(raw: Raw, w: Span, n: int, v: PageView)
    requires v in ViewsIn(raw, w)
    ensures Fold(ViewsIn(raw, w), n, v.path) in Values(PagesQuery(raw, w, n), PagePath)
  {
    var pv, ts := ViewsIn(raw, w), SpentIn(raw, w);
    var left, right := ViewsRows(pv, n), FocusRows(pv, ts, n);
    PartsAreKeyed(pv, ts, n);
    var i :| 0 <= i < |pv| && pv[i] == v;
    JoinedFold(pv, n, i);
    assert Joined(pv, n)[i] in Joined(pv, n);
    GroupByUnique(Joined(pv, n), ViewBucket, SumViews, ViewsRowBucket);
    var k := FullJoinHas(left, right, ViewsRowBucket, FocusRowBucket, "", Fold(pv, n, v.path));
    FullJoinRow(left, right, ViewsRowBucket, FocusRowBucket, "", k);
    assert PagesQuery(raw, w, n)[k] in PagesQuery(raw, w, n);
  }

  /** Every path that keeps its name comes before every viewed path that was folded, by views, then
      path. */
  lemma KeptPathsAreTheTop(raw: Raw, w: Span, n: int, kept: string, folded: string)
    requires kept in KeptPaths(ViewsIn(raw, w), n)
    requires folded in Values(ViewsIn(raw, w), PathOf) - KeptPaths(ViewsIn(raw, w), n)
    ensures var pv := ViewsIn(raw, w);
            MoreViewed(PathCount(kept, |Group(pv, PathOf, kept)|), PathCount(folded, |Group(pv, PathOf, folded)|))
  {
    var pv := ViewsIn(raw, w);
    CountsAreOrdered(pv);
    OneCountPerPath(pv);
    GroupByHas(pv, PathOf, CountPath, folded);
    var c :| c in Top(CountSet(pv), MoreViewed, n) && c.path == kept;
    var i :| 0 <= i < |PathCounts(pv)| && PathCounts(pv)[i] == c;
    var k := GroupByRow(pv, PathOf, CountPath, i);
    TopComesFirst(CountSet(pv), MoreViewed, n, c, CountPath(folded, Group(pv, PathOf, folded)));
  }

  lemma {:induction false} InjectiveImage<T, U>(xs: set<T>, f: T -> U, image: set<U>)
    requires image == set x | x in xs :: f(x)
    requires forall x, y :: x in xs && y in xs && x != y ==> f(x) != f(y)
    ensures |image| == |xs|
    decreases |xs|
  {
    if xs == {} {
      assert image == {};
    } else {
      var x :| x in xs;
      var smaller := set y | y in xs - {x} :: f(y);
      InjectiveImage(xs - {x}, f, smaller);
      assert image == smaller + {f(x)};
    }
  }

  lemma KeptPathsCount(pv: seq<PageView>, n: nat)
    ensures |KeptPaths(pv, n)| == Min(n, |Values(pv, PathOf)|)
  {
    CountsAreOrdered(pv);
    OneCountPerPath(pv);
    TopSize(CountSet(pv), MoreViewed, n);
    InjectiveImage(Top(CountSet(pv), MoreViewed, n), CountedPath, KeptPaths(pv, n));
    GroupByUnique(pv, PathOf, CountPath, CountedPath);
    assert Values(PathCounts(pv), CountedPath) == set c | c in CountSet(pv) :: CountedPath(c);
    InjectiveImage(CountSet(pv), CountedPath, Values(PathCounts(pv), CountedPath));
  }
}
