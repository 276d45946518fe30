/** analytics_rollup_referrers, _dimensions and _navigation. */
module AudienceRollup {
  import opened Common
  import opened Relational
  import opened Ranking
  import opened RawEvents
  import opened SiteRollup
  import opened PageRollup

  // ---- Referrers --------------------------------------------------------------------

  datatype HostCount = HostCount(host: string, sessions: int)
  datatype HostRow = HostRow(host: string, sessions: int, visitors: int)

  /** The text after prefix up to the next slash, when the prefix is there and text follows. */
  function HostAfter(url: string, prefix: string): Option<string>
  {
    if prefix <= url && |url| > |prefix| && url[|prefix|] != '/' then Some(UpToSlash(url[|prefix|..])) else None
  }

  function UpToSlash(text: string): string
  {
    if text == [] || text[0] == '/' then [] else [text[0]] + UpToSlash(text[1..])
  }

  /** coalesce(substring(referrer FROM '^https{0,1}://([^/]+)'), '(direct)'). */
  function HostOf(v: PageView): string
  {
    match v.referrer
    case None => "(direct)"
    case Some(url) =>
      var plain, secure := HostAfter(url, "http://"), HostAfter(url, "https://");
      if plain.Some? then plain.value else if secure.Some? then secure.value else "(direct)"
  }

  /** DISTINCT ON (session_id) ... ORDER BY session_id, occurred_at, id: each session's first row. */
  function EntryViews(pv: seq<PageView>, all: seq<PageView>): seq<PageView>
  {
    if pv == [] then []
    else if RowNumber(SessionRows(all, pv[0].session), Earlier, pv[0]) == 1 then [pv[0]] + EntryViews(pv[1..], all)
    else EntryViews(pv[1..], all)
  }

  predicate MoreSessions(a: HostCount, b: HostCount)
  {
    a.sessions > b.sessions || (a.sessions == b.sessions && TextBefore(a.host, b.host))
  }

  function CountHost(host: string, rows: seq<PageView>): HostCount { HostCount(host, |rows|) }
  function HostCounts(entry: seq<PageView>): set<HostCount> { set c | c in GroupBy(entry, HostOf, CountHost) }

  /** The host an entry is counted under: its own while it ranks up to n. */
  function FoldHost(entry: seq<PageView>, n: int): PageView -> string
  {
    var counts := HostCounts(entry);
    (v: PageView) =>
      if RowNumber(counts, MoreSessions, HostCount(HostOf(v), |Group(entry, HostOf, HostOf(v))|)) <= n
      then HostOf(v) else Other
  }

  function SumHost(host: string, rows: seq<PageView>): HostRow { HostRow(host, |rows|, |Values(rows, VisitorOf)|) }
  function RowHost(r: HostRow): string { r.host }
  function HostSessions(r: HostRow): int { r.sessions }

  function ReferrersQuery(raw: Raw, w: Span, n: int): seq<HostRow>
  {
    var entry := EntryViews(ViewsIn(raw, w), ViewsIn(raw, w));
    GroupBy(entry, FoldHost(entry, n), SumHost)
  }

  lemma {:induction false} EntryViewsCount(pv: seq<PageView>, all: seq<PageView>)
    ensures |EntryViews(pv, all)| == Total(pv, FirstIn(all, Earlier))
  {
    if pv != [] {
      EntryViewsCount(pv[1..], all);
    }
  }

  /** Every session is attributed to exactly one host. */
  lemma ReferrersConserveSite(raw: Raw, firstSeen: map<int, int>, w: Span, n: int)
    requires ValidRaw(raw)
    ensures Total(ReferrersQuery(raw, w, n), HostSessions) == SiteQuery(raw, firstSeen, w).sessions
    ensures Unique(ReferrersQuery(raw, w, n), RowHost)
  {
    var pv := ViewsIn(raw, w);
    var entry := EntryViews(pv, pv);
    BetweenUnique(raw.views, ViewAt, w.from, w.to, ViewId);
    RowsAreOrdered(pv);
    FirstRowsAreSessions(pv, Earlier);
    EntryViewsCount(pv, pv);
    SessionsAreDistinct(pv);
    forall g: seq<PageView> ensures Total(g, One<PageView>) == |g| {
      TotalOne(g);
    }
    GroupTotals(entry, FoldHost(entry, n), SumHost, HostSessions, One<PageView>);
    GroupByUnique(entry, FoldHost(entry, n), SumHost, RowHost);
  }

  // ---- Which hosts keep their name, and what a row counts ---------------------------

  function CountedHost(c: HostCount): string { c.host }

  function KeptHosts(entry: seq<PageView>, n: int): set<string>
  {
    set c | c in Top(HostCounts(entry), MoreSessions, n) :: CountedHost(c)
  }

  lemma OneCountPerHost(entry: seq<PageView>)
    ensures forall a, b :: a in HostCounts(entry) && b in HostCounts(entry) && a != b ==> a.host != b.host
    ensures StrictOrder(HostCounts(entry), MoreSessions)
  {
    GroupByUnique(entry, HostOf, CountHost, CountedHost);
    KeysDiffer(GroupBy(entry, HostOf, CountHost), CountedHost);
    assert forall c: HostCount :: CountedHost(c) == c.host;
    TextTransitiveAll();
  }

  /** The count of an entry's host is one of the ranked ones. */
  lemma CountOf(entry: seq<PageView>, v: PageView)
    requires v in entry
    ensures HostCount(HostOf(v), |Group(entry, HostOf, HostOf(v))|) in HostCounts(entry)
  {
    GroupByHas(entry, HostOf, CountHost, HostOf(v));
  }

  lemma FoldsToKept(entry: seq<PageView>, n: int, v: PageView)
    requires v in entry
    ensures FoldHost(entry, n)(v) == if HostOf(v) in KeptHosts(entry, n) then HostOf(v) else Other
  {
    OneCountPerHost(entry);
    CountOf(entry, v);
    var c := HostCount(HostOf(v), |Group(entry, HostOf, HostOf(v))|);
    if HostOf(v) in KeptHosts(entry, n) {
      var k :| k in Top(HostCounts(entry), MoreSessions, n) && CountedHost(k) == HostOf(v);
      assert k == c;
    } else {
      assert CountedHost(c) == HostOf(v);
    }
  }

  /** When a host is folded exactly n hosts keep their name, and each has more sessions than any folded
      host, or as many and a smaller name. */
  lemma KeptHostsAreTheTop(entry: seq<PageView>, n: nat, kept: PageView, folded: PageView)
    requires kept in entry && HostOf(kept) in KeptHosts(entry, n)
    requires folded in entry && HostOf(folded) !in KeptHosts(entry, n)
    ensures |KeptHosts(entry, n)| == n
    ensures MoreSessions(HostCount(HostOf(kept), |Group(entry, HostOf, HostOf(kept))|),
                         HostCount(HostOf(folded), |Group(entry, HostOf, HostOf(folded))|))
  {
    OneCountPerHost(entry);
    CountOf(entry, kept);
    CountOf(entry, folded);
    var all := HostCounts(entry);
    var a := HostCount(HostOf(kept), |Group(entry, HostOf, HostOf(kept))|);
    var b := HostCount(HostOf(folded), |Group(entry, HostOf, HostOf(folded))|);
    var k :| k in Top(all, MoreSessions, n) && CountedHost(k) == HostOf(kept);
    assert k == a;
    assert b !in Top(all, MoreSessions, n) by { assert CountedHost(b) == HostOf(folded); }
    TopComesFirst(all, MoreSessions, n, a, b);
    TopSize(all, MoreSessions, n);
    InjectiveImage(Top(all, MoreSessions, n), CountedHost, KeptHosts(entry, n));
    SmallerSubset(Top(all, MoreSessions, n), all);
  }

  /** DISTINCT ON keeps each session's first view. */
  lemma {:induction false} EntriesAreFirst(pv: seq<PageView>, all: seq<PageView>)
    requires Unique(pv, ViewId) && OrdersSessions(all, Earlier) && forall v :: v in pv ==> v in all
    ensures Unique(EntryViews(pv, all), ViewId)
    ensures forall v :: v in EntryViews(pv, all) <==> v in pv && v in Extremes(all, Earlier)
  {
    if pv != [] {
      UniqueCons(pv, ViewId);
      EntriesAreFirst(pv[1..], all);
      FirstIsExtreme(all, Earlier, pv[0]);
      var rest := EntryViews(pv[1..], all);
      if pv[0] in Extremes(all, Earlier) {
        assert EntryViews(pv, all) == [pv[0]] + rest;
        assert ViewId(pv[0]) !in Values(rest, ViewId);
        UniqueCons([pv[0]] + rest, ViewId);
      }
    }
  }

  /** The sessions whose first view is attributed to the name. */
  ghost function Attributed(pv: seq<PageView>, n: int, name: string): set<PageView>
  {
    set v | v in Extremes(pv, Earlier) &&
            name == if HostOf(v) in KeptHosts(EntryViews(pv, pv), n) then HostOf(v) else Other
  }

  /** Every referrer row counts the sessions whose first view came from its host, and their
      visitors. */
  lemma ReferrerRowMeaning(raw: Raw, w: Span, n: int, i: nat)
    requires ValidRaw(raw) && i < |ReferrersQuery(raw, w, n)|
    ensures var row := ReferrersQuery(raw, w, n)[i];
            var sessions := Attributed(ViewsIn(raw, w), n, row.host);
            row.sessions == |sessions| && row.visitors == |Visitors(sessions)|
  {
    var pv := ViewsIn(raw, w);
    var entry := EntryViews(pv, pv);
    var fold := FoldHost(entry, n);
    BetweenUnique(raw.views, ViewAt, w.from, w.to, ViewId);
    RowsAreOrdered(pv);
    EntriesAreFirst(pv, pv);
    var name := GroupByRow(entry, fold, SumHost, i);
    GroupSize(entry, ViewId, fold, name);
    KeyedIsAttributed(pv, n, name);
    SameVisitors(Group(entry, fold, name), Keyed(entry, fold, name));
  }

  lemma KeyedIsAttributed(pv: seq<PageView>, n: int, name: string)
    requires Unique(pv, ViewId) && OrdersSessions(pv, Earlier)
    ensures Keyed(EntryViews(pv, pv), FoldHost(EntryViews(pv, pv), n), name) == Attributed(pv, n, name)
  {
    var entry := EntryViews(pv, pv);
    EntriesAreFirst(pv, pv);
    forall v | v in entry
      ensures FoldHost(entry, n)(v) == if HostOf(v) in KeptHosts(entry, n) then HostOf(v) else Other
    {
      FoldsToKept(entry, n, v);
    }
  }

  lemma SameVisitors(rows: seq<PageView>, views: set<PageView>)
    requires forall v :: v in rows <==> v in views
    ensures Values(rows, VisitorOf) == Visitors(views)
  {
    forall v | v in views ensures VisitorOf(v) in Values(rows, VisitorOf) {}
  }

  // ---- Dimensions -------------------------------------------------------------------

  datatype DimensionRow = DimensionRow(dimension: string, value: string, views: int, visitors: int)

  function CountryOf(v: PageView): string { if v.country.Some? then v.country.value else "(unknown)" }
  function DeviceOf(v: PageView): string { v.device }
  function BrowserOf(v: PageView): string { v.browser }

  function SumDimension(dimension: string): (string, seq<PageView>) -> DimensionRow
  {
    (value: string, rows: seq<PageView>) => DimensionRow(dimension, value, |rows|, |Values(rows, VisitorOf)|)
  }

  function DimensionRows(pv: seq<PageView>, dimension: string, value: PageView -> string): seq<DimensionRow>
  {
    GroupBy(pv, value, SumDimension(dimension))
  }

  function DimensionsQuery(raw: Raw, w: Span): seq<DimensionRow>
  {
    var pv := ViewsIn(raw, w);
    DimensionRows(pv, "country", CountryOf) + DimensionRows(pv, "device", DeviceOf) +
    DimensionRows(pv, "browser", BrowserOf)
  }

  function DimensionViews(dimension: string): DimensionRow -> int
  {
    (r: DimensionRow) => if r.dimension == dimension then r.views else 0
  }

  lemma {:induction false} DimensionTotal(pv: seq<PageView>, dimension: string, value: PageView -> string,
                                          asked: string)
    ensures Total(DimensionRows(pv, dimension, value), DimensionViews(asked)) == if dimension == asked then |pv| else 0
    decreases |pv|
  {
    if pv != [] {
      var k := value(pv[0]);
      SplitTotal(pv, value, k, One<PageView>);
      TotalOne(pv);
      TotalOne(Group(pv, value, k));
      TotalOne(Rest(pv, value, k));
      DimensionTotal(Rest(pv, value, k), dimension, value, asked);
    }
  }

  /** Each dimension splits all the views of the period. */
  lemma DimensionsConserveSite(raw: Raw, firstSeen: map<int, int>, w: Span, dimension: string)
    requires dimension in {"country", "device", "browser"}
    ensures Total(DimensionsQuery(raw, w), DimensionViews(dimension)) == SiteQuery(raw, firstSeen, w).views
  {
    var pv := ViewsIn(raw, w);
    var a, b := DimensionRows(pv, "country", CountryOf), DimensionRows(pv, "device", DeviceOf);
    var c := DimensionRows(pv, "browser", BrowserOf);
    TotalAppend(a + b, c, DimensionViews(dimension));
    TotalAppend(a, b, DimensionViews(dimension));
    DimensionTotal(pv, "country", CountryOf, dimension);
    DimensionTotal(pv, "device", DeviceOf, dimension);
    DimensionTotal(pv, "browser", BrowserOf, dimension);
  }

  function ValueOf(dimension: string): PageView -> string
  {
    if dimension == "country" then CountryOf else if dimension == "device" then DeviceOf else BrowserOf
  }

  lemma DimensionRowAt(pv: seq<PageView>, dimension: string, i: nat)
    requires Unique(pv, ViewId) && i < |DimensionRows(pv, dimension, ValueOf(dimension))|
    ensures var row := DimensionRows(pv, dimension, ValueOf(dimension))[i];
            var views := Keyed(pv, ValueOf(dimension), row.value);
            row.dimension == dimension && row.views == |views| && row.visitors == |Visitors(views)|
  {
    var value := GroupByRow(pv, ValueOf(dimension), SumDimension(dimension), i);
    GroupSize(pv, ViewId, ValueOf(dimension), value);
    SameVisitors(Group(pv, ValueOf(dimension), value), Keyed(pv, ValueOf(dimension), value));
  }

  /** Every dimension row counts the views with its value, and their visitors. */
  lemma DimensionRowMeaning(raw: Raw, w: Span, i: nat)
    requires ValidRaw(raw) && i < |DimensionsQuery(raw, w)|
    ensures var row := DimensionsQuery(raw, w)[i];
            var views := Keyed(ViewsIn(raw, w), ValueOf(row.dimension), row.value);
            && row.dimension in {"country", "device", "browser"}
            && row.views == |views| && row.visitors == |Visitors(views)|
  {
    var pv := ViewsIn(raw, w);
    BetweenUnique(raw.views, ViewAt, w.from, w.to, ViewId);
    var a, b := DimensionRows(pv, "country", CountryOf), DimensionRows(pv, "device", DeviceOf);
    if i < |a| {
      DimensionRowAt(pv, "country", i);
    } else if i < |a| + |b| {
      DimensionRowAt(pv, "device", i - |a|);
    } else {
      DimensionRowAt(pv, "browser", i - |a| - |b|);
    }
  }

  // ---- Navigation -------------------------------------------------------------------

  datatype Step = Step(from: string, to: string, transition: string)
  datatype StepRow = StepRow(step: Step, transitions: int)

  function StepOf(m: Navigation): Step
  {
    Step(if m.from.Some? then m.from.value else "(entrance)", m.to, m.transition)
  }

  function CountStep(step: Step, rows: seq<Navigation>): StepRow { StepRow(step, |rows|) }
  function RowStep(r: StepRow): Step { r.step }
  function Transitions(r: StepRow): int { r.transitions }

  predicate StepBefore(a: Step, b: Step)
  {
    || TextBefore(a.from, b.from)
    || (a.from == b.from && (
          || TextBefore(a.to, b.to)
          || (a.to == b.to && TextBefore(a.transition, b.transition))))
  }

  predicate MoreTaken(a: StepRow, b: StepRow)
  {
    a.transitions > b.transitions || (a.transitions == b.transitions && StepBefore(a.step, b.step))
  }

  function FoldStep(pairs: set<StepRow>, n: int): StepRow -> Step
  {
    (r: StepRow) => if RowNumber(pairs, MoreTaken, r) <= n then r.step else Step(Other, Other, Other)
  }

  function SumSteps(step: Step, rows: seq<StepRow>): StepRow { StepRow(step, Total(rows, Transitions)) }

  function NavigationQuery(raw: Raw, w: Span, n: int): seq<StepRow>
  {
    var pairs := GroupBy(MovesIn(raw, w), StepOf, CountStep);
    GroupBy(pairs, FoldStep(Pairs(MovesIn(raw, w)), n), SumSteps)
  }

  /** No transition is lost to the fold. */
  lemma NavigationConserves(raw: Raw, w: Span, n: int)
    ensures Total(NavigationQuery(raw, w, n), Transitions) == |MovesIn(raw, w)|
    ensures Unique(NavigationQuery(raw, w, n), RowStep)
  {
    var moves := MovesIn(raw, w);
    var pairs := GroupBy(moves, StepOf, CountStep);
    var fold := FoldStep(Pairs(moves), n);
    forall g: seq<Navigation> ensures Total(g, One<Navigation>) == |g| {
      TotalOne(g);
    }
    GroupTotals(moves, StepOf, CountStep, Transitions, One<Navigation>);
    TotalOne(moves);
    GroupTotals(pairs, fold, SumSteps, Transitions, Transitions);
    GroupByUnique(pairs, fold, SumSteps, RowStep);
  }

  function Pairs(moves: seq<Navigation>): set<StepRow> { set r | r in GroupBy(moves, StepOf, CountStep) }

  lemma StepOrder()
    ensures forall a, b, c :: StepBefore(a, b) && StepBefore(b, c) ==> StepBefore(a, c)
    ensures forall a :: !StepBefore(a, a)
    ensures forall a, b :: a != b ==> StepBefore(a, b) || StepBefore(b, a)
  {
    TextTransitiveAll();
    forall a, b | a != b
      ensures StepBefore(a, b) || StepBefore(b, a)
    {
      assert a.from != b.from || a.to != b.to || a.transition != b.transition;
    }
  }

  lemma OnePairPerStep(moves: seq<Navigation>)
    ensures forall a, b :: a in Pairs(moves) && b in Pairs(moves) && a != b ==> a.step != b.step
  {
    GroupByUnique(moves, StepOf, CountStep, RowStep);
    KeysDiffer(GroupBy(moves, StepOf, CountStep), RowStep);
    assert forall r: StepRow :: RowStep(r) == r.step;
  }

  lemma PairsAreOrdered(moves: seq<Navigation>)
    ensures StrictOrder(Pairs(moves), MoreTaken)
  {
    OnePairPerStep(moves);
    StepOrder();
  }

  /** A step that keeps its name stands alone under it. */
  lemma AloneUnderName(moves: seq<Navigation>, n: int, p: StepRow)
    requires p in Pairs(moves) && FoldStep(Pairs(moves), n)(p) != Step(Other, Other, Other)
    ensures FoldStep(Pairs(moves), n)(p) == p.step
    ensures Group(GroupBy(moves, StepOf, CountStep), FoldStep(Pairs(moves), n), p.step) == [p]
  {
    var pairs, fold := GroupBy(moves, StepOf, CountStep), FoldStep(Pairs(moves), n);
    GroupByUnique(moves, StepOf, CountStep, RowStep);
    forall r | r in pairs && fold(r) == fold(p)
      ensures r == p
    {
      assert r in Pairs(moves);
      OnePairPerStep(moves);
    }
    GroupAlone(pairs, RowStep, fold, p);
  }

  /** A row named after a step is one of the top n steps and counts exactly its transitions. */
  lemma NavigationRowMeaning(raw: Raw, w: Span, n: int, i: nat)
    requires i < |NavigationQuery(raw, w, n)| && NavigationQuery(raw, w, n)[i].step != Step(Other, Other, Other)
    ensures var moves, row := MovesIn(raw, w), NavigationQuery(raw, w, n)[i];
            row in Top(Pairs(moves), MoreTaken, n) && row.transitions == |Group(moves, StepOf, row.step)|
  {
    var moves := MovesIn(raw, w);
    var pairs := GroupBy(moves, StepOf, CountStep);
    var step := GroupByRow(pairs, FoldStep(Pairs(moves), n), SumSteps, i);
    var p :| p in pairs && FoldStep(Pairs(moves), n)(p) == step;
    AloneUnderName(moves, n, p);
    assert Total([p], Transitions) == p.transitions by { assert [p][1..] == []; }
    var j :| 0 <= j < |pairs| && pairs[j] == p;
    var k := GroupByRow(moves, StepOf, CountStep, j);
  }

  /** When a step is folded exactly n steps keep their name, and each was taken more often than any
      folded one, or as often and comes first as text. */
  lemma KeptStepsAreTheTop(moves: seq<Navigation>, n: nat, kept: StepRow, folded: StepRow)
    requires kept in Top(Pairs(moves), MoreTaken, n) && folded in Pairs(moves) - Top(Pairs(moves), MoreTaken, n)
    ensures |Top(Pairs(moves), MoreTaken, n)| == n && MoreTaken(kept, folded)
  {
    PairsAreOrdered(moves);
    TopComesFirst(Pairs(moves), MoreTaken, n, kept, folded);
    TopSize(Pairs(moves), MoreTaken, n);
    SmallerSubset(Top(Pairs(moves), MoreTaken, n), Pairs(moves));
  }
}
