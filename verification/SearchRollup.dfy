/** analytics_rollup_searches, _search_positions and _search_results. A query keeps its name only
    when enough distinct visitors searched it on one UTC day. */
module SearchRollup {
  import opened Common
  import opened Relational
  import opened Ranking
  import opened RawEvents
  import opened SiteRollup
  import opened PageRollup

  /** Clock units in a UTC day. */
  const DayLength: int := 86_400_000_000

  datatype QueryDay = QueryDay(query: string, day: int)
  datatype QueryDayRow = QueryDayRow(key: QueryDay, visitors: int)
  datatype RankedQuery = RankedQuery(query: string, shared: bool, searches: int)
  datatype QueryBucket = QueryBucket(query: string, bucket: string)
  datatype ClickCount = ClickCount(search: int, clicks: int)
  datatype SearchRow = SearchRow(
    query: string, searches: int, visitors: int, zeroResults: int, searchesWithClick: int, clicks: int)

  type JoinedSearch = ((Search, QueryBucket), Option<ClickCount>)

  // ---- sharedQueries ----------------------------------------------------------------

  function DayOf(s: Search): QueryDay { QueryDay(s.query, s.at / DayLength) }
  function CountVisitors(key: QueryDay, rows: seq<Search>): QueryDayRow { QueryDayRow(key, |Values(rows, SearcherOf)|) }

  function Shared(s: seq<Search>, k: int): set<string>
  {
    set r | r in GroupBy(s, DayOf, CountVisitors) && r.visitors >= k :: r.key.query
  }

  /** The distinct visitors who searched a query on a UTC day. */
  function DayVisitors(s: seq<Search>, query: string, day: int): set<string>
  {
    set x | x in s && x.query == query && x.at / DayLength == day :: x.visitor
  }

  // ---- analytics_rollup_searches ----------------------------------------------------

  function RankQuery(s: seq<Search>, k: int): (string, seq<Search>) -> RankedQuery
  {
    var shared := Shared(s, k);
    (query: string, rows: seq<Search>) => RankedQuery(query, query in shared, |rows|)
  }

  function RankedName(r: RankedQuery): string { r.query }
  function RankedQueries(s: seq<Search>, k: int): seq<RankedQuery> { GroupBy(s, QueryOf, RankQuery(s, k)) }
  function RankedSet(s: seq<Search>, k: int): set<RankedQuery> { set r | r in RankedQueries(s, k) }

  /** ORDER BY count(*) DESC, query. */
  predicate MoreSearched(a: RankedQuery, b: RankedQuery)
  {
    a.searches > b.searches || (a.searches == b.searches && TextBefore(a.query, b.query))
  }

  /** ORDER BY shared DESC, count(*) DESC, query. */
  predicate SharedFirst(a: RankedQuery, b: RankedQuery)
  {
    (a.shared && !b.shared) || (a.shared == b.shared && MoreSearched(a, b))
  }

  function QueryBucketIn(ranked: set<RankedQuery>, n: int): RankedQuery -> QueryBucket
  {
    (r: RankedQuery) =>
      QueryBucket(r.query, if r.shared && RowNumber(ranked, SharedFirst, r) <= n then r.query else Other)
  }

  function QueryBuckets(s: seq<Search>, n: int, k: int): seq<QueryBucket>
  {
    Project(RankedQueries(s, k), QueryBucketIn(RankedSet(s, k), n))
  }

  function CountClicks(search: int, rows: seq<Click>): ClickCount { ClickCount(search, |rows|) }
  function CountedSearch(c: ClickCount): int { c.search }
  function ClickCounts(c: seq<Click>): seq<ClickCount> { GroupBy(c, ClickSearch, CountClicks) }

  function BucketQuery(b: QueryBucket): string { b.query }
  function NamedUuid(p: (Search, QueryBucket)): int { p.0.uuid }

  function NamedSearches(s: seq<Search>, n: int, k: int): seq<(Search, QueryBucket)>
  {
    Join(s, QueryBuckets(s, n, k), QueryOf, BucketQuery)
  }

  function JoinedSearches(s: seq<Search>, c: seq<Click>, n: int, k: int): seq<JoinedSearch>
  {
    LeftJoin(NamedSearches(s, n, k), ClickCounts(c), NamedUuid, CountedSearch)
  }

  function SearchBucket(j: JoinedSearch): string { j.0.1.bucket }
  function JoinedVisitor(j: JoinedSearch): string { j.0.0.visitor }
  function JoinedZero(j: JoinedSearch): int { IsZeroResult(j.0.0) }
  function ClicksIn(c: ClickCount): int { c.clicks }
  function JoinedWithClick(j: JoinedSearch): int { OrZero(j.1, One<ClickCount>) }
  function JoinedClicks(j: JoinedSearch): int { OrZero(j.1, ClicksIn) }
  function SumSearches(query: string, rows: seq<JoinedSearch>): SearchRow
  {
    SearchRow(query, |rows|, |Values(rows, JoinedVisitor)|, Total(rows, JoinedZero), Total(rows, JoinedWithClick),
              Total(rows, JoinedClicks))
  }

  function SearchesQuery(raw: Raw, w: Span, n: int, k: int): seq<SearchRow>
  {
    GroupBy(JoinedSearches(SearchesIn(raw, w), ClicksOf(raw, w), n, k), SearchBucket, SumSearches)
  }

  function RowQuery(r: SearchRow): string { r.query }
  function RowSearches(r: SearchRow): int { r.searches }
  function RowZero(r: SearchRow): int { r.zeroResults }
  function RowWithClick(r: SearchRow): int { r.searchesWithClick }
  function RowClicks(r: SearchRow): int { r.clicks }

  // ---- Joins are one to one ---------------------------------------------------------

  lemma QueryBucketsAreKeyed(s: seq<Search>, n: int, k: int)
    ensures Unique(QueryBuckets(s, n, k), BucketQuery)
    ensures Values(QueryBuckets(s, n, k), BucketQuery) == Values(s, QueryOf)
  {
    GroupByUnique(s, QueryOf, RankQuery(s, k), RankedName);
    ProjectKeys(RankedQueries(s, k), QueryBucketIn(RankedSet(s, k), n), RankedName, BucketQuery);
  }

  lemma NamedRows(s: seq<Search>, n: int, k: int)
    ensures |NamedSearches(s, n, k)| == |s|
    ensures forall i :: 0 <= i < |s| ==> NamedSearches(s, n, k)[i].0 == s[i]
    ensures forall i :: 0 <= i < |s| ==>
      NamedSearches(s, n, k)[i].1 in QueryBuckets(s, n, k) && NamedSearches(s, n, k)[i].1.query == s[i].query
  {
    QueryBucketsAreKeyed(s, n, k);
    forall i | 0 <= i < |s|
      ensures QueryOf(s[i]) in Values(QueryBuckets(s, n, k), BucketQuery)
    {
      assert s[i] in s;
    }
    JoinOnKey(s, QueryBuckets(s, n, k), QueryOf, BucketQuery);
  }

  lemma JoinedSearchRows(s: seq<Search>, c: seq<Click>, n: int, k: int)
    ensures |JoinedSearches(s, c, n, k)| == |NamedSearches(s, n, k)| == |s|
    ensures forall i :: 0 <= i < |s| ==>
      JoinedSearches(s, c, n, k)[i] == (NamedSearches(s, n, k)[i], Lookup(ClickCounts(c), CountedSearch, s[i].uuid))
  {
    GroupByUnique(c, ClickSearch, CountClicks, CountedSearch);
    NamedRows(s, n, k);
    LeftJoinOnKey(NamedSearches(s, n, k), ClickCounts(c), NamedUuid, CountedSearch);
  }

  // ---- Totals agree -----------------------------------------------------------------

  /** Every click joins the one search it belongs to. */
  lemma ClickTotals(s: seq<Search>, c: seq<Click>, n: int, k: int)
    requires Unique(s, SearchUuid) && Values(c, ClickSearch) <= Values(s, SearchUuid)
    ensures Total(JoinedSearches(s, c, n, k), JoinedWithClick) == |Values(c, ClickSearch)|
    ensures Total(JoinedSearches(s, c, n, k), JoinedClicks) == |c|
  {
    var named, counts := NamedSearches(s, n, k), ClickCounts(c);
    NamedRows(s, n, k);
    assert Unique(named, NamedUuid) && Values(named, NamedUuid) == Values(s, SearchUuid) by {
      assert forall i :: 0 <= i < |s| ==> NamedUuid(named[i]) == SearchUuid(s[i]) && named[i] in named && s[i] in s;
    }
    GroupByUnique(c, ClickSearch, CountClicks, CountedSearch);
    UnmatchedRows(named, counts, NamedUuid, CountedSearch);
    var alone := Unmatched(named, counts, NamedUuid, CountedSearch);
    assert forall b :: b in counts ==> CountedSearch(b) in Values(counts, CountedSearch);
    NoMembers(alone);
    RightTotal(named, counts, NamedUuid, CountedSearch, One<ClickCount>, JoinedWithClick);
    RightTotal(named, counts, NamedUuid, CountedSearch, ClicksIn, JoinedClicks);
    TotalOne(counts);
    forall g: seq<Click> ensures Total(g, One<Click>) == |g| {
      TotalOne(g);
    }
    GroupTotals(c, ClickSearch, CountClicks, ClicksIn, One<Click>);
  }

  lemma NoMembers<T>(rows: seq<T>)
    ensures rows == [] || exists r :: r in rows
  {
    if rows != [] {
      assert rows[0] in rows;
    }
  }

  lemma ClicksBelong(raw: Raw, w: Span)
    ensures Values(ClicksOf(raw, w), ClickSearch) <= Values(SearchesIn(raw, w), SearchUuid)
  {
    forall c | c in ClicksOf(raw, w)
      ensures ClickSearch(c) in Values(SearchesIn(raw, w), SearchUuid)
    {
      AmongMember(raw.clicks, ClickSearch, Values(SearchesIn(raw, w), SearchUuid), c);
    }
  }

  /** The searches rollup conserves the site row: searches, zero results, searches with a click
      and clicks each add up to the site's. */
  lemma SearchesConserveSite(raw: Raw, firstSeen: map<int, int>, w: Span, n: int, k: int)
    requires ValidRaw(raw)
    ensures var rows, site := SearchesQuery(raw, w, n, k), SiteQuery(raw, firstSeen, w);
            && Total(rows, RowSearches) == site.searches
            && Total(rows, RowZero) == site.zeroResults
            && Total(rows, RowWithClick) == site.searchesWithClick
            && Total(rows, RowClicks) == site.searchClicks
            && Unique(rows, RowQuery)
  {
    var s, c := SearchesIn(raw, w), ClicksOf(raw, w);
    var joined := JoinedSearches(s, c, n, k);
    BetweenUnique(raw.searches, SearchAt, w.from, w.to, SearchUuid);
    ClicksBelong(raw, w);
    NamedRows(s, n, k);
    JoinedSearchRows(s, c, n, k);
    ClickTotals(s, c, n, k);
    forall g: seq<JoinedSearch> ensures Total(g, One<JoinedSearch>) == |g| {
      TotalOne(g);
    }
    GroupTotals(joined, SearchBucket, SumSearches, RowSearches, One<JoinedSearch>);
    GroupTotals(joined, SearchBucket, SumSearches, RowZero, JoinedZero);
    GroupTotals(joined, SearchBucket, SumSearches, RowWithClick, JoinedWithClick);
    GroupTotals(joined, SearchBucket, SumSearches, RowClicks, JoinedClicks);
    TotalEqual(joined, s, JoinedZero, IsZeroResult);
    GroupByUnique(joined, SearchBucket, SumSearches, RowQuery);
  }

  // ---- Which queries keep their name ------------------------------------------------

  lemma SharedMeaning(s: seq<Search>, k: int, query: string)
    requires k >= 1
    ensures query in Shared(s, k) <==> exists day :: |DayVisitors(s, query, day)| >= k
  {
    forall day
      ensures Values(Group(s, DayOf, QueryDay(query, day)), SearcherOf) == DayVisitors(s, query, day)
    {
      var rows := Group(s, DayOf, QueryDay(query, day));
      forall x ensures x in rows <==> x in s && x.query == query && x.at / DayLength == day {
        GroupMember(s, DayOf, QueryDay(query, day), x);
      }
    }
    if query in Shared(s, k) {
      var r :| r in GroupBy(s, DayOf, CountVisitors) && r.visitors >= k && r.key.query == query;
      var i :| 0 <= i < |GroupBy(s, DayOf, CountVisitors)| && GroupBy(s, DayOf, CountVisitors)[i] == r;
      var key := GroupByRow(s, DayOf, CountVisitors, i);
      assert |DayVisitors(s, query, key.day)| >= k;
    }
    if day :| |DayVisitors(s, query, day)| >= k {
      assert DayVisitors(s, query, day) != {};
      var x :| x in s && x.query == query && x.at / DayLength == day;
      assert DayOf(x) in Values(s, DayOf);
      GroupByHas(s, DayOf, CountVisitors, QueryDay(query, day));
    }
  }

  lemma OneRankPerQuery(s: seq<Search>, k: int)
    ensures forall a, b :: a in RankedSet(s, k) && b in RankedSet(s, k) && a != b ==> a.query != b.query
    ensures forall r :: r in RankedSet(s, k) ==>
              && r == RankedQuery(r.query, r.query in Shared(s, k), |Group(s, QueryOf, r.query)|)
              && r.query in Values(s, QueryOf)
  {
    var rows := RankedQueries(s, k);
    GroupByUnique(s, QueryOf, RankQuery(s, k), RankedName);
    KeysDiffer(rows, RankedName);
    assert forall r: RankedQuery :: RankedName(r) == r.query;
    forall r | r in RankedSet(s, k)
      ensures r == RankedQuery(r.query, r.query in Shared(s, k), |Group(s, QueryOf, r.query)|)
      ensures r.query in Values(s, QueryOf)
    {
      var i :| 0 <= i < |rows| && rows[i] == r;
      var q := GroupByRow(s, QueryOf, RankQuery(s, k), i);
    }
  }

  lemma RanksAreOrdered(s: seq<Search>, k: int)
    ensures StrictOrder(RankedSet(s, k), SharedFirst)
  {
    OneRankPerQuery(s, k);
    TextTransitiveAll();
  }

  /** The shared queries, each with its count. */
  function SharedSet(s: seq<Search>, k: int): set<RankedQuery> { set r | r in RankedSet(s, k) && r.shared }

  /** The rows the query keeps by name. */
  function KeptRanks(s: seq<Search>, n: int, k: int): set<RankedQuery>
  {
    set r | r in Top(RankedSet(s, k), SharedFirst, n) && r.shared
  }

  function KeptQueries(s: seq<Search>, n: int, k: int): set<string> { set r | r in KeptRanks(s, n, k) :: r.query }

  /** Unshared queries never take a slot: what is kept is the top n of the shared queries alone,
      by count, then text. */
  lemma KeptAreTopShared(s: seq<Search>, n: int, k: int)
    ensures StrictOrder(SharedSet(s, k), MoreSearched)
    ensures KeptRanks(s, n, k) == Top(SharedSet(s, k), MoreSearched, n)
  {
    var all, shared := RankedSet(s, k), SharedSet(s, k);
    RanksAreOrdered(s, k);
    OneRankPerQuery(s, k);
    TextTransitiveAll();
    forall r | r in shared
      ensures RowNumber(all, SharedFirst, r) == RowNumber(shared, MoreSearched, r)
    {
      assert Preceding(all, SharedFirst, r) == Preceding(shared, MoreSearched, r);
    }
  }

  lemma SharedAreRanked(s: seq<Search>, k: int)
    ensures (set r | r in SharedSet(s, k) :: RankedName(r)) == Shared(s, k)
  {
    OneRankPerQuery(s, k);
    forall q | q in Shared(s, k)
      ensures q in (set r | r in SharedSet(s, k) :: RankedName(r))
    {
      var d :| d in GroupBy(s, DayOf, CountVisitors) && d.visitors >= k && d.key.query == q;
      var i :| 0 <= i < |GroupBy(s, DayOf, CountVisitors)| && GroupBy(s, DayOf, CountVisitors)[i] == d;
      var key := GroupByRow(s, DayOf, CountVisitors, i);
      var x :| x in s && DayOf(x) == key;
      assert QueryOf(x) == q;
      GroupByHas(s, QueryOf, RankQuery(s, k), q);
      var r := RankQuery(s, k)(q, Group(s, QueryOf, q));
      assert r in SharedSet(s, k) && RankedName(r) == q;
    }
  }

  /** Exactly min(n, shared queries) names are kept, all of them shared. */
  lemma KeptQueriesCount(s: seq<Search>, n: nat, k: int)
    ensures |KeptQueries(s, n, k)| == Min(n, |Shared(s, k)|)
    ensures KeptQueries(s, n, k) <= Shared(s, k)
  {
    OneRankPerQuery(s, k);
    KeptAreTopShared(s, n, k);
    SharedAreRanked(s, k);
    InjectiveImage(SharedSet(s, k), RankedName, Shared(s, k));
    TopSize(SharedSet(s, k), MoreSearched, n);
    InjectiveImage(KeptRanks(s, n, k), RankedName, KeptQueries(s, n, k));
  }

  /** Every kept query comes before every shared query that was folded: it was searched more
      often, or as often and is smaller as text. */
  lemma KeptQueriesComeFirst(s: seq<Search>, n: int, k: int, kept: string, folded: string)
    requires kept in KeptQueries(s, n, k) && folded in Shared(s, k) - KeptQueries(s, n, k)
    ensures var a, b := |Group(s, QueryOf, kept)|, |Group(s, QueryOf, folded)|;
            a > b || (a == b && TextBefore(kept, folded))
  {
    OneRankPerQuery(s, k);
    KeptAreTopShared(s, n, k);
    SharedAreRanked(s, k);
    var a :| a in KeptRanks(s, n, k) && a.query == kept;
    assert folded in (set r | r in SharedSet(s, k) :: RankedName(r));
    var b :| b in SharedSet(s, k) && RankedName(b) == folded;
    assert b !in KeptRanks(s, n, k);
    TopComesFirst(SharedSet(s, k), MoreSearched, n, a, b);
  }

  // ---- What each row means ----------------------------------------------------------

  /** The name a search is counted under. */
  function FoldSearch(s: seq<Search>, n: int, k: int): Search -> string
  {
    var kept := KeptQueries(s, n, k);
    (x: Search) => if x.query in kept then x.query else Other
  }

  function ClicksOn(c: seq<Click>): Search -> int { (x: Search) => |Group(c, ClickSearch, x.uuid)| }
  function ClickedOn(c: seq<Click>): Search -> int
  {
    (x: Search) => if x.uuid in Values(c, ClickSearch) then 1 else 0
  }

  /** The row of a name, counted directly on the searches under it and their clicks. */
  function DirectSearch(s: seq<Search>, c: seq<Click>, n: int, k: int, name: string): SearchRow
  {
    var under := Group(s, FoldSearch(s, n, k), name);
    SearchRow(name, |under|, |Values(under, SearcherOf)|, Total(under, IsZeroResult), Total(under, ClickedOn(c)),
              Total(under, ClicksOn(c)))
  }

  lemma QueryBucketIsFold(s: seq<Search>, n: int, k: int, b: QueryBucket, x: Search)
    requires b in QueryBuckets(s, n, k) && x.query == b.query
    ensures b.bucket == FoldSearch(s, n, k)(x)
  {
    var rows := RankedQueries(s, k);
    var i :| 0 <= i < |rows| && b == QueryBucketIn(RankedSet(s, k), n)(rows[i]);
    OneRankPerQuery(s, k);
    if rows[i].shared && RowNumber(RankedSet(s, k), SharedFirst, rows[i]) <= n {
      assert rows[i] in KeptRanks(s, n, k);
    }
  }

  lemma JoinedSearchMeaning(s: seq<Search>, c: seq<Click>, n: int, k: int, i: nat)
    requires i < |s|
    ensures |JoinedSearches(s, c, n, k)| == |s|
    ensures var j := JoinedSearches(s, c, n, k)[i];
            && j.0.0 == s[i]
            && SearchBucket(j) == FoldSearch(s, n, k)(s[i])
            && JoinedWithClick(j) == ClickedOn(c)(s[i])
            && JoinedClicks(j) == ClicksOn(c)(s[i])
  {
    NamedRows(s, n, k);
    JoinedSearchRows(s, c, n, k);
    QueryBucketIsFold(s, n, k, NamedSearches(s, n, k)[i].1, s[i]);
    GroupByLookup(c, ClickSearch, CountClicks, CountedSearch, s[i].uuid);
  }

  lemma SearchGroupTotal(
    s: seq<Search>, c: seq<Click>, n: int, k: int, name: string, joined: JoinedSearch -> int, weight: Search -> int)
    requires forall i :: 0 <= i < |s| && i < |JoinedSearches(s, c, n, k)| ==>
               joined(JoinedSearches(s, c, n, k)[i]) == weight(s[i])
    ensures Total(Group(JoinedSearches(s, c, n, k), SearchBucket, name), joined) ==
            Total(Group(s, FoldSearch(s, n, k), name), weight)
  {
    var rows := JoinedSearches(s, c, n, k);
    var filtered := (j: JoinedSearch) => if SearchBucket(j) == name then joined(j) else 0;
    var direct := (x: Search) => if FoldSearch(s, n, k)(x) == name then weight(x) else 0;
    GroupAsFilter(rows, SearchBucket, name, joined, filtered);
    GroupAsFilter(s, FoldSearch(s, n, k), name, weight, direct);
    JoinedSearchRows(s, c, n, k);
    forall i | 0 <= i < |s|
      ensures filtered(rows[i]) == direct(s[i])
    {
      JoinedSearchMeaning(s, c, n, k, i);
    }
    TotalEqual(rows, s, filtered, direct);
  }

  lemma SearchGroupVisitors(s: seq<Search>, c: seq<Click>, n: int, k: int, name: string)
    ensures Values(Group(JoinedSearches(s, c, n, k), SearchBucket, name), JoinedVisitor) ==
            Values(Group(s, FoldSearch(s, n, k), name), SearcherOf)
  {
    var rows, fold := JoinedSearches(s, c, n, k), FoldSearch(s, n, k);
    var group, under := Group(rows, SearchBucket, name), Group(s, fold, name);
    JoinedSearchRows(s, c, n, k);
    forall v | v in Values(group, JoinedVisitor)
      ensures v in Values(under, SearcherOf)
    {
      var j :| j in group && JoinedVisitor(j) == v;
      GroupMember(rows, SearchBucket, name, j);
      var i :| 0 <= i < |rows| && rows[i] == j;
      JoinedSearchMeaning(s, c, n, k, i);
      GroupMember(s, fold, name, s[i]);
    }
    forall x | x in under
      ensures x.visitor in Values(group, JoinedVisitor)
    {
      GroupMember(s, fold, name, x);
      var i :| 0 <= i < |s| && s[i] == x;
      JoinedSearchMeaning(s, c, n, k, i);
      GroupMember(rows, SearchBucket, name, rows[i]);
    }
  }

  /** Every row of the searches rollup is the direct count of its name on the raw events. */
  lemma SearchRowMeaning(raw: Raw, w: Span, n: int, k: int, i: nat)
    requires i < |SearchesQuery(raw, w, n, k)|
    ensures var row := SearchesQuery(raw, w, n, k)[i];
            row == DirectSearch(SearchesIn(raw, w), ClicksOf(raw, w), n, k, row.query)
  {
    var s, c := SearchesIn(raw, w), ClicksOf(raw, w);
    var rows := JoinedSearches(s, c, n, k);
    var name := GroupByRow(rows, SearchBucket, SumSearches, i);
    forall i | 0 <= i < |s| && i < |rows|
      ensures && rows[i].0.0 == s[i]
              && JoinedWithClick(rows[i]) == ClickedOn(c)(s[i])
              && JoinedClicks(rows[i]) == ClicksOn(c)(s[i])
    {
      JoinedSearchMeaning(s, c, n, k, i);
    }
    SearchGroupTotal(s, c, n, k, name, One<JoinedSearch>, One<Search>);
    SearchGroupTotal(s, c, n, k, name, JoinedZero, IsZeroResult);
    SearchGroupTotal(s, c, n, k, name, JoinedWithClick, ClickedOn(c));
    SearchGroupTotal(s, c, n, k, name, JoinedClicks, ClicksOn(c));
    SearchGroupVisitors(s, c, n, k, name);
    TotalOne(Group(rows, SearchBucket, name));
    TotalOne(Group(s, FoldSearch(s, n, k), name));
  }

  /** A named row was searched by at least k distinct visitors on one UTC day, and counts exactly
      the searches of its query. */
  lemma NamedRowsAreShared(raw: Raw, w: Span, n: int, k: int, i: nat)
    requires k >= 1 && i < |SearchesQuery(raw, w, n, k)| && SearchesQuery(raw, w, n, k)[i].query != Other
    ensures var s, row := SearchesIn(raw, w), SearchesQuery(raw, w, n, k)[i];
            && row.query in KeptQueries(s, n, k)
            && (exists day :: |DayVisitors(s, row.query, day)| >= k)
            && row.searches == |Group(s, QueryOf, row.query)|
  {
    var s, row := SearchesIn(raw, w), SearchesQuery(raw, w, n, k)[i];
    var rows := JoinedSearches(s, ClicksOf(raw, w), n, k);
    SearchRowMeaning(raw, w, n, k, i);
    var name := GroupByRow(rows, SearchBucket, SumSearches, i);
    var j :| j in rows && SearchBucket(j) == name;
    var at :| 0 <= at < |rows| && rows[at] == j;
    JoinedSearchRows(s, ClicksOf(raw, w), n, k);
    JoinedSearchMeaning(s, ClicksOf(raw, w), n, k, at);
    OneRankPerQuery(s, k);
    assert row.query in Shared(s, k);
    SharedMeaning(s, k, row.query);
    SameGroup(s, FoldSearch(s, n, k), QueryOf, row.query);
  }

  /** The folded bucket's name is not reserved among queries: a kept query spelled "(other)" shares
      the row of the folded ones. The row counts that query alone exactly when nothing is folded. */
  lemma OtherRowExact(raw: Raw, w: Span, n: int, k: int, i: nat)
    requires i < |SearchesQuery(raw, w, n, k)| && SearchesQuery(raw, w, n, k)[i].query == Other
    ensures var s := SearchesIn(raw, w);
            SearchesQuery(raw, w, n, k)[i].searches == |Group(s, QueryOf, Other)| <==>
            forall x :: x in s ==> x.query in KeptQueries(s, n, k) || x.query == Other
  {
    var s := SearchesIn(raw, w);
    SearchRowMeaning(raw, w, n, k, i);
    WiderGroup(s, FoldSearch(s, n, k), QueryOf, Other);
  }

  /** Every search is counted in the row of its folded query. */
  lemma SearchNames(raw: Raw, w: Span, n: int, k: int, x: Search) returns (i: nat)
    requires x in SearchesIn(raw, w)
    ensures i < |SearchesQuery(raw, w, n, k)|
    ensures SearchesQuery(raw, w, n, k)[i].query == FoldSearch(SearchesIn(raw, w), n, k)(x)
  {
    var s := SearchesIn(raw, w);
    var rows := JoinedSearches(s, ClicksOf(raw, w), n, k);
    var at :| 0 <= at < |s| && s[at] == x;
    JoinedSearchMeaning(s, ClicksOf(raw, w), n, k, at);
    assert rows[at] in rows;
    GroupByHas(rows, SearchBucket, SumSearches, SearchBucket(rows[at]));
    var row := SumSearches(SearchBucket(rows[at]), Group(rows, SearchBucket, SearchBucket(rows[at])));
    i :| 0 <= i < |SearchesQuery(raw, w, n, k)| && SearchesQuery(raw, w, n, k)[i] == row;
  }

  /** With the real minimum of two visitors and any cap: "(other)", searched by two visitors, keeps its
      name, and its row counts the search of a query that one visitor typed as well. */
  lemma OtherQueryShares(at: int, n: nat) returns (i: nat)
    requires n >= 1
    ensures var raw := Raw([], [], [], OtherSearches(at), []);
            var w, s := Span(at, at + 1), OtherSearches(at);
            && SearchesIn(raw, w) == s && KeptQueries(s, n, MinVisitors) == Shared(s, MinVisitors) == {Other}
            && i < |SearchesQuery(raw, w, n, MinVisitors)| && SearchesQuery(raw, w, n, MinVisitors)[i].query == Other
            && SearchesQuery(raw, w, n, MinVisitors)[i].searches == 3 && |Group(s, QueryOf, Other)| == 2
  {
    var s := OtherSearches(at);
    var raw, w := Raw([], [], [], s, []), Span(at, at + 1);
    AllInSpan(s, at);
    OnlyOtherShared(at);
    KeptQueriesCount(s, n, MinVisitors);
    SmallerSubset(KeptQueries(s, n, MinVisitors), {Other});
    assert s[0] in s;
    i := SearchNames(raw, w, n, MinVisitors, s[0]);
    SearchRowMeaning(raw, w, n, MinVisitors, i);
    AllFolded(s, FoldSearch(s, n, MinVisitors), Other);
    OtherTwice(at);
  }

  /** domain.MinQueryVisitors. */
  const MinVisitors: int := 2

  /** One UTC day: "(other)" by two visitors, "x" by a third. */
  function OtherSearches(at: int): seq<Search>
  {
    [Search(1, "a", Other, 1, at), Search(2, "b", Other, 1, at), Search(3, "c", "x", 1, at)]
  }

  lemma {:induction false} AllInSpan(s: seq<Search>, at: int)
    requires forall i :: 0 <= i < |s| ==> s[i].at == at
    ensures Between(s, SearchAt, at, at + 1) == s
  {
    if s != [] {
      AllInSpan(s[1..], at);
      assert s == [s[0]] + s[1..];
    }
  }

  lemma {:induction false} AllFolded(s: seq<Search>, fold: Search -> string, name: string)
    requires forall i :: 0 <= i < |s| ==> fold(s[i]) == name
    ensures Group(s, fold, name) == s
  {
    if s != [] {
      AllFolded(s[1..], fold, name);
      assert s == [s[0]] + s[1..];
    }
  }

  lemma OtherTwice(at: int)
    ensures |Group(OtherSearches(at), QueryOf, Other)| == 2
  {
    var s := OtherSearches(at);
    assert s == [s[0]] + s[1..] && s[1..] == [s[1]] + s[2..] && s[2..] == [s[2]];
    assert Other != "x" by { assert |Other| != |"x"|; }
    GroupOfOne(s[2], QueryOf, Other);
    assert Group(s[1..], QueryOf, Other) == [s[1]] + Group(s[1..][1..], QueryOf, Other);
    assert Group(s, QueryOf, Other) == [s[0]] + Group(s[1..], QueryOf, Other);
  }

  lemma OnlyOtherShared(at: int)
    ensures Shared(OtherSearches(at), MinVisitors) == {Other}
  {
    var s, day := OtherSearches(at), at / DayLength;
    assert s[0] in s && s[1] in s;
    SmallerSubset({"a", "b"}, DayVisitors(s, Other, day));
    forall q
      ensures q in Shared(s, MinVisitors) <==> q == Other
    {
      SharedMeaning(s, MinVisitors, q);
      if q != Other {
        forall d ensures |DayVisitors(s, q, d)| < 2 {
          SmallerSubset(DayVisitors(s, q, d), {"c"});
        }
      }
    }
  }

  lemma {:induction false} WiderGroup<T, K>(rows: seq<T>, wide: T -> K, narrow: T -> K, k: K)
    requires forall r :: r in rows && narrow(r) == k ==> wide(r) == k
    ensures |Group(rows, narrow, k)| <= |Group(rows, wide, k)|
    ensures |Group(rows, narrow, k)| == |Group(rows, wide, k)| <==>
            forall r :: r in rows && wide(r) == k ==> narrow(r) == k
  {
    if rows != [] {
      WiderGroup(rows[1..], wide, narrow, k);
      assert forall r :: r in rows <==> r == rows[0] || r in rows[1..];
    }
  }

  lemma {:induction false} SameGroup<T, K>(rows: seq<T>, f: T -> K, g: T -> K, k: K)
    requires forall r :: r in rows ==> (f(r) == k <==> g(r) == k)
    ensures Group(rows, f, k) == Group(rows, g, k)
  {
    if rows != [] {
      SameGroup(rows[1..], f, g, k);
    }
  }

  // ---- analytics_rollup_search_positions --------------------------------------------

  datatype PositionRow = PositionRow(position: int, clicks: int)

  type ClickedSearch = (Click, Search)

  function ClickedPosition(p: ClickedSearch): int { p.0.position }
  function CountPosition(position: int, rows: seq<ClickedSearch>): PositionRow { PositionRow(position, |rows|) }
  function RowPosition(r: PositionRow): int { r.position }
  function PositionClicks(r: PositionRow): int { r.clicks }

  function ClickedSearches(raw: Raw, w: Span): seq<ClickedSearch>
  {
    Join(raw.clicks, SearchesIn(raw, w), ClickSearch, SearchUuid)
  }

  function PositionsQuery(raw: Raw, w: Span): seq<PositionRow>
  {
    GroupBy(ClickedSearches(raw, w), ClickedPosition, CountPosition)
  }

  /** Clicks per position add up to the site's search clicks; each position has one row. */
  lemma PositionsConserveSite(raw: Raw, firstSeen: map<int, int>, w: Span)
    requires ValidRaw(raw)
    ensures Total(PositionsQuery(raw, w), PositionClicks) == SiteQuery(raw, firstSeen, w).searchClicks
    ensures Unique(PositionsQuery(raw, w), RowPosition)
  {
    var rows := ClickedSearches(raw, w);
    BetweenUnique(raw.searches, SearchAt, w.from, w.to, SearchUuid);
    JoinIsAmong(raw.clicks, SearchesIn(raw, w), ClickSearch, SearchUuid);
    forall g: seq<ClickedSearch> ensures Total(g, One<ClickedSearch>) == |g| {
      TotalOne(g);
    }
    GroupTotals(rows, ClickedPosition, CountPosition, PositionClicks, One<ClickedSearch>);
    GroupByUnique(rows, ClickedPosition, CountPosition, RowPosition);
  }

  // ---- analytics_rollup_search_results ----------------------------------------------

  datatype ResultKey = ResultKey(query: string, resourceType: string, resource: int)
  datatype ResultRow = ResultRow(key: ResultKey, clicks: int)

  function ResultOf(p: ClickedSearch): ResultKey { ResultKey(p.1.query, p.0.resourceType, p.0.resource) }
  function CountResult(key: ResultKey, rows: seq<ClickedSearch>): ResultRow { ResultRow(key, |rows|) }
  function RowResult(r: ResultRow): ResultKey { r.key }
  function ClickedQuery(p: ClickedSearch): string { p.1.query }

  predicate KeyBefore(a: ResultKey, b: ResultKey)
  {
    || TextBefore(a.query, b.query)
    || (a.query == b.query && (
          || TextBefore(a.resourceType, b.resourceType)
          || (a.resourceType == b.resourceType && a.resource < b.resource)))
  }

  /** ORDER BY count(*) DESC, 3, 4, 5. */
  predicate MoreClicked(a: ResultRow, b: ResultRow)
  {
    a.clicks > b.clicks || (a.clicks == b.clicks && KeyBefore(a.key, b.key))
  }

  function AllResults(raw: Raw, w: Span, k: int): seq<ResultRow>
  {
    GroupBy(Among(ClickedSearches(raw, w), ClickedQuery, Shared(SearchesIn(raw, w), k)), ResultOf, CountResult)
  }

  /** The result rows LIMIT n keeps: those numbered up to n. */
  function ResultsQuery(raw: Raw, w: Span, n: int, k: int): seq<ResultRow>
  {
    Limit(AllResults(raw, w, k), (set r | r in AllResults(raw, w, k)), n)
  }

  function Limit(rows: seq<ResultRow>, all: set<ResultRow>, n: int): (out: seq<ResultRow>)
    ensures forall r :: r in out <==> r in rows && RowNumber(all, MoreClicked, r) <= n
  {
    if rows == [] then []
    else if RowNumber(all, MoreClicked, rows[0]) <= n then [rows[0]] + Limit(rows[1..], all, n)
    else Limit(rows[1..], all, n)
  }

  lemma {:induction false} LimitUnique(rows: seq<ResultRow>, all: set<ResultRow>, n: int)
    requires Unique(rows, RowResult)
    ensures Unique(Limit(rows, all, n), RowResult)
  {
    if rows != [] {
      UniqueCons(rows, RowResult);
      LimitUnique(rows[1..], all, n);
      if RowNumber(all, MoreClicked, rows[0]) <= n {
        UniqueCons(Limit(rows, all, n), RowResult);
      }
    }
  }

  /** The clicks of the period on one result of one query. */
  function ResultClicks(raw: Raw, w: Span, key: ResultKey): seq<ClickedSearch>
  {
    Group(ClickedSearches(raw, w), ResultOf, key)
  }

  /** Every clicked result kept belongs to a query at least k distinct visitors searched on one
      UTC day, with the number of clicks on it; exactly min(n, results) are kept, each once, and none
      left out has more clicks. */
  lemma ResultRowsAreShared(raw: Raw, w: Span, n: nat, k: int, r: ResultRow)
    requires ValidRaw(raw) && k >= 1 && r in ResultsQuery(raw, w, n, k)
    ensures exists day :: |DayVisitors(SearchesIn(raw, w), r.key.query, day)| >= k
    ensures r.clicks == |ResultClicks(raw, w, r.key)|
    ensures Unique(ResultsQuery(raw, w, n, k), RowResult)
    ensures |ResultsQuery(raw, w, n, k)| == Min(n, |AllResults(raw, w, k)|)
    ensures forall q :: q in AllResults(raw, w, k) && q !in ResultsQuery(raw, w, n, k) ==> MoreClicked(r, q)
  {
    var shared := Shared(SearchesIn(raw, w), k);
    var clicked := Among(ClickedSearches(raw, w), ClickedQuery, shared);
    var rows := AllResults(raw, w, k);
    var i :| 0 <= i < |rows| && rows[i] == r;
    var key := GroupByRow(clicked, ResultOf, CountResult, i);
    var p :| p in clicked && ResultOf(p) == key;
    AmongMember(ClickedSearches(raw, w), ClickedQuery, shared, p);
    SharedMeaning(SearchesIn(raw, w), k, r.key.query);
    GroupOfAmong(ClickedSearches(raw, w), ClickedQuery, shared, ResultOf, key);
    ResultsAreTop(raw, w, n, k, r);
  }

  /** Filtering on a part of the grouping key keeps whole groups. */
  lemma {:induction false} GroupOfAmong(rows: seq<ClickedSearch>, part: ClickedSearch -> string, kept: set<string>,
                                        key: ClickedSearch -> ResultKey, k: ResultKey)
    requires forall p :: p in rows && key(p) == k ==> part(p) in kept
    ensures Group(Among(rows, part, kept), key, k) == Group(rows, key, k)
  {
    if rows != [] {
      GroupOfAmong(rows[1..], part, kept, key, k);
    }
  }

  lemma ResultsAreOrdered(rows: seq<ResultRow>, all: set<ResultRow>)
    requires Unique(rows, RowResult) && all == set r | r in rows
    ensures StrictOrder(all, MoreClicked)
  {
    KeysDiffer(rows, RowResult);
    assert forall r: ResultRow :: RowResult(r) == r.key;
    TextTransitiveAll();
  }

  lemma ResultsAreTop(raw: Raw, w: Span, n: nat, k: int, r: ResultRow)
    requires r in ResultsQuery(raw, w, n, k)
    ensures Unique(ResultsQuery(raw, w, n, k), RowResult)
    ensures |ResultsQuery(raw, w, n, k)| == Min(n, |AllResults(raw, w, k)|)
    ensures forall q :: q in AllResults(raw, w, k) && q !in ResultsQuery(raw, w, n, k) ==> MoreClicked(r, q)
  {
    var rows, shared := AllResults(raw, w, k), Shared(SearchesIn(raw, w), k);
    GroupByUnique(Among(ClickedSearches(raw, w), ClickedQuery, shared), ResultOf, CountResult, RowResult);
    LimitIsTop(rows, (set q | q in rows), n, r);
  }

  lemma LimitIsTop(rows: seq<ResultRow>, all: set<ResultRow>, n: nat, r: ResultRow)
    requires Unique(rows, RowResult) && all == (set q | q in rows) && r in Limit(rows, all, n)
    ensures Unique(Limit(rows, all, n), RowResult) && |Limit(rows, all, n)| == Min(n, |rows|)
    ensures forall q :: q in rows && q !in Limit(rows, all, n) ==> MoreClicked(r, q)
  {
    var out := Limit(rows, all, n);
    LimitUnique(rows, all, n);
    ResultsAreOrdered(rows, all);
    UniqueSize(out, RowResult);
    TopSize(all, MoreClicked, n);
    KeysDiffer(rows, RowResult);
    InjectiveImage(Top(all, MoreClicked, n), RowResult, Values(out, RowResult));
    UniqueSize(rows, RowResult);
    InjectiveImage(all, RowResult, Values(rows, RowResult));
    forall q | q in rows && q !in out
      ensures MoreClicked(r, q)
    {
      TopComesFirst(all, MoreClicked, n, r, q);
    }
  }
}
