/** The rollup tables and the jobs that rebuild them. */
module RollupStore {
  import opened Common
  import opened Relational
  import opened RawEvents
  import opened SiteRollup
  import opened PageRollup
  import opened SearchRollup
  import Audience = AudienceRollup
  import opened FirstSeen

  datatype Grain = Day | Week | Month

  /** One rollup bucket: date is the number of its first local day, span its bounds. */
  datatype Period = Period(grain: Grain, date: int, span: Span)

  datatype Table = Site | Pages | Referrers | Dimensions | Moves | Searches | Positions | Results

  datatype Row =
    | OfSite(site: SiteRow)
    | OfPage(page: PageRow)
    | OfReferrer(referrer: Audience.HostRow)
    | OfDimension(dimension: Audience.DimensionRow)
    | OfMove(move: Audience.StepRow)
    | OfSearch(search: SearchRow)
    | OfPosition(position: PositionRow)
    | OfResult(result: ResultRow)

  datatype Stored = Stored(grain: Grain, date: int, row: Row)

  /** What a recompute needs besides the raw events: the top-n cap and the minimum visitors. */
  datatype Caps = Caps(n: int, k: int)

  /** rollupTables, in the order of rollupQueries. */
  const Order: seq<Table> := [Site, Pages, Referrers, Dimensions, Moves, Searches, Positions, Results]

  function Query(t: Table, raw: Raw, firstSeen: map<int, int>, w: Span, caps: Caps): seq<Row>
  {
    match t
    case Site => [OfSite(SiteQuery(raw, firstSeen, w))]
    case Pages => Project(PagesQuery(raw, w, caps.n), (r: PageRow) => OfPage(r))
    case Referrers => Project(Audience.ReferrersQuery(raw, w, caps.n), (r: Audience.HostRow) => OfReferrer(r))
    case Dimensions => Project(Audience.DimensionsQuery(raw, w), (r: Audience.DimensionRow) => OfDimension(r))
    case Moves => Project(Audience.NavigationQuery(raw, w, caps.n), (r: Audience.StepRow) => OfMove(r))
    case Searches => Project(SearchesQuery(raw, w, caps.n, caps.k), (r: SearchRow) => OfSearch(r))
    case Positions => Project(PositionsQuery(raw, w), (r: PositionRow) => OfPosition(r))
    case Results => Project(ResultsQuery(raw, w, caps.n, caps.k), (r: ResultRow) => OfResult(r))
  }

  function Stamp(p: Period): Row -> Stored { (r: Row) => Stored(p.grain, p.date, r) }

  /** DELETE ... WHERE grain = ? AND period_start = ?. */
  function Cleared(rows: seq<Stored>, p: Period): seq<Stored>
  {
    if rows == [] then []
    else if rows[0].grain == p.grain && rows[0].date == p.date then Cleared(rows[1..], p)
    else [rows[0]] + Cleared(rows[1..], p)
  }

  /** DELETE ... WHERE period_start >= ?. */
  function CutFrom(rows: seq<Stored>, date: int): seq<Stored>
  {
    if rows == [] then []
    else if rows[0].date >= date then CutFrom(rows[1..], date)
    else [rows[0]] + CutFrom(rows[1..], date)
  }

  /** The tables, in the order of rollupTables. */
  type Tables = tables: seq<seq<Stored>> | |tables| == TableCount witness seq(TableCount, _ => [])

  const TableCount: nat := 8

  function Index(t: Table): (i: nat)
    ensures i < TableCount && Order[i] == t
  {
    match t
    case Site => 0
    case Pages => 1
    case Referrers => 2
    case Dimensions => 3
    case Moves => 4
    case Searches => 5
    case Positions => 6
    case Results => 7
  }

  /** What the i-th query inserts. */
  function Fill(i: nat, raw: Raw, firstSeen: map<int, int>, p: Period, caps: Caps): seq<Stored>
    requires i < TableCount
  {
    Project(Query(Order[i], raw, firstSeen, p.span, caps), Stamp(p))
  }

  /** The tables after one recompute: the period's rows replaced, everything else kept. */
  function Recomputed(tables: Tables, raw: Raw, firstSeen: map<int, int>, p: Period, caps: Caps): (out: Tables)
  {
    seq(TableCount, i requires 0 <= i < TableCount => Cleared(tables[i], p) + Fill(i, raw, firstSeen, p, caps))
  }

  function Cut(tables: Tables, date: int): (out: Tables)
  {
    seq(TableCount, i requires 0 <= i < TableCount => CutFrom(tables[i], date))
  }

  /** The database the rollup jobs run on. A statement can fail: fault is the number of the
      statement the database refuses, counted from 0 within one call, its commit last. */
  class Repository {
    var raw: Raw
    var consented: set<int>
    var firstSeen: map<int, int>
    var tables: Tables
    var cohorts: map<int, CohortRow>

    constructor (raw: Raw, consented: set<int>)
      ensures this.raw == raw && this.consented == consented
      ensures firstSeen == map[] && cohorts == map[] && tables == seq(TableCount, _ => [])
    {
      this.raw, this.consented, firstSeen, cohorts := raw, consented, map[], map[];
      tables := seq(TableCount, _ => []);
    }

    /** Replaces every row of the period in one transaction: the lock, a DELETE per table, a fill
        per table, the commit. Any failure leaves the tables as they were. */
    method RecomputePeriod(p: Period, caps: Caps, fault: nat) returns (ok: bool)
      modifies this`tables
      ensures ok <==> fault > 2 * TableCount + 1
      ensures ok ==> tables == Recomputed(old(tables), raw, firstSeen, p, caps)
      ensures !ok ==> tables == old(tables)
    {
      var saved := tables;
      if fault == 0 {
        return false;
      }
      for i := 0 to TableCount
        invariant fault > i
        invariant forall j :: 0 <= j < i ==> tables[j] == Cleared(saved[j], p)
        invariant forall j :: i <= j < TableCount ==> tables[j] == saved[j]
      {
        if fault == 1 + i {
          tables := saved;
          return false;
        }
        tables := tables[i := Cleared(tables[i], p)];
      }
      for i := 0 to TableCount
        invariant fault > TableCount + i
        invariant forall j :: 0 <= j < i ==> tables[j] == Cleared(saved[j], p) + Fill(j, raw, firstSeen, p, caps)
        invariant forall j :: i <= j < TableCount ==> tables[j] == Cleared(saved[j], p)
      {
        if fault == 1 + TableCount + i {
          tables := saved;
          return false;
        }
        tables := tables[i := tables[i] + Fill(i, raw, firstSeen, p, caps)];
      }
      if fault == 1 + 2 * TableCount {
        tables := saved;
        return false;
      }
      return true;
    }

    /** Removes every period and cohort starting on or after the date, in one transaction. */
    method DeleteFrom(date: int, fault: nat) returns (ok: bool)
      modifies this`tables, this`cohorts
      ensures ok <==> fault > TableCount + 1
      ensures ok ==> tables == Cut(old(tables), date)
      ensures ok ==> cohorts == map d | d in old(cohorts) && d < date :: old(cohorts)[d]
      ensures !ok ==> tables == old(tables) && cohorts == old(cohorts)
    {
      var saved, savedCohorts := tables, cohorts;
      for i := 0 to TableCount
        invariant fault >= i
        invariant forall j :: 0 <= j < i ==> tables[j] == CutFrom(saved[j], date)
        invariant forall j :: i <= j < TableCount ==> tables[j] == saved[j]
        invariant cohorts == old(cohorts)
      {
        if fault == i {
          tables := saved;
          return false;
        }
        tables := tables[i := CutFrom(tables[i], date)];
      }
      if fault == TableCount {
        tables := saved;
        return false;
      }
      cohorts := map d | d in cohorts && d < date :: cohorts[d];
      if fault == TableCount + 1 {
        tables, cohorts := saved, savedCohorts;
        return false;
      }
      return true;
    }

    /** One upsert statement: known subjects never get a later time, times stay those of stored views,
        and minima over earlier windows become minima over this one too. */
    method RefreshFirstSeen(w: Span)
      modifies this`firstSeen
      ensures firstSeen == Refreshed(old(firstSeen), raw.views, consented, w)
      ensures forall u :: u in old(firstSeen) ==> u in firstSeen && firstSeen[u] <= old(firstSeen)[u]
      ensures SeenInViews(raw.views, old(firstSeen)) ==> SeenInViews(raw.views, firstSeen)
      ensures forall ws :: IsMinimum(old(firstSeen), raw.views, consented, ws) ==>
                IsMinimum(firstSeen, raw.views, consented, ws + [w])
    {
      RefreshGuarantees(firstSeen, raw.views, consented, w);
      firstSeen := Refreshed(firstSeen, raw.views, consented, w);
    }

    /** Replaces the cohort's row. The columns are built one return at a time. */
    method RecomputeCohort(c: Cohort)
      modifies this`cohorts
      ensures cohorts == old(cohorts)[c.date := CohortQuery(firstSeen, raw.views, c)]
    {
      var columns: seq<Option<int>> := [];
      for i := 0 to |c.revisits|
        invariant |columns| == i
        invariant forall j :: 0 <= j < i ==> columns[j] == ReturnCount(firstSeen, raw.views, c.day, c.revisits[j])
      {
        columns := columns + [ReturnCount(firstSeen, raw.views, c.day, c.revisits[i])];
      }
      var row := CohortRow(|Members(firstSeen, c.day)|, columns);
      assert columns == CohortQuery(firstSeen, raw.views, c).revisits;
      cohorts := cohorts[c.date := row];
    }
  }
}
