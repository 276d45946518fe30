/** The raw analytics tables. Times are whole numbers on the database clock; uuids, sessions and
    consent subjects are numbers. */
module RawEvents {
  import opened Common
  import opened Relational

  datatype PageView = PageView(
    id: int, subject: Option<int>, visitor: string, session: int, path: string, referrer: Option<string>,
    country: Option<string>, device: string, browser: string, at: int)

  datatype TimeSpent = TimeSpent(uuid: int, path: string, focusSeconds: int, startedAt: int, lastSeenAt: int)

  datatype Navigation = Navigation(uuid: int, from: Option<string>, to: string, transition: string, at: int)

  datatype Search = Search(uuid: int, visitor: string, query: string, resultCount: int, at: int)

  datatype Click = Click(uuid: int, search: int, position: int, resourceType: string, resource: int, at: int)

  datatype Raw = Raw(
    views: seq<PageView>, spent: seq<TimeSpent>, moves: seq<Navigation>, searches: seq<Search>, clicks: seq<Click>)

  /** A rollup period's bounds [from, to). */
  datatype Span = Span(from: int, to: int)

  function ViewId(v: PageView): int { v.id }
  function ViewAt(v: PageView): int { v.at }
  function VisitorOf(v: PageView): string { v.visitor }
  function SessionOf(v: PageView): int { v.session }
  function PathOf(v: PageView): string { v.path }
  function SpentAt(t: TimeSpent): int { t.startedAt }
  function SpentPath(t: TimeSpent): string { t.path }
  function FocusOf(t: TimeSpent): int { t.focusSeconds }
  function MoveAt(m: Navigation): int { m.at }
  function SearchUuid(s: Search): int { s.uuid }
  function SearchAt(s: Search): int { s.at }
  function QueryOf(s: Search): string { s.query }
  function SearcherOf(s: Search): string { s.visitor }
  function ClickSearch(c: Click): int { c.search }

  /** The uniqueness the tables declare: id is the identity column of page views, uuid is unique
      in searches. */
  ghost predicate ValidRaw(raw: Raw)
  {
    Unique(raw.views, ViewId) && Unique(raw.searches, SearchUuid)
  }

  function ViewsIn(raw: Raw, w: Span): seq<PageView> { Between(raw.views, ViewAt, w.from, w.to) }
  function SpentIn(raw: Raw, w: Span): seq<TimeSpent> { Between(raw.spent, SpentAt, w.from, w.to) }
  function MovesIn(raw: Raw, w: Span): seq<Navigation> { Between(raw.moves, MoveAt, w.from, w.to) }
  function SearchesIn(raw: Raw, w: Span): seq<Search> { Between(raw.searches, SearchAt, w.from, w.to) }

  /** The clicks of the span's searches, whenever they happened. */
  function ClicksOf(raw: Raw, w: Span): seq<Click>
  {
    Among(raw.clicks, ClickSearch, Values(SearchesIn(raw, w), SearchUuid))
  }
}
