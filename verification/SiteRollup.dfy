/** analytics_rollup_site: the headline counts of a period. */
module SiteRollup {
  import opened Common
  import opened Relational
  import opened RawEvents

  datatype SiteRow = SiteRow(
    views: int, visitors: int, sessions: int, bounces: int, focusSeconds: int, focusViews: int, searches: int,
    zeroResults: int, searchesWithClick: int, searchClicks: int, consentedVisitors: int, newVisitors: int)

  datatype SessionCount = SessionCount(session: int, views: int)

  function CountSession(session: int, rows: seq<PageView>): SessionCount { SessionCount(session, |rows|) }
  function CountedSession(c: SessionCount): int { c.session }
  function IsBounce(c: SessionCount): int { if c.views == 1 then 1 else 0 }
  function IsZeroResult(s: Search): int { if s.resultCount == 0 then 1 else 0 }

  function PerSession(pv: seq<PageView>): seq<SessionCount> { GroupBy(pv, SessionOf, CountSession) }

  /** The consented subjects with a page view. */
  function Subjects(pv: seq<PageView>): set<int>
  {
    set v | v in pv && v.subject.Some? :: v.subject.value
  }

  /** The subjects first seen in the span. */
  function Newcomers(subjects: set<int>, firstSeen: map<int, int>, w: Span): set<int>
  {
    set u | u in subjects && u in firstSeen && w.from <= firstSeen[u] < w.to
  }

  function SiteQuery(raw: Raw, firstSeen: map<int, int>, w: Span): SiteRow
  {
    var pv, ts, s, c := ViewsIn(raw, w), SpentIn(raw, w), SearchesIn(raw, w), ClicksOf(raw, w);
    SiteRow(
      |pv|, |Values(pv, VisitorOf)|, |PerSession(pv)|, Total(PerSession(pv), IsBounce), Total(ts, FocusOf), |ts|,
      |s|, Total(s, IsZeroResult), |Values(c, ClickSearch)|, |c|, |Subjects(pv)|,
      |Newcomers(Subjects(pv), firstSeen, w)|)
  }

  lemma SessionsAreDistinct(pv: seq<PageView>)
    ensures |PerSession(pv)| == |Values(pv, SessionOf)|
  {
    GroupByUnique(pv, SessionOf, CountSession, CountedSession);
  }

  /** The sessions with a single view. */
  function Bounced(pv: seq<PageView>): set<int>
  {
    set v | v in pv && |Group(pv, SessionOf, v.session)| == 1 :: v.session
  }

  lemma BouncesAreSingleViews(pv: seq<PageView>)
    ensures Total(PerSession(pv), IsBounce) == |Bounced(pv)|
  {
    var rows := PerSession(pv);
    GroupByUnique(pv, SessionOf, CountSession, CountedSession);
    BouncesCounted(rows);
    forall s
      ensures s in Singles(rows) <==> s in Bounced(pv)
    {
      if s in Singles(rows) {
        var i :| 0 <= i < |rows| && rows[i].views == 1 && rows[i].session == s;
        var k := GroupByRow(pv, SessionOf, CountSession, i);
      }
      if s in Bounced(pv) {
        GroupByHas(pv, SessionOf, CountSession, s);
      }
    }
    assert Singles(rows) == Bounced(pv);
  }

  function Singles(rows: seq<SessionCount>): set<int> { set r | r in rows && r.views == 1 :: r.session }

  lemma {:induction false} BouncesCounted(rows: seq<SessionCount>)
    requires Unique(rows, CountedSession)
    ensures Total(rows, IsBounce) == |Singles(rows)|
  {
    if rows != [] {
      var tail := rows[1..];
      UniqueCons(rows, CountedSession);
      BouncesCounted(tail);
      assert rows == [rows[0]] + tail;
      assert Singles(rows) == Singles(tail) + if rows[0].views == 1 then {rows[0].session} else {};
      forall r | r in tail ensures r.session in Values(tail, CountedSession) { assert CountedSession(r) == r.session; }
    }
  }
}
