/** analytics_subject_first_seen and the retention cohorts built on it. */
module FirstSeen {
  import opened Common
  import opened Relational
  import opened RawEvents
  import opened SiteRollup

  /** v is a page view of subject u. */
  predicate ViewOf(v: PageView, u: int) { v.subject == Some(u) }

  /** The earliest view of u. */
  function Earliest(pv: seq<PageView>, u: int): Option<int>
  {
    if pv == [] then None
    else
      var rest := Earliest(pv[1..], u);
      if !ViewOf(pv[0], u) then rest
      else if rest.Some? && rest.value < pv[0].at then rest
      else Some(pv[0].at)
  }

  /** The refresh upsert: insert the minimum of the window, keeping an earlier time. Only subjects
      still in consent_subjects are inserted. */
  function Refreshed(firstSeen: map<int, int>, pv: seq<PageView>, consented: set<int>, w: Span): map<int, int>
  {
    var found := Between(pv, ViewAt, w.from, w.to);
    map u | u in firstSeen.Keys + (Subjects(found) * consented) ::
      var e := if u in consented then Earliest(found, u) else None;
      if u !in firstSeen then (if e.Some? then e.value else 0)
      else if e.Some? && e.value < firstSeen[u] then e.value
      else firstSeen[u]
  }

  lemma {:induction false} EarliestIsMinimum(pv: seq<PageView>, u: int)
    ensures Earliest(pv, u).Some? <==> u in Subjects(pv)
    ensures Earliest(pv, u).Some? ==> exists v :: v in pv && ViewOf(v, u) && v.at == Earliest(pv, u).value
    ensures forall v :: v in pv && ViewOf(v, u) ==> Earliest(pv, u).Some? && Earliest(pv, u).value <= v.at
  {
    if pv != [] {
      EarliestIsMinimum(pv[1..], u);
      assert pv == [pv[0]] + pv[1..];
      assert Subjects(pv) == Subjects(pv[1..]) + if pv[0].subject.Some? then {pv[0].subject.value} else {};
      if Earliest(pv, u).Some? {
        if ViewOf(pv[0], u) && Earliest(pv, u).value == pv[0].at {
          assert pv[0] in pv;
        } else {
          var v :| v in pv[1..] && ViewOf(v, u) && v.at == Earliest(pv[1..], u).value;
          assert v in pv;
        }
      }
    }
  }

  // ---- Any windows, any order -------------------------------------------------------

  predicate InSome(ws: seq<Span>, at: int) { exists i :: 0 <= i < |ws| && ws[i].from <= at < ws[i].to }

  /** v counts for u: a view of u, who has consented, in one of the windows. */
  ghost predicate Counts(pv: seq<PageView>, consented: set<int>, ws: seq<Span>, v: PageView, u: int)
  {
    v in pv && ViewOf(v, u) && u in consented && InSome(ws, v.at)
  }

  /** firstSeen holds, for exactly the subjects with a counting view, the time of the first one. */
  ghost predicate IsMinimum(firstSeen: map<int, int>, pv: seq<PageView>, consented: set<int>, ws: seq<Span>)
  {
    && (forall u :: u in firstSeen ==> exists v :: Counts(pv, consented, ws, v, u) && v.at == firstSeen[u])
    && (forall v, u :: Counts(pv, consented, ws, v, u) ==> u in firstSeen && firstSeen[u] <= v.at)
  }

  function RefreshAll(firstSeen: map<int, int>, pv: seq<PageView>, consented: set<int>, ws: seq<Span>): map<int, int>
  {
    if ws == [] then firstSeen
    else Refreshed(RefreshAll(firstSeen, pv, consented, ws[..|ws| - 1]), pv, consented, ws[|ws| - 1])
  }

  lemma InSomeLast(ws: seq<Span>, at: int)
    requires ws != []
    ensures var last := ws[|ws| - 1];
            InSome(ws, at) <==> InSome(ws[..|ws| - 1], at) || last.from <= at < last.to
  {
  }

  /** One refresh extends the minimum to one more window. */
  lemma RefreshStep(before: map<int, int>, pv: seq<PageView>, consented: set<int>, ws: seq<Span>)
    requires ws != [] && IsMinimum(before, pv, consented, ws[..|ws| - 1])
    ensures IsMinimum(Refreshed(before, pv, consented, ws[|ws| - 1]), pv, consented, ws)
  {
    var w, earlier := ws[|ws| - 1], ws[..|ws| - 1];
    var found := Between(pv, ViewAt, w.from, w.to);
    var after := Refreshed(before, pv, consented, w);
    forall v ensures v in found <==> v in pv && w.from <= v.at < w.to {
      BetweenMember(pv, ViewAt, w.from, w.to, v);
    }
    forall at ensures InSome(ws, at) <==> InSome(earlier, at) || w.from <= at < w.to {
      InSomeLast(ws, at);
    }
    forall u | u in after
      ensures exists v :: Counts(pv, consented, ws, v, u) && v.at == after[u]
    {
      EarliestIsMinimum(found, u);
      if u in before && after[u] == before[u] {
        var v :| Counts(pv, consented, earlier, v, u) && v.at == before[u];
        assert Counts(pv, consented, ws, v, u);
      } else {
        var v :| v in found && ViewOf(v, u) && v.at == Earliest(found, u).value;
        assert Counts(pv, consented, ws, v, u);
      }
    }
    forall v, u | Counts(pv, consented, ws, v, u)
      ensures u in after && after[u] <= v.at
    {
      EarliestIsMinimum(found, u);
      if InSome(earlier, v.at) {
        assert Counts(pv, consented, earlier, v, u);
      }
    }
  }

  /** Refreshing an empty table over any windows, overlapping or repeated and in any order, leaves
      the minimum page view time per subject over their union. */
  lemma {:induction false} RefreshIsMinimum(pv: seq<PageView>, consented: set<int>, ws: seq<Span>)
    ensures IsMinimum(RefreshAll(map[], pv, consented, ws), pv, consented, ws)
  {
    if ws != [] {
      RefreshIsMinimum(pv, consented, ws[..|ws| - 1]);
      RefreshStep(RefreshAll(map[], pv, consented, ws[..|ws| - 1]), pv, consented, ws);
    }
  }

  lemma MinimumAtMost(a: map<int, int>, b: map<int, int>, pv: seq<PageView>, consented: set<int>, ws: seq<Span>,
                      vs: seq<Span>)
    requires IsMinimum(a, pv, consented, ws) && IsMinimum(b, pv, consented, vs)
    requires forall at :: InSome(ws, at) <==> InSome(vs, at)
    ensures forall u :: u in a ==> u in b && b[u] <= a[u]
  {
  }

  /** Only the union of the windows matters. */
  lemma RefreshOrderIrrelevant(pv: seq<PageView>, consented: set<int>, ws: seq<Span>, vs: seq<Span>)
    requires forall at :: InSome(ws, at) <==> InSome(vs, at)
    ensures RefreshAll(map[], pv, consented, ws) == RefreshAll(map[], pv, consented, vs)
  {
    var a, b := RefreshAll(map[], pv, consented, ws), RefreshAll(map[], pv, consented, vs);
    RefreshIsMinimum(pv, consented, ws);
    RefreshIsMinimum(pv, consented, vs);
    MinimumAtMost(a, b, pv, consented, ws, vs);
    MinimumAtMost(b, a, pv, consented, vs, ws);
    EqualWhenBothBelow(a, b);
  }

  lemma EqualWhenBothBelow<K>(a: map<K, int>, b: map<K, int>)
    requires forall u :: u in a ==> u in b && b[u] <= a[u]
    requires forall u :: u in b ==> u in a && a[u] <= b[u]
    ensures a == b
  {
  }

  // ---- Runs of inserts and refreshes ------------------------------------------------

  datatype Step = Insert(view: PageView) | Refresh(consented: set<int>, window: Span)
  datatype State = State(views: seq<PageView>, firstSeen: map<int, int>)

  function Next(s: State, step: Step): State
  {
    match step
    case Insert(v) => s.(views := s.views + [v])
    case Refresh(consented, w) => s.(firstSeen := Refreshed(s.firstSeen, s.views, consented, w))
  }

  function Run(s: State, steps: seq<Step>): State
  {
    if steps == [] then s else Next(Run(s, steps[..|steps| - 1]), steps[|steps| - 1])
  }

  /** Every first-seen time is the time of a stored page view of that subject. */
  ghost predicate SeenInViews(pv: seq<PageView>, firstSeen: map<int, int>)
  {
    forall u :: u in firstSeen ==> exists v :: v in pv && ViewOf(v, u) && v.at == firstSeen[u]
  }

  lemma NextSeen(s: State, step: Step)
    requires SeenInViews(s.views, s.firstSeen)
    ensures SeenInViews(Next(s, step).views, Next(s, step).firstSeen)
  {
    var t := Next(s, step);
    forall u | u in t.firstSeen
      ensures exists v :: v in t.views && ViewOf(v, u) && v.at == t.firstSeen[u]
    {
      if u in s.firstSeen && t.firstSeen[u] == s.firstSeen[u] {
        var v :| v in s.views && ViewOf(v, u) && v.at == s.firstSeen[u];
        assert v in t.views;
      } else {
        var w := step.window;
        var found := Between(s.views, ViewAt, w.from, w.to);
        EarliestIsMinimum(found, u);
        var v :| v in found && ViewOf(v, u) && v.at == Earliest(found, u).value;
        BetweenMember(s.views, ViewAt, w.from, w.to, v);
      }
    }
  }

  /** What one refresh gives its caller: known subjects never get a later time, times stay those of
      stored views, and a table that held the minimum over some windows now holds it over one more. */
  lemma RefreshGuarantees(before: map<int, int>, pv: seq<PageView>, consented: set<int>, w: Span)
    ensures forall u :: u in before ==>
              u in Refreshed(before, pv, consented, w) && Refreshed(before, pv, consented, w)[u] <= before[u]
    ensures SeenInViews(pv, before) ==> SeenInViews(pv, Refreshed(before, pv, consented, w))
    ensures forall ws :: IsMinimum(before, pv, consented, ws) ==>
              IsMinimum(Refreshed(before, pv, consented, w), pv, consented, ws + [w])
  {
    if SeenInViews(pv, before) {
      NextSeen(State(pv, before), Refresh(consented, w));
    }
    forall ws | IsMinimum(before, pv, consented, ws)
      ensures IsMinimum(Refreshed(before, pv, consented, w), pv, consented, ws + [w])
    {
      var all := ws + [w];
      assert all[..|all| - 1] == ws && all[|all| - 1] == w;
      RefreshStep(before, pv, consented, all);
    }
  }

  /** Over any run of inserts and refreshes from empty tables, with consent changing as it likes,
      each first-seen time is the time of a stored view of that subject. */
  lemma {:induction false} RunSeen(steps: seq<Step>)
    ensures var s := Run(State([], map[]), steps); SeenInViews(s.views, s.firstSeen)
  {
    if steps != [] {
      RunSeen(steps[..|steps| - 1]);
      NextSeen(Run(State([], map[]), steps[..|steps| - 1]), steps[|steps| - 1]);
    }
  }

  // ---- Cohorts ----------------------------------------------------------------------

  datatype Return = Return(day: Span, complete: bool)
  datatype Cohort = Cohort(date: int, day: Span, revisits: seq<Return>)
  datatype CohortRow = CohortRow(size: int, revisits: seq<Option<int>>)

  function Members(firstSeen: map<int, int>, day: Span): set<int>
  {
    set u | u in firstSeen && day.from <= firstSeen[u] < day.to
  }

  function Returned(members: set<int>, pv: seq<PageView>, day: Span): set<int>
  {
    set u | u in members && exists v :: v in pv && ViewOf(v, u) && day.from <= v.at < day.to
  }

  function ReturnCount(firstSeen: map<int, int>, pv: seq<PageView>, day: Span, r: Return): Option<int>
  {
    if r.complete then Some(|Returned(Members(firstSeen, day), pv, r.day)|) else None
  }

  function CohortQuery(firstSeen: map<int, int>, pv: seq<PageView>, c: Cohort): CohortRow
  {
    CohortRow(
      |Members(firstSeen, c.day)|,
      seq(|c.revisits|, i requires 0 <= i < |c.revisits| => ReturnCount(firstSeen, pv, c.day, c.revisits[i])))
  }

  /** A day's new visitors are its cohort, each return count is at most the cohort's size, and a
      return is NULL exactly while its day is incomplete. */
  lemma NewVisitorsAreTheCohort(steps: seq<Step>, raw: Raw, c: Cohort)
    requires raw.views == Run(State([], map[]), steps).views
    ensures var firstSeen := Run(State([], map[]), steps).firstSeen;
            var row := CohortQuery(firstSeen, raw.views, c);
            && SiteQuery(raw, firstSeen, c.day).newVisitors == row.size
            && |row.revisits| == |c.revisits|
            && forall i :: 0 <= i < |c.revisits| ==>
                 && (row.revisits[i].None? <==> !c.revisits[i].complete)
                 && (row.revisits[i].Some? ==> 0 <= row.revisits[i].value <= row.size)
  {
    var firstSeen := Run(State([], map[]), steps).firstSeen;
    var pv := ViewsIn(raw, c.day);
    RunSeen(steps);
    var newcomers := Newcomers(Subjects(pv), firstSeen, c.day);
    forall u | u in Members(firstSeen, c.day)
      ensures u in newcomers
    {
      var v :| v in raw.views && ViewOf(v, u) && v.at == firstSeen[u];
      BetweenMember(raw.views, ViewAt, c.day.from, c.day.to, v);
    }
    assert newcomers == Members(firstSeen, c.day);
    forall i | 0 <= i < |c.revisits|
      ensures |Returned(Members(firstSeen, c.day), raw.views, c.revisits[i].day)| <= |Members(firstSeen, c.day)|
    {
      SubsetSize(Returned(Members(firstSeen, c.day), raw.views, c.revisits[i].day), Members(firstSeen, c.day));
    }
  }

  lemma SubsetSize(a: set<int>, b: set<int>)
    requires a <= b
    ensures |a| <= |b|
  {
    assert b == a + (b - a);
  }
}
