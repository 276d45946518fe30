/** Several copies of one handler share a circuit breaker: their calls overlap, and a call that is
    under way when the breaker opens still runs to its end, uncounted. Every run of the handler
    fails in a way that a retry might fix, and no copy waits longer for a retry than the breaker
    stays open. */
module Copies {
  import opened Common
  import C = Consumer

  datatype Setup = Setup(failures: nat, retries: nat, openFor: nat)

  /** An open breaker lets one trial call through after its expiry; until that ends it refuses the
      others. */
  datatype Breaker = Closed(count: nat) | Open(expiry: int) | OnTrial(expiry: int)

  /** What a copy does: nothing, waiting to call or running its handler, after so many failed runs of
      the message, of which the breaker counted some. */
  datatype Copy =
    | Idle
    | Waiting(tries: nat, ended: int, counted: nat)
    | Running(tries: nat, trial: bool, counted: nat)

  /** Dead letters whose every run was counted, and those with runs the breaker did not count. */
  datatype State = State(breaker: Breaker, copies: seq<Copy>, full: nat, late: nat, now: int)

  datatype Step = Take(copy: nat, at: int) | Call(copy: nat, at: int) | Finish(copy: nat, at: int)

  function Init(copies: nat): State { State(Closed(0), seq(copies, _ => Idle), 0, 0, 0) }

  function Dead(s: State): nat { s.full + s.late }

  /** Time does not run backwards, and a retry does not come later than its wait allows. */
  predicate Enabled(s: State, step: Step, c: Setup)
  {
    && step.copy < |s.copies| && s.now <= step.at
    && match (step, s.copies[step.copy])
       case (Take(_, _), Idle) => true
       case (Call(_, at), Waiting(n, ended, _)) => n > 0 ==> at <= ended + c.openFor
       case (Finish(_, _), Running(_, _, _)) => true
       case _ => false
  }

  function Put(s: State, i: nat, copy: Copy, breaker: Breaker, at: int): State
    requires i < |s.copies|
  {
    s.(copies := s.copies[i := copy], breaker := breaker, now := at)
  }

  /** The breaker refuses, or lets the call through: to be counted, or as the trial. */
  function Called(s: State, i: nat, at: int): State
    requires i < |s.copies| && s.copies[i].Waiting?
  {
    var w := s.copies[i];
    match s.breaker
    case Closed(_) => Put(s, i, Running(w.tries, false, w.counted), s.breaker, at)
    case Open(expiry) =>
      if at <= expiry then Put(s, i, Idle, s.breaker, at)
      else Put(s, i, Running(w.tries, true, w.counted), OnTrial(expiry), at)
    case OnTrial(_) => Put(s, i, Idle, s.breaker, at)
  }

  /** The breaker after a failed run: a trial opens it again, a run from before it opened does not
      count. */
  function Failed(b: Breaker, trial: bool, at: int, c: Setup): Breaker
  {
    if trial then Open(at + c.openFor)
    else if b.Closed? then (if b.count + 1 >= c.failures then Open(at + c.openFor) else Closed(b.count + 1))
    else b
  }

  function Finished(s: State, i: nat, at: int, c: Setup): State
    requires i < |s.copies| && s.copies[i].Running?
  {
    var r, b := s.copies[i], Failed(s.breaker, s.copies[i].trial, at, c);
    var counted := if s.breaker.Closed? then r.counted + 1 else r.counted;
    if r.tries + 1 <= c.retries then Put(s, i, Waiting(r.tries + 1, at, counted), b, at)
    else if counted == r.tries + 1 then Put(s, i, Idle, b, at).(full := s.full + 1)
    else Put(s, i, Idle, b, at).(late := s.late + 1)
  }

  /** One step of one copy; a step that is not enabled changes nothing. */
  function Next(s: State, step: Step, c: Setup): State
  {
    if !Enabled(s, step, c) then s
    else
      match step
      case Take(i, at) => Put(s, i, Waiting(0, at, 0), s.breaker, at)
      case Call(i, at) => Called(s, i, at)
      case Finish(i, at) => Finished(s, i, at, c)
  }

  function After(steps: seq<Step>, copies: nat, c: Setup): State
  {
    if steps == [] then Init(copies) else Next(After(steps[..|steps| - 1], copies, c), steps[|steps| - 1], c)
  }

  // ---- What can be lost -------------------------------------------------------------

  /** full messages lost to counted runs alone, and late ones lost with at most two runs uncounted: the
      one under way when the breaker opened and a trial. The run that opened it belongs to no late
      one. */
  predicate Feasible(full: nat, late: nat, copies: nat, c: Setup)
  {
    && late <= copies - 1
    && late * (c.retries - 1) + full * (c.retries + 1) <= c.failures - (if full == 0 then 1 else 0)
  }

  /** The copy may still lose its message though the breaker is open. */
  function Slot(copy: Copy, expiry: int, openFor: nat): nat
  {
    match copy
    case Idle => 0
    case Waiting(n, ended, _) => if n > 0 && ended + openFor > expiry then 1 else 0
    case Running(n, trial, _) => if trial && n == 0 then 0 else 1
  }

  function Counted(copy: Copy): nat { if copy.Idle? then 0 else copy.counted }

  function TotalCounted(copies: seq<Copy>): nat
  {
    if copies == [] then 0 else Counted(copies[0]) + TotalCounted(copies[1..])
  }

  function Slots(copies: seq<Copy>, expiry: int, openFor: nat): nat
  {
    if copies == [] then 0 else Slot(copies[0], expiry, openFor) + Slots(copies[1..], expiry, openFor)
  }

  /** The counted runs of the messages that may still be lost. */
  function SlotCounted(copies: seq<Copy>, expiry: int, openFor: nat): nat
  {
    if copies == [] then 0
    else
      (if Slot(copies[0], expiry, openFor) == 1 then Counted(copies[0]) else 0) +
      SlotCounted(copies[1..], expiry, openFor)
  }

  lemma {:induction false} Replaced(copies: seq<Copy>, i: nat, copy: Copy, expiry: int, openFor: nat)
    requires i < |copies|
    ensures TotalCounted(copies[i := copy]) == TotalCounted(copies) - Counted(copies[i]) + Counted(copy)
    ensures Slots(copies[i := copy], expiry, openFor) ==
            Slots(copies, expiry, openFor) - Slot(copies[i], expiry, openFor) + Slot(copy, expiry, openFor)
    ensures SlotCounted(copies[i := copy], expiry, openFor) ==
            SlotCounted(copies, expiry, openFor)
            - (if Slot(copies[i], expiry, openFor) == 1 then Counted(copies[i]) else 0)
            + (if Slot(copy, expiry, openFor) == 1 then Counted(copy) else 0)
  {
    var next := copies[i := copy];
    if i == 0 {
      assert next[1..] == copies[1..];
    } else {
      assert next[1..] == copies[1..][i - 1 := copy];
      Replaced(copies[1..], i - 1, copy, expiry, openFor);
    }
  }

  lemma {:induction false} LaterExpiry(copies: seq<Copy>, expiry: int, later: int, openFor: nat)
    requires expiry <= later
    ensures Slots(copies, later, openFor) <= Slots(copies, expiry, openFor)
    ensures SlotCounted(copies, later, openFor) <= SlotCounted(copies, expiry, openFor)
  {
    if copies != [] {
      LaterExpiry(copies[1..], expiry, later, openFor);
    }
  }

  /** All copies but one may have a slot, and their counted runs are among all that were counted. */
  lemma {:induction false} SlotsBut(copies: seq<Copy>, i: nat, expiry: int, openFor: nat)
    requires i < |copies| && Slot(copies[i], expiry, openFor) == 0
    ensures Slots(copies, expiry, openFor) <= |copies| - 1
    ensures SlotCounted(copies, expiry, openFor) + Counted(copies[i]) <= TotalCounted(copies)
  {
    if i == 0 {
      SlotsAtMost(copies[1..], expiry, openFor);
    } else {
      SlotsBut(copies[1..], i - 1, expiry, openFor);
    }
  }

  lemma {:induction false} SlotsAtMost(copies: seq<Copy>, expiry: int, openFor: nat)
    ensures Slots(copies, expiry, openFor) <= |copies|
    ensures SlotCounted(copies, expiry, openFor) <= TotalCounted(copies)
  {
    if copies != [] {
      SlotsAtMost(copies[1..], expiry, openFor);
    }
  }

  // ---- Invariant --------------------------------------------------------------------

  ghost predicate CopyOk(copy: Copy, b: Breaker, now: int, c: Setup)
  {
    match copy
    case Idle => true
    case Waiting(n, ended, k) =>
      && n <= c.retries && ended <= now
      && (if b.Closed? then k == n else n > 0 && ended + c.openFor > b.expiry ==> n == k + 1)
    case Running(n, trial, k) =>
      && n <= c.retries && (!trial ==> k == n) && (trial ==> b.OnTrial? && (n > 0 ==> n == k + 1))
  }

  ghost predicate OneTrial(copies: seq<Copy>)
  {
    forall i, j :: 0 <= i < j < |copies| && copies[i].Running? && copies[i].trial && copies[j].Running? ==>
      !copies[j].trial
  }

  /** Lost or still to be lost, every message is paid for with counted runs. */
  ghost predicate Paid(s: State, expiry: int, c: Setup)
  {
    && s.late + Slots(s.copies, expiry, c.openFor) <= |s.copies| - 1
    && s.full * (c.retries + 1) + s.late * (c.retries - 1) + SlotCounted(s.copies, expiry, c.openFor)
       <= c.failures - (if s.full == 0 then 1 else 0)
  }

  ghost predicate Budget(s: State, c: Setup)
  {
    match s.breaker
    case Closed(count) =>
      count < c.failures && s.late == 0 && s.full * (c.retries + 1) + TotalCounted(s.copies) <= count
    case Open(expiry) => Paid(s, expiry, c)
    case OnTrial(expiry) => expiry < s.now && Paid(s, expiry, c)
  }

  ghost predicate Inv(s: State, c: Setup)
  {
    && Budget(s, c) && OneTrial(s.copies)
    && forall i :: 0 <= i < |s.copies| ==> CopyOk(s.copies[i], s.breaker, s.now, c)
  }

  function Expiry(b: Breaker): int { if b.Closed? then 0 else b.expiry }

  lemma {:induction false} AllIdle(copies: nat)
    ensures TotalCounted(seq(copies, _ => Idle)) == 0
  {
    var all := seq(copies, _ => Idle);
    if copies > 0 {
      assert all[1..] == seq(copies - 1, _ => Idle);
      AllIdle(copies - 1);
    }
  }

  lemma TakeKeeps(s: State, i: nat, at: int, c: Setup)
    requires Inv(s, c) && i < |s.copies| && s.copies[i].Idle? && s.now <= at
    ensures Inv(Put(s, i, Waiting(0, at, 0), s.breaker, at), c)
  {
    Replaced(s.copies, i, Waiting(0, at, 0), Expiry(s.breaker), c.openFor);
  }

  lemma CalledKeeps(s: State, i: nat, at: int, c: Setup)
    requires Inv(s, c) && Enabled(s, Call(i, at), c)
    ensures Inv(Called(s, i, at), c)
  {
    var w, t := s.copies[i], Called(s, i, at);
    assert CopyOk(w, s.breaker, s.now, c);
    Replaced(s.copies, i, t.copies[i], Expiry(s.breaker), c.openFor);
  }

  lemma OneMoreOf(n: nat, each: int)
    ensures (n + 1) * each == n * each + each
  {
  }

  /** The breaker is closed: the run counts, and opens it when it is the last that may. */
  lemma CountedKeeps(s: State, i: nat, at: int, c: Setup)
    requires Inv(s, c) && Enabled(s, Finish(i, at), c) && s.breaker.Closed?
    ensures Inv(Finished(s, i, at, c), c)
  {
    var t := Finished(s, i, at, c);
    assert forall j :: 0 <= j < |s.copies| ==> CopyOk(s.copies[j], s.breaker, s.now, c);
    Replaced(s.copies, i, t.copies[i], 0, 0);
    OneMoreOf(s.full, c.retries + 1);
    if t.breaker.Open? {
      SlotsBut(t.copies, i, t.breaker.expiry, c.openFor);
    }
  }

  /** A run from before the breaker opened ends: its message keeps its slot, or is lost for it. */
  lemma LateKeeps(s: State, i: nat, at: int, c: Setup)
    requires Inv(s, c) && Enabled(s, Finish(i, at), c) && !s.breaker.Closed? && !s.copies[i].trial && c.retries >= 1
    ensures Inv(Finished(s, i, at, c), c)
  {
    var t := Finished(s, i, at, c);
    assert CopyOk(s.copies[i], s.breaker, s.now, c);
    Replaced(s.copies, i, t.copies[i], s.breaker.expiry, c.openFor);
    OneMoreOf(s.late, c.retries - 1);
  }

  /** The trial ends: the breaker opens again, for at least as long as its message may wait. */
  lemma TrialKeeps(s: State, i: nat, at: int, c: Setup)
    requires Inv(s, c) && Enabled(s, Finish(i, at), c) && s.copies[i].trial && c.retries >= 1
    ensures Inv(Finished(s, i, at, c), c)
  {
    var r, t, later := s.copies[i], Finished(s, i, at, c), at + c.openFor;
    assert CopyOk(r, s.breaker, s.now, c);
    Replaced(s.copies, i, t.copies[i], s.breaker.expiry, c.openFor);
    Replaced(s.copies, i, t.copies[i], later, c.openFor);
    LaterExpiry(s.copies, s.breaker.expiry, later, c.openFor);
    LaterExpiry(t.copies, s.breaker.expiry, later, c.openFor);
    OneMoreOf(s.late, c.retries - 1);
    forall j | 0 <= j < |t.copies|
      ensures CopyOk(t.copies[j], t.breaker, t.now, c)
    {
      assert CopyOk(s.copies[j], s.breaker, s.now, c);
      assert j != i ==> !(s.copies[j].Running? && s.copies[j].trial) by { assert i < j || j < i || j == i; }
    }
  }

  lemma NextKeeps(s: State, step: Step, c: Setup)
    requires Inv(s, c) && c.retries >= 1
    ensures Inv(Next(s, step, c), c)
  {
    if Enabled(s, step, c) {
      match step
      case Take(i, at) => TakeKeeps(s, i, at, c);
      case Call(i, at) => CalledKeeps(s, i, at, c);
      case Finish(i, at) =>
        if s.copies[i].trial {
          TrialKeeps(s, i, at, c);
        } else if s.breaker.Closed? {
          CountedKeeps(s, i, at, c);
        } else {
          LateKeeps(s, i, at, c);
        }
    }
  }

  lemma {:induction false} RunKeeps(steps: seq<Step>, copies: nat, c: Setup)
    requires c.failures >= 1 && c.retries >= 1
    ensures Inv(After(steps, copies, c), c) && |After(steps, copies, c).copies| == copies
  {
    AllIdle(copies);
    if steps != [] {
      RunKeeps(steps[..|steps| - 1], copies, c);
      NextKeeps(After(steps[..|steps| - 1], copies, c), steps[|steps| - 1], c);
    }
  }

  /** However the calls of the copies overlap and however long the outage, trial calls included, what
      is lost is feasible. */
  lemma LossesAreFeasible(steps: seq<Step>, copies: nat, c: Setup)
    requires c.failures >= 1 && c.retries >= 1 && copies >= 1
    ensures Feasible(After(steps, copies, c).full, After(steps, copies, c).late, copies, c)
  {
    RunKeeps(steps, copies, c);
  }

  // ---- A run that loses as much -----------------------------------------------------

  ghost predicate Reachable(s: State, copies: nat, c: Setup) { exists steps :: After(steps, copies, c) == s }

  /** One more step, to the state the caller names. */
  lemma Reach(s: State, step: Step, t: State, copies: nat, c: Setup)
    requires Reachable(s, copies, c) && Next(s, step, c) == t
    ensures Reachable(t, copies, c)
  {
    var steps :| After(steps, copies, c) == s;
    var more := steps + [step];
    assert more[..|more| - 1] == steps && more[|more| - 1] == step;
    assert After(more, copies, c) == t;
  }

  /** A copy's run is let through by the closed breaker, fails and is counted without opening it. */
  lemma CountOne(s: State, i: nat, copies: nat, c: Setup) returns (t: State)
    requires Reachable(s, copies, c) && i < |s.copies| && s.now == 0 && s.breaker.Closed?
    requires s.copies[i].Waiting? && s.copies[i].ended == 0 && s.copies[i].counted == s.copies[i].tries < c.retries
    requires s.breaker.count + 1 < c.failures
    ensures Reachable(t, copies, c)
    ensures var n := s.copies[i].tries + 1;
            t == s.(copies := s.copies[i := Waiting(n, 0, n)], breaker := Closed(s.breaker.count + 1))
  {
    var n := s.copies[i].tries;
    var a := s.(copies := s.copies[i := Running(n, false, n)]);
    t := s.(copies := s.copies[i := Waiting(n + 1, 0, n + 1)], breaker := Closed(s.breaker.count + 1));
    Reach(s, Call(i, 0), a, copies, c);
    assert a.copies[i := Waiting(n + 1, 0, n + 1)] == t.copies;
    Reach(a, Finish(i, 0), t, copies, c);
  }

  /** So many runs of one message are counted. */
  lemma {:induction false} CountSome(s: State, i: nat, times: nat, copies: nat, c: Setup) returns (t: State)
    requires Reachable(s, copies, c) && i < |s.copies| && s.now == 0 && s.breaker.Closed?
    requires s.copies[i].Waiting? && s.copies[i].ended == 0 && s.copies[i].counted == s.copies[i].tries
    requires s.copies[i].tries + times <= c.retries && s.breaker.count + times < c.failures
    ensures Reachable(t, copies, c)
    ensures var n := s.copies[i].tries + times;
            t == s.(copies := s.copies[i := Waiting(n, 0, n)], breaker := Closed(s.breaker.count + times))
    decreases times
  {
    t := s;
    if times > 0 {
      var a := CountOne(s, i, copies, c);
      t := CountSome(a, i, times - 1, copies, c);
      var n := s.copies[i].tries + times;
      assert a.copies[i := Waiting(n, 0, n)] == s.copies[i := Waiting(n, 0, n)];
    } else {
      assert s.copies[i := s.copies[i]] == s.copies;
    }
  }

  /** A message two runs short of its last, with the next one under way. */
  function Under(c: Setup): Copy
    requires c.retries >= 1
  {
    Running(c.retries - 1, false, c.retries - 1)
  }

  /** Copies 1 to j have such a run under way; the others are idle. */
  function Row(j: nat, copies: nat, c: Setup): seq<Copy>
    requires c.retries >= 1
  {
    seq(copies, i => if 1 <= i <= j then Under(c) else Idle)
  }

  lemma RowGrows(j: nat, copies: nat, c: Setup)
    requires c.retries >= 1 && 0 < j < copies
    ensures Row(j - 1, copies, c)[j].Idle? && Row(j - 1, copies, c)[j := Under(c)] == Row(j, copies, c)
    ensures Row(j, copies, c)[j] == Under(c) && Row(j, copies, c)[j := Idle] == Row(j - 1, copies, c)
  {
  }

  lemma {:induction false} PutUnderWay(j: nat, copies: nat, c: Setup) returns (s: State)
    requires c.retries >= 1 && j < copies && j * (c.retries - 1) < c.failures
    ensures Reachable(s, copies, c) && s == State(Closed(j * (c.retries - 1)), Row(j, copies, c), 0, 0, 0)
    decreases j
  {
    s := State(Closed(j * (c.retries - 1)), Row(j, copies, c), 0, 0, 0);
    if j == 0 {
      assert Row(0, copies, c) == seq(copies, _ => Idle);
      assert After([], copies, c) == s;
    } else {
      OneMoreOf(j - 1, c.retries - 1);
      var a := PutUnderWay(j - 1, copies, c);
      RowGrows(j, copies, c);
      PutOneUnderWay(a, j, copies, c);
    }
  }

  /** An idle copy takes a message, and all its runs but the last two are counted; the next begins. */
  lemma PutOneUnderWay(s: State, i: nat, copies: nat, c: Setup)
    requires Reachable(s, copies, c) && i < |s.copies| && s.copies[i].Idle? && s.now == 0 && s.breaker.Closed?
    requires c.retries >= 1 && s.breaker.count + (c.retries - 1) < c.failures
    ensures var count := s.breaker.count + (c.retries - 1);
            Reachable(s.(copies := s.copies[i := Under(c)], breaker := Closed(count)), copies, c)
  {
    var n := c.retries - 1;
    var t := s.(copies := s.copies[i := Under(c)], breaker := Closed(s.breaker.count + n));
    var w := s.(copies := s.copies[i := Waiting(0, 0, 0)]);
    Reach(s, Take(i, 0), w, copies, c);
    var b := CountSome(w, i, n, copies, c);
    assert b.copies == s.copies[i := Waiting(n, 0, n)];
    assert b.copies[i := Under(c)] == t.copies;
    Reach(b, Call(i, 0), t, copies, c);
  }

  /** The first copy loses messages to counted runs until the breaker opens. */
  lemma {:induction false} LoseUntilOpen(s: State, copies: nat, c: Setup) returns (t: State)
    requires Reachable(s, copies, c) && |s.copies| > 0 && s.copies[0].Idle? && s.now == 0
    requires s.breaker.Closed? && s.breaker.count < c.failures && c.retries >= 1
    ensures Reachable(t, copies, c)
    ensures t == s.(breaker := Open(c.openFor), full := s.full + (c.failures - s.breaker.count) / (c.retries + 1))
    decreases c.failures - s.breaker.count
  {
    var left, each := c.failures - s.breaker.count, c.retries + 1;
    t := s.(breaker := Open(c.openFor), full := s.full + left / each);
    if left < each {
      Quotients(0, each, left);
      var b := TakeAndCount(s, left - 1, copies, c);
      OpenAndRefuse(s, b, left - 1, copies, c);
    } else {
      var b := TakeAndCount(s, c.retries, copies, c);
      var u := LoseOne(s, b, copies, c);
      OneLess(left, each);
      if left > each {
        t := LoseUntilOpen(u, copies, c);
      } else {
        Quotients(0, each, 0);
      }
    }
  }

  lemma TakeAndCount(s: State, n: nat, copies: nat, c: Setup) returns (b: State)
    requires Reachable(s, copies, c) && |s.copies| > 0 && s.copies[0].Idle? && s.now == 0
    requires s.breaker.Closed? && s.breaker.count + n < c.failures && n <= c.retries
    ensures Reachable(b, copies, c)
    ensures b == s.(copies := s.copies[0 := Waiting(n, 0, n)], breaker := Closed(s.breaker.count + n))
  {
    var a := s.(copies := s.copies[0 := Waiting(0, 0, 0)]);
    Reach(s, Take(0, 0), a, copies, c);
    b := CountSome(a, 0, n, copies, c);
    assert b.copies == s.copies[0 := Waiting(n, 0, n)];
  }

  lemma OneLess(left: nat, each: nat)
    requires left >= each > 0
    ensures left / each == (left - each) / each + 1
  {
    var q := (left - each) / each;
    assert left - each == q * each + (left - each) % each;
    OneMoreOf(q, each);
    Quotients(q + 1, each, left);
  }

  /** The last run of the first copy's message is counted: the message is lost, and the breaker opens
      if that was the last it may count. */
  lemma LoseOne(s: State, b: State, copies: nat, c: Setup) returns (t: State)
    requires Reachable(b, copies, c) && |s.copies| > 0 && s.copies[0].Idle? && s.now == 0 && b.breaker.Closed?
    requires b == s.(copies := s.copies[0 := Waiting(c.retries, 0, c.retries)], breaker := b.breaker)
    ensures Reachable(t, copies, c)
    ensures var n := b.breaker.count + 1;
            t == s.(full := s.full + 1, breaker := if n >= c.failures then Open(c.openFor) else Closed(n))
  {
    var n := b.breaker.count + 1;
    t := s.(full := s.full + 1, breaker := if n >= c.failures then Open(c.openFor) else Closed(n));
    var r := b.(copies := s.copies[0 := Running(c.retries, false, c.retries)]);
    assert b.copies[0 := Running(c.retries, false, c.retries)] == r.copies;
    Reach(b, Call(0, 0), r, copies, c);
    assert r.copies[0 := Idle] == s.copies;
    Reach(r, Finish(0, 0), t, copies, c);
  }

  /** A run short of the last opens the breaker, and the first copy's message is refused after it. */
  lemma OpenAndRefuse(s: State, b: State, n: nat, copies: nat, c: Setup)
    requires Reachable(b, copies, c) && |s.copies| > 0 && s.copies[0].Idle? && s.now == 0 && n < c.retries
    requires c.failures >= 1
    requires b == s.(copies := s.copies[0 := Waiting(n, 0, n)], breaker := Closed(c.failures - 1))
    ensures Reachable(s.(breaker := Open(c.openFor)), copies, c)
  {
    var r := b.(copies := s.copies[0 := Running(n, false, n)]);
    assert b.copies[0 := Running(n, false, n)] == r.copies;
    Reach(b, Call(0, 0), r, copies, c);
    var w := s.(copies := s.copies[0 := Waiting(n + 1, 0, n + 1)], breaker := Open(c.openFor));
    assert r.copies[0 := Waiting(n + 1, 0, n + 1)] == w.copies;
    Reach(r, Finish(0, 0), w, copies, c);
    assert w.copies[0 := Idle] == s.copies;
    Reach(w, Call(0, 0), s.(breaker := Open(c.openFor)), copies, c);
  }

  /** A run under way ends after the open breaker's time, and its retry is the trial: one more lost. */
  lemma LoseLate(s: State, j: nat, copies: nat, c: Setup) returns (t: State)
    requires Reachable(s, copies, c) && c.retries >= 1 && s.breaker.Open? && s.now <= s.breaker.expiry
    requires 1 <= j < copies && s.copies == Row(j, copies, c)
    ensures Reachable(t, copies, c) && t.breaker.Open? && t.now <= t.breaker.expiry
    ensures t.copies == Row(j - 1, copies, c) && t.full == s.full && t.late == s.late + 1
  {
    var expiry := s.breaker.expiry;
    var at, n := expiry + 1, c.retries;
    RowGrows(j, copies, c);
    var w := s.(copies := s.copies[j := Waiting(n, at, n - 1)], now := at);
    Reach(s, Finish(j, at), w, copies, c);
    var r := s.(copies := s.copies[j := Running(n, true, n - 1)], breaker := OnTrial(expiry), now := at);
    assert w.copies[j := Running(n, true, n - 1)] == r.copies;
    Reach(w, Call(j, at), r, copies, c);
    t := s.(copies := Row(j - 1, copies, c), breaker := Open(at + c.openFor), late := s.late + 1, now := at);
    assert r.copies[j := Idle] == Row(j - 1, copies, c);
    Reach(r, Finish(j, at), t, copies, c);
  }

  lemma {:induction false} LoseAllLate(s: State, j: nat, copies: nat, c: Setup) returns (t: State)
    requires Reachable(s, copies, c) && c.retries >= 1 && s.breaker.Open? && s.now <= s.breaker.expiry
    requires j < copies && s.copies == Row(j, copies, c)
    ensures Reachable(t, copies, c) && t.full == s.full && t.late == s.late + j
    decreases j
  {
    t := s;
    if j > 0 {
      var a := LoseLate(s, j, copies, c);
      t := LoseAllLate(a, j - 1, copies, c);
    }
  }

  /** Every feasible loss is reached, or exceeded, by some run. */
  lemma FeasibleIsReached(full: nat, late: nat, copies: nat, c: Setup) returns (s: State)
    requires c.retries >= 1 && Feasible(full, late, copies, c)
    ensures Reachable(s, copies, c) && s.late == late && s.full >= full
  {
    var used, each := late * (c.retries - 1), c.retries + 1;
    Covers(full, each);
    var a := PutUnderWay(late, copies, c);
    var b := LoseUntilOpen(a, copies, c);
    s := LoseAllLate(b, late, copies, c);
    Quotients(full, each, c.failures - used);
  }

  lemma Covers(full: nat, each: nat)
    ensures full > 0 ==> full * each >= each
  {
    if full > 0 {
      Scaled(1, full, each);
    }
  }

  // ---- The exact condition ----------------------------------------------------------

  /** Some run loses at least n messages. */
  ghost predicate CanLose(n: nat, copies: nat, c: Setup) { exists steps :: Dead(After(steps, copies, c)) >= n }

  ghost predicate SomeFeasible(n: nat, copies: nat, c: Setup)
  {
    exists full: nat, late: nat :: Feasible(full, late, copies, c) && full + late >= n
  }

  /** The most that runs of the copies lose is the largest feasible sum. */
  lemma LosesIffFeasible(n: nat, copies: nat, c: Setup)
    requires c.failures >= 1 && c.retries >= 1 && copies >= 1
    ensures CanLose(n, copies, c) <==> SomeFeasible(n, copies, c)
  {
    if CanLose(n, copies, c) {
      var steps :| Dead(After(steps, copies, c)) >= n;
      LossesAreFeasible(steps, copies, c);
    }
    if SomeFeasible(n, copies, c) {
      var full: nat, late: nat :| Feasible(full, late, copies, c) && full + late >= n;
      var s := FeasibleIsReached(full, late, copies, c);
      var steps :| After(steps, copies, c) == s;
      assert Dead(After(steps, copies, c)) >= n;
    }
  }

  /** With q full messages in the failure limit and r failures over: too few copies, or too few
      failures over, for the runs under way when the breaker opens to make up one more message. */
  predicate TooFewToMatter(copies: nat, c: Setup)
  {
    var each := c.retries + 1;
    var q, r := c.failures / each, c.failures % each;
    2 * Min(copies - 1, q) < each - r && (copies - 1 <= q || 2 * (q + 1) < each + 1 - r)
  }

  /** Two runs fewer are counted for each late message. */
  lemma LateIsCheaper(full: nat, late: nat, each: nat)
    ensures late * (each - 2) + full * each == (full + late) * each - 2 * late
  {
  }

  lemma FewLate(full: nat, late: nat, q: nat, r: nat, each: nat)
    requires late * (each - 2) + full * each <= q * each + r && full + late > q
    ensures 2 * late >= each - r
  {
    LateIsCheaper(full, late, each);
    Scaled(q + 1, full + late, each);
    OneMoreOf(q, each);
  }

  lemma ManyLate(full: nat, late: nat, q: nat, r: nat, each: nat)
    requires each >= 2 && late > q
    requires late * (each - 2) + full * each <= q * each + r - (if full == 0 then 1 else 0)
    ensures 2 * (q + 1) >= each + 1 - r
  {
    Scaled(q + 1, late, each - 2);
    Covers(full, each);
    LateIsCheaper(0, q + 1, each);
    OneMoreOf(q, each);
  }

  lemma FeasibleMatters(full: nat, late: nat, copies: nat, c: Setup)
    requires c.retries >= 1 && copies >= 1 && Feasible(full, late, copies, c)
    requires full + late > c.failures / (c.retries + 1)
    ensures !TooFewToMatter(copies, c)
  {
    var each := c.retries + 1;
    var q, r := c.failures / each, c.failures % each;
    assert c.failures == q * each + r;
    if late <= q {
      FewLate(full, late, q, r, each);
    } else {
      ManyLate(full, late, q, r, each);
    }
  }

  lemma MattersIsFeasible(copies: nat, c: Setup) returns (full: nat, late: nat)
    requires c.retries >= 1 && copies >= 1 && !TooFewToMatter(copies, c)
    ensures Feasible(full, late, copies, c) && full + late == c.failures / (c.retries + 1) + 1
  {
    var each := c.retries + 1;
    var q, r := c.failures / each, c.failures % each;
    assert c.failures == q * each + r;
    OneMoreOf(q, each);
    if 2 * Min(copies - 1, q) >= each - r {
      late := Min(copies - 1, q);
      full := q + 1 - late;
    } else {
      full, late := 0, q + 1;
    }
    LateIsCheaper(full, late, each);
  }

  lemma MattersIff(copies: nat, c: Setup)
    requires c.retries >= 1 && copies >= 1
    ensures SomeFeasible(c.failures / (c.retries + 1) + 1, copies, c) <==> !TooFewToMatter(copies, c)
  {
    var q := c.failures / (c.retries + 1);
    if SomeFeasible(q + 1, copies, c) {
      var full: nat, late: nat :| Feasible(full, late, copies, c) && full + late >= q + 1;
      FeasibleMatters(full, late, copies, c);
    }
    if !TooFewToMatter(copies, c) {
      var full, late := MattersIsFeasible(copies, c);
    }
  }

  /** No run loses more than n messages. */
  ghost predicate NeverLosesMore(n: nat, copies: nat, c: Setup) { forall steps :: Dead(After(steps, copies, c)) <= n }

  lemma NeverLosesMoreIff(n: nat, copies: nat, c: Setup)
    ensures NeverLosesMore(n, copies, c) <==> !CanLose(n + 1, copies, c)
  {
    if !CanLose(n + 1, copies, c) {
      forall steps ensures Dead(After(steps, copies, c)) <= n {
        assert !(Dead(After(steps, copies, c)) >= n + 1);
      }
    }
  }

  /** In every run the copies lose no more than one consumer would, floor(Failures / (MaxRetries + 1)),
      exactly when they are too few to matter. */
  lemma OneConsumerBoundIff(copies: nat, c: Setup)
    requires c.failures >= 1 && c.retries >= 1 && copies >= 1
    ensures NeverLosesMore(c.failures / (c.retries + 1), copies, c) <==> TooFewToMatter(copies, c)
  {
    var q := c.failures / (c.retries + 1);
    NeverLosesMoreIff(q, copies, c);
    LosesIffFeasible(q + 1, copies, c);
    MattersIff(copies, c);
  }

  // ---- One copy is one consumer -----------------------------------------------------

  function SetupOf(c: C.Config): Setup
    requires c.failures >= 1
  {
    Setup(c.failures, C.MaxRetries(c), C.OpenFor(c))
  }

  predicate Same(b: Breaker, s: C.State)
  {
    match s
    case Closed(n) => b == Closed(n)
    case Open(expiry) => b == Open(expiry)
    case HalfOpen => false
  }

  /** A message's tries, all transient, follow each other in time within their waits. */
  ghost predicate Timed(tries: nat -> C.Try, until: int, c: C.Config)
  {
    forall k: nat :: k <= C.MaxRetries(c) ==>
      && C.ShouldRetry(C.Seen(tries(k))) && tries(k).began <= tries(k).ended <= until
      && (k < C.MaxRetries(c) ==>
            !tries(k).cut && tries(k).ended <= tries(k + 1).began <= tries(k).ended + C.OpenFor(c))
  }

  /** One call of the only copy does what the consumer's call does. */
  lemma SimulateCall(s: State, cs: C.State, t: C.Try, k: nat, c: C.Config) returns (u: State)
    requires c.failures >= 1 && k <= C.MaxRetries(c) && Reachable(s, 1, SetupOf(c)) && Same(s.breaker, cs)
    requires |s.copies| == 1 && s.copies[0].Waiting? && s.copies[0].tries == k && s.now <= t.began <= t.ended
    requires k > 0 ==> t.began <= s.copies[0].ended + C.OpenFor(c)
    requires C.ShouldRetry(C.Seen(t))
    ensures Reachable(u, 1, SetupOf(c)) && |u.copies| == 1 && s.now <= u.now <= t.ended
    ensures var (cu, r) := C.Call(cs, t, c);
            && Same(u.breaker, cu)
            && (r == C.Refused ==> u.copies == [Idle] && Dead(u) == Dead(s))
            && (r != C.Refused && k == C.MaxRetries(c) ==> u.copies == [Idle] && Dead(u) == Dead(s) + 1)
            && (r != C.Refused && k < C.MaxRetries(c) ==>
                  Dead(u) == Dead(s) && u.copies[0].Waiting? && u.copies[0].tries == k + 1
                  && u.copies[0].ended == t.ended)
  {
    var setup := SetupOf(c);
    var a := Next(s, Call(0, t.began), setup);
    Reach(s, Call(0, t.began), a, 1, setup);
    if a.copies[0].Idle? {
      u := a;
      assert u.copies == [Idle];
    } else {
      u := Next(a, Finish(0, t.ended), setup);
      Reach(a, Finish(0, t.ended), u, 1, setup);
      assert u.copies == [u.copies[0]];
    }
  }

  lemma {:induction false} SimulateTries(s: State, cs: C.State, tries: nat -> C.Try, k: nat, until: int, c: C.Config)
    returns (u: State)
    requires c.failures >= 1 && k <= C.MaxRetries(c) && Reachable(s, 1, SetupOf(c)) && Same(s.breaker, cs)
    requires |s.copies| == 1 && s.copies[0].Waiting? && s.copies[0].tries == k && s.now <= tries(k).began
    requires k > 0 ==> tries(k).began <= s.copies[0].ended + C.OpenFor(c)
    requires Timed(tries, until, c)
    ensures Reachable(u, 1, SetupOf(c)) && u.copies == [Idle] && u.now <= until
    ensures var (cu, r, _) := C.Retried(cs, tries, k, c);
            Same(u.breaker, cu) && Dead(u) == Dead(s) + if C.Verdict(r, true).DeadLettered? then 1 else 0
    decreases C.MaxRetries(c) - k
  {
    var (cu, r) := C.Call(cs, tries(k), c);
    u := SimulateCall(s, cs, tries(k), k, c);
    if C.GoesOn(r, tries(k), k, c) {
      u := SimulateTries(u, cu, tries, k + 1, until, c);
    }
  }

  /** Messages one after the other. */
  ghost predicate InTurn(messages: nat -> nat -> C.Try, c: C.Config)
  {
    && messages(0)(0).began >= 0
    && forall m: nat :: Timed(messages(m), messages(m + 1)(0).began, c)
  }

  /** For one copy the machine is the consumer: a run of deliveries in turn is a run of it, with the
      same breaker and the same dead letters. */
  lemma {:induction false} OneCopyIsTheConsumer(messages: nat -> nat -> C.Try, n: nat, c: C.Config) returns (s: State)
    requires c.failures >= 1 && InTurn(messages, c)
    ensures Reachable(s, 1, SetupOf(c)) && s.copies == [Idle] && s.now <= messages(n)(0).began
    ensures var (cs, dead) := C.Run(C.Closed(0), messages, n, c); Same(s.breaker, cs) && Dead(s) == dead
  {
    var setup := SetupOf(c);
    if n == 0 {
      s := Init(1);
      assert s.copies == [Idle] && After([], 1, setup) == s;
    } else {
      var a := OneCopyIsTheConsumer(messages, n - 1, c);
      var tries := messages(n - 1);
      assert Timed(tries, messages(n - 1 + 1)(0).began, c);
      var w := Next(a, Take(0, tries(0).began), setup);
      Reach(a, Take(0, tries(0).began), w, 1, setup);
      s := SimulateTries(w, C.Run(C.Closed(0), messages, n - 1, c).0, tries, 0, messages(n)(0).began, c);
    }
  }
}
