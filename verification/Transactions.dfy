/** Units of work: InTx opens a transaction, or a savepoint inside the caller's transaction, and
    business rows and outbox rows are written on it. Any call may fail, and its caller may catch
    the error and go on. */
module Transactions {
  /** A row of a business table, or an event appended to the outbox. */
  datatype Row = Business(id: int) | Outbox(event: int)

  datatype Event = Event(id: int, encodes: bool, accepted: bool)

  /** What a service function does. caught says whether it goes on after that statement's error.
      A call is not transactional when the unit has no Transactor, and events are dropped when it
      has no Recorder. */
  datatype Stmt =
    | Write(row: int, accepted: bool, caught: bool)
    | Record(recording: bool, events: seq<Event>, caught: bool)
    | Fail(caught: bool)
    | InTx(transactional: bool, body: seq<Stmt>, commits: bool, caught: bool)

  /** A row that was written, with the results of the transactional calls around it, innermost
      first. */
  datatype Entry = Entry(row: Row, chain: seq<bool>)

  /** aborted: an SQL error has made the open transaction refuse every statement. */
  datatype Outcome = Outcome(err: bool, aborted: bool, log: seq<Entry>)

  function Insert(row: Row, accepted: bool, open: bool, aborted: bool): Outcome
  {
    if aborted then Outcome(true, true, [])
    else if accepted then Outcome(false, false, [Entry(row, [])])
    else Outcome(true, open, [])
  }

  /** Appends events until one does not encode or is refused. */
  function Recorded(events: seq<Event>, open: bool, aborted: bool): Outcome
  {
    if events == [] then Outcome(false, aborted, [])
    else if !events[0].encodes then Outcome(true, aborted, [])
    else
      var a := Insert(Outbox(events[0].id), events[0].accepted, open, aborted);
      if a.err then a
      else
        var b := Recorded(events[1..], open, a.aborted);
        b.(log := a.log + b.log)
  }

  function Sealed(log: seq<Entry>, ok: bool): (r: seq<Entry>)
    ensures |r| == |log|
  {
    if log == [] then [] else [log[0].(chain := log[0].chain + [ok])] + Sealed(log[1..], ok)
  }

  /** A transactional call succeeds when its body does and, if it owns the transaction, the commit
      does too. */
  function Succeeds(body: Outcome, open: bool, commits: bool): bool
  {
    !body.err && (open || (!body.aborted && commits))
  }

  /** What the call around a body amounts to: a failed one rolls back to where it began, which was
      not aborted. */
  function Closed(body: Outcome, open: bool, commits: bool): Outcome
  {
    var ok := Succeeds(body, open, commits);
    Outcome(!ok, ok && body.aborted, Sealed(body.log, ok))
  }

  /** A call without a Transactor is its body. In an aborted transaction the SAVEPOINT of a
      transactional call is refused, and its body never runs. */
  function Meaning(stmt: Stmt, open: bool, aborted: bool): Outcome
    decreases stmt
  {
    match stmt
    case Write(row, accepted, _) => Insert(Business(row), accepted, open, aborted)
    case Record(recording, events, _) =>
      if recording then Recorded(events, open, aborted) else Outcome(false, aborted, [])
    case Fail(_) => Outcome(true, aborted, [])
    case InTx(transactional, body, commits, _) =>
      if !transactional then Body(body, open, aborted)
      else if open && aborted then Outcome(true, true, [])
      else Closed(Body(body, true, false), open, commits)
  }

  /** Statements in order, up to the first error that is not caught. */
  function Body(stmts: seq<Stmt>, open: bool, aborted: bool): Outcome
    decreases stmts
  {
    if stmts == [] then Outcome(false, aborted, [])
    else
      var a := Meaning(stmts[0], open, aborted);
      if a.err && !stmts[0].caught then a
      else
        var b := Body(stmts[1..], open, a.aborted);
        b.(log := a.log + b.log)
  }

  predicate AllTrue(chain: seq<bool>) { forall i :: 0 <= i < |chain| ==> chain[i] }

  /** The rows whose whole chain of enclosing calls succeeded. */
  function Kept(log: seq<Entry>): seq<Row>
  {
    if log == [] then [] else (if AllTrue(log[0].chain) then [log[0].row] else []) + Kept(log[1..])
  }

  lemma {:induction false} KeptConcat(a: seq<Entry>, b: seq<Entry>)
    ensures Kept(a + b) == Kept(a) + Kept(b)
  {
    if a == [] {
      assert a + b == b;
    } else {
      var all, head := a + b, if AllTrue(a[0].chain) then [a[0].row] else [];
      assert all[0] == a[0] && all[1..] == a[1..] + b;
      KeptConcat(a[1..], b);
      assert Kept(all) == head + (Kept(a[1..]) + Kept(b));
    }
  }

  lemma {:induction false} KeptSealed(log: seq<Entry>, ok: bool)
    ensures Kept(Sealed(log, ok)) == if ok then Kept(log) else []
  {
    if log != [] {
      KeptSealed(log[1..], ok);
      var chain := log[0].chain + [ok];
      assert chain[|chain| - 1] == ok;
      assert AllTrue(chain) <==> AllTrue(log[0].chain) && ok by {
        assert forall i :: 0 <= i < |log[0].chain| ==> chain[i] == log[0].chain[i];
      }
    }
  }

  /** What is left to do, done from view on, ends as the whole done from the start. */
  ghost predicate Remaining(all: Outcome, start: seq<Row>, rest: Outcome, view: seq<Row>)
  {
    all.err == rest.err && all.aborted == rest.aborted && start + Kept(all.log) == view + Kept(rest.log)
  }

  lemma BodyAdvances(all: Outcome, start: seq<Row>, stmts: seq<Stmt>, i: nat, open: bool, aborted: bool,
                     view: seq<Row>, next: seq<Row>)
    requires i < |stmts| && Remaining(all, start, Body(stmts[i..], open, aborted), view)
    requires next == view + Kept(Meaning(stmts[i], open, aborted).log)
    ensures var a := Meaning(stmts[i], open, aborted);
            if a.err && !stmts[i].caught
            then all.err && all.aborted == a.aborted && next == start + Kept(all.log)
            else Remaining(all, start, Body(stmts[i + 1..], open, a.aborted), next)
  {
    var rest := stmts[i..];
    assert rest[0] == stmts[i] && rest[1..] == stmts[i + 1..];
    var a := Meaning(rest[0], open, aborted);
    if !(a.err && !rest[0].caught) {
      var b := Body(rest[1..], open, a.aborted);
      KeptConcat(a.log, b.log);
      assert view + (Kept(a.log) + Kept(b.log)) == next + Kept(b.log);
    }
  }

  lemma RecordAdvances(all: Outcome, start: seq<Row>, events: seq<Event>, i: nat, open: bool, aborted: bool,
                       view: seq<Row>, next: seq<Row>)
    requires i < |events| && events[i].encodes && Remaining(all, start, Recorded(events[i..], open, aborted), view)
    requires next == view + Kept(Insert(Outbox(events[i].id), events[i].accepted, open, aborted).log)
    ensures var a := Insert(Outbox(events[i].id), events[i].accepted, open, aborted);
            if a.err
            then all.err && all.aborted == a.aborted && next == start + Kept(all.log)
            else Remaining(all, start, Recorded(events[i + 1..], open, a.aborted), next)
  {
  }

  class Database {
    var committed: seq<Row>
    /** What the session sees: the committed rows and its own. */
    var view: seq<Row>
    var open: bool
    var aborted: bool

    /** A transaction is open, or nothing is pending. */
    ghost predicate Valid() reads this { !open ==> view == committed && !aborted }

    constructor ()
      ensures Valid() && committed == [] && !open
    {
      committed, view, open, aborted := [], [], false, false;
    }

    method Execute(row: Row, accepted: bool) returns (err: bool)
      requires Valid()
      modifies this
      ensures Valid() && open == old(open)
      ensures var o := Insert(row, accepted, open, old(aborted));
              err == o.err && aborted == o.aborted && view == old(view) + Kept(o.log)
      ensures open ==> committed == old(committed)
    {
      err := aborted || !accepted;
      if !err {
        view := view + [row];
        if !open {
          committed := view;
        }
      } else if open {
        aborted := true;
      }
    }

    /** Unit.Record and the outbox's Record. */
    method RecordEvents(recording: bool, events: seq<Event>) returns (err: bool)
      requires Valid()
      modifies this
      ensures Valid() && open == old(open)
      ensures var o := Meaning(Record(recording, events, true), open, old(aborted));
              err == o.err && aborted == o.aborted && view == old(view) + Kept(o.log)
      ensures open ==> committed == old(committed)
    {
      err := false;
      if !recording || |events| == 0 {
        return;
      }
      ghost var all := Recorded(events, open, aborted);
      for i := 0 to |events|
        invariant Valid() && open == old(open) && (open ==> committed == old(committed))
        invariant Remaining(all, old(view), Recorded(events[i..], open, aborted), view)
      {
        if !events[i].encodes {
          return true;
        }
        ghost var before, seen := aborted, view;
        err := Execute(Outbox(events[i].id), events[i].accepted);
        RecordAdvances(all, old(view), events, i, open, before, seen, view);
        if err {
          return;
        }
      }
    }

    /** Unit.InTx and Transactor.InTx: a transaction, a savepoint in the one already open, or
        neither. A failed call puts everything back as it was on entry; in an aborted transaction
        the savepoint is refused. */
    method Call(transactional: bool, body: seq<Stmt>, commits: bool) returns (err: bool)
      requires Valid()
      modifies this
      ensures Valid() && open == old(open)
      ensures var o := Meaning(InTx(transactional, body, commits, true), open, old(aborted));
              err == o.err && aborted == o.aborted && view == old(view) + Kept(o.log)
      ensures open ==> committed == old(committed)
      decreases body, 1
    {
      if !transactional {
        err := Run(body);
        return;
      }
      if aborted {
        return true;
      }
      var outer, savedView := open, view;
      open := true;
      ghost var inner := Body(body, true, false);
      err := Run(body);
      KeptSealed(inner.log, Succeeds(inner, outer, commits));
      if !outer && !err && (aborted || !commits) {
        err := true;
      }
      if err {
        view, aborted := savedView, false;
      }
      open := outer;
      if !outer {
        committed := view;
      }
    }

    method Run(stmts: seq<Stmt>) returns (err: bool)
      requires Valid()
      modifies this
      ensures Valid() && open == old(open)
      ensures var o := Body(stmts, open, old(aborted));
              err == o.err && aborted == o.aborted && view == old(view) + Kept(o.log)
      ensures open ==> committed == old(committed)
      decreases stmts, 0
    {
      err := false;
      ghost var all := Body(stmts, open, aborted);
      for i := 0 to |stmts|
        invariant Valid() && open == old(open) && (open ==> committed == old(committed))
        invariant Remaining(all, old(view), Body(stmts[i..], open, aborted), view)
      {
        ghost var before, seen := aborted, view;
        err := Perform(stmts[i]);
        BodyAdvances(all, old(view), stmts, i, open, before, seen, view);
        if err && !stmts[i].caught {
          return;
        }
      }
      err := false;
    }

    method Perform(stmt: Stmt) returns (err: bool)
      requires Valid()
      modifies this
      ensures Valid() && open == old(open)
      ensures var o := Meaning(stmt, open, old(aborted));
              err == o.err && aborted == o.aborted && view == old(view) + Kept(o.log)
      ensures open ==> committed == old(committed)
      decreases stmt
    {
      match stmt {
        case Write(row, accepted, _) => err := Execute(Business(row), accepted);
        case Record(recording, events, _) => err := RecordEvents(recording, events);
        case Fail(_) => err := true;
        case InTx(transactional, body, commits, _) => err := Call(transactional, body, commits);
      }
    }
  }

  // ---- What the calls promise -------------------------------------------------------

  function EventRows(events: seq<Event>): seq<Row>
  {
    if events == [] then [] else [Outbox(events[0].id)] + EventRows(events[1..])
  }

  /** Every row a program asks for, in order. */
  function Asked(stmts: seq<Stmt>): seq<Row>
    decreases stmts
  {
    if stmts == [] then []
    else
      (match stmts[0]
       case Write(row, _, _) => [Business(row)]
       case Record(recording, events, _) => if recording then EventRows(events) else []
       case Fail(_) => []
       case InTx(_, body, _, _) => Asked(body)) + Asked(stmts[1..])
  }

  predicate AllStored(events: seq<Event>)
  {
    forall i :: 0 <= i < |events| ==> events[i].encodes && events[i].accepted
  }

  /** Nothing is refused, nothing fails. */
  predicate Smooth(stmts: seq<Stmt>)
    decreases stmts
  {
    stmts == [] ||
    (Smooth(stmts[1..]) &&
     match stmts[0]
     case Write(_, accepted, _) => accepted
     case Record(_, events, _) => AllStored(events)
     case Fail(_) => false
     case InTx(_, body, commits, _) => commits && Smooth(body))
  }

  lemma {:induction false} SmoothRecord(events: seq<Event>, open: bool)
    requires AllStored(events)
    ensures var o := Recorded(events, open, false); !o.err && !o.aborted && Kept(o.log) == EventRows(events)
  {
    if events != [] {
      SmoothRecord(events[1..], open);
      KeptConcat([Entry(Outbox(events[0].id), [])], Recorded(events[1..], open, false).log);
    }
  }

  /** When nothing fails, every business row and every recorded event is kept, in order. */
  lemma {:induction false} SmoothKeepsAll(stmts: seq<Stmt>, open: bool)
    requires Smooth(stmts)
    ensures var o := Body(stmts, open, false); !o.err && !o.aborted && Kept(o.log) == Asked(stmts)
    decreases stmts
  {
    if stmts != [] {
      SmoothKeepsAll(stmts[1..], open);
      match stmts[0] {
        case Write(_, _, _) =>
        case Record(_, events, _) => SmoothRecord(events, open);
        case InTx(transactional, body, commits, _) =>
          SmoothKeepsAll(body, transactional || open);
          if transactional {
            KeptSealed(Body(body, true, false).log, true);
          }
      }
      KeptConcat(Meaning(stmts[0], open, false).log, Body(stmts[1..], open, false).log);
    }
  }

  /** A nested call whose error is caught leaves the caller's transaction as if it had never been
      made: the caller goes on with the same statements, the same rows and the same result. */
  lemma FailedSavepointIsInvisible(body: seq<Stmt>, commits: bool, rest: seq<Stmt>, aborted: bool)
    requires Meaning(InTx(true, body, commits, true), true, aborted).err
    ensures var with := Body([InTx(true, body, commits, true)] + rest, true, aborted);
            var without := Body(rest, true, aborted);
            with.err == without.err && with.aborted == without.aborted && Kept(with.log) == Kept(without.log)
  {
    var all := [InTx(true, body, commits, true)] + rest;
    assert all[1..] == rest;
    var inner := Body(body, true, false);
    KeptSealed(inner.log, false);
    KeptConcat(Meaning(all[0], true, aborted).log, Body(rest, true, aborted).log);
  }

  lemma {:induction false} AbortedRecord(events: seq<Event>)
    ensures var o := Recorded(events, true, true); o.aborted && o.log == []
  {
  }

  /** Once aborted, a transaction stays so and takes no more rows, whatever is run in it. */
  lemma {:induction false} AbortedStays(stmts: seq<Stmt>)
    ensures var o := Body(stmts, true, true); o.aborted && o.log == []
    decreases stmts
  {
    if stmts != [] {
      match stmts[0] {
        case Write(_, _, _) =>
        case Record(_, events, _) => AbortedRecord(events);
        case Fail(_) =>
        case InTx(transactional, body, _, _) => AbortedStays(body);
      }
      AbortedStays(stmts[1..]);
    }
  }

  lemma {:induction false} BodyConcat(a: seq<Stmt>, b: seq<Stmt>, open: bool, aborted: bool)
    requires !Body(a, open, aborted).err
    ensures var x := Body(a, open, aborted); var y := Body(b, open, x.aborted);
            Body(a + b, open, aborted) == y.(log := x.log + y.log)
  {
    if a == [] {
      assert a + b == b;
    } else {
      var m := Meaning(a[0], open, aborted);
      assert (a + b)[0] == a[0] && (a + b)[1..] == a[1..] + b;
      var rest := a[1..];
      var tail := Body(rest, open, m.aborted);
      assert Body(a, open, aborted) == tail.(log := m.log + tail.log);
      BodyConcat(rest, b, open, m.aborted);
      var y := Body(b, open, tail.aborted);
      assert Body(a + b, open, aborted) == y.(log := m.log + (tail.log + y.log));
      assert m.log + (tail.log + y.log) == m.log + tail.log + y.log;
    }
  }

  /** A nested call whose error is caught costs only itself, wherever it stands in the call that
      owns the transaction. */
  lemma CaughtWithSavepointCostsNothing(pre: seq<Stmt>, body: seq<Stmt>, post: seq<Stmt>, commits: bool)
    requires !Body(pre, true, false).err && Body(body, true, false).err
    ensures var with := Meaning(InTx(true, pre + [InTx(true, body, true, true)] + post, commits, true), false, false);
            var without := Meaning(InTx(true, pre + post, commits, true), false, false);
            with.err == without.err && Kept(with.log) == Kept(without.log)
  {
    var guarded := [InTx(true, body, true, true)];
    var x := Body(pre, true, false);
    FailedSavepointIsInvisible(body, true, post, x.aborted);
    assert pre + guarded + post == pre + (guarded + post);
    BodyConcat(pre, guarded + post, true, false);
    BodyConcat(pre, post, true, false);
    var with, without := Body(guarded + post, true, x.aborted), Body(post, true, x.aborted);
    KeptConcat(x.log, with.log);
    KeptConcat(x.log, without.log);
    var ok := Succeeds(without, false, commits);
    KeptSealed(x.log + with.log, ok);
    KeptSealed(x.log + without.log, ok);
  }

  // ---- When the owning call commits, read off the tree ------------------------------

  /** The statement errs in an aborted transaction: every SQL statement does, a savepoint included. */
  predicate ErrsAborted(stmt: Stmt)
    decreases stmt
  {
    match stmt
    case Write(_, _, _) => true
    case Record(recording, events, _) => recording && events != []
    case Fail(_) => true
    case InTx(transactional, body, _, _) => transactional || StopsAborted(body)
  }

  predicate StopsAborted(stmts: seq<Stmt>)
    decreases stmts
  {
    stmts != [] && ((ErrsAborted(stmts[0]) && !stmts[0].caught) || StopsAborted(stmts[1..]))
  }

  /** The first event that is not stored is one the database refuses. */
  predicate FirstRefused(events: seq<Event>)
  {
    exists i :: 0 <= i < |events| && events[i].encodes && !events[i].accepted && AllStored(events[..i])
  }

  /** The statement errs in a transaction where nothing has been refused. */
  predicate Errs(stmt: Stmt)
    decreases stmt
  {
    match stmt
    case Write(_, accepted, _) => !accepted
    case Record(recording, events, _) => recording && !AllStored(events)
    case Fail(_) => true
    case InTx(_, body, _, _) => Stops(body)
  }

  /** The statement leaves behind a refusal that no savepoint has rolled back. */
  predicate Taints(stmt: Stmt)
    decreases stmt
  {
    match stmt
    case Write(_, accepted, _) => !accepted
    case Record(recording, events, _) => recording && FirstRefused(events)
    case Fail(_) => false
    case InTx(transactional, body, _, _) => LeavesTaint(body) && !(transactional && Stops(body))
  }

  /** The body ends with an error: at an uncaught one, or after a refusal at any uncaught statement. */
  predicate Stops(stmts: seq<Stmt>)
    decreases stmts
  {
    stmts != [] &&
    if Errs(stmts[0]) && !stmts[0].caught then true
    else if Taints(stmts[0]) then StopsAborted(stmts[1..])
    else Stops(stmts[1..])
  }

  /** Among the statements that run, one leaves a refusal behind. */
  predicate LeavesTaint(stmts: seq<Stmt>)
    decreases stmts
  {
    stmts != [] && (Taints(stmts[0]) || (!(Errs(stmts[0]) && !stmts[0].caught) && LeavesTaint(stmts[1..])))
  }

  lemma {:induction false} AbortedErrs(stmts: seq<Stmt>)
    ensures Body(stmts, true, true).err == StopsAborted(stmts)
    decreases stmts
  {
    if stmts != [] {
      AbortedMeaning(stmts[0]);
      AbortedErrs(stmts[1..]);
    }
  }

  lemma {:induction false} AbortedMeaning(stmt: Stmt)
    ensures var o := Meaning(stmt, true, true); o.err == ErrsAborted(stmt) && o.aborted
    decreases stmt
  {
    match stmt {
      case Write(_, _, _) =>
      case Record(_, events, _) => AbortedRecord(events);
      case Fail(_) =>
      case InTx(_, body, _, _) =>
        AbortedErrs(body);
        AbortedStays(body);
    }
  }

  lemma {:induction false} RecordedReadsOff(events: seq<Event>)
    ensures var o := Recorded(events, true, false); o.err == !AllStored(events) && o.aborted == FirstRefused(events)
  {
    if events != [] {
      var rest := events[1..];
      RecordedReadsOff(rest);
      if events[0].encodes && events[0].accepted {
        assert AllStored(events) == AllStored(rest) by { assert events == [events[0]] + rest; }
        if FirstRefused(rest) {
          var i :| 0 <= i < |rest| && rest[i].encodes && !rest[i].accepted && AllStored(rest[..i]);
          assert events[i + 1] == rest[i] && events[..i + 1] == [events[0]] + rest[..i];
        }
        if FirstRefused(events) {
          var i :| 0 <= i < |events| && events[i].encodes && !events[i].accepted && AllStored(events[..i]);
          assert rest[i - 1] == events[i];
          forall j | 0 <= j < i - 1 ensures rest[j].encodes && rest[j].accepted {
            assert rest[j] == events[..i][j + 1];
          }
          assert AllStored(rest[..i - 1]);
        }
      } else if FirstRefused(events) {
        var i :| 0 <= i < |events| && events[i].encodes && !events[i].accepted && AllStored(events[..i]);
        assert i > 0 ==> events[..i][0] == events[0];
      } else {
        assert AllStored(events[..0]);
      }
    }
  }

  lemma {:induction false} MeaningReadsOff(stmt: Stmt)
    ensures var o := Meaning(stmt, true, false); o.err == Errs(stmt) && o.aborted == Taints(stmt)
    decreases stmt
  {
    match stmt {
      case Write(_, _, _) =>
      case Record(_, events, _) => RecordedReadsOff(events);
      case Fail(_) =>
      case InTx(_, body, _, _) => BodyReadsOff(body);
    }
  }

  /** A body's error and whether it leaves the transaction aborted can be read off the tree. */
  lemma {:induction false} BodyReadsOff(stmts: seq<Stmt>)
    ensures var o := Body(stmts, true, false); o.err == Stops(stmts) && o.aborted == LeavesTaint(stmts)
    decreases stmts
  {
    if stmts != [] {
      MeaningReadsOff(stmts[0]);
      if Taints(stmts[0]) {
        AbortedErrs(stmts[1..]);
        AbortedStays(stmts[1..]);
      } else {
        BodyReadsOff(stmts[1..]);
      }
    }
  }

  /** The call that owns the transaction succeeds exactly when its body ends without an error, its
      commit succeeds, and no refused statement was caught outside a savepoint that rolled back; it
      keeps what its body keeps then, and nothing otherwise. */
  lemma OwnerCommitsIff(body: seq<Stmt>, commits: bool, caught: bool)
    ensures var o := Meaning(InTx(true, body, commits, caught), false, false);
            var commit := commits && !Stops(body) && !LeavesTaint(body);
            && (!o.err <==> commit)
            && Kept(o.log) == if commit then Kept(Body(body, true, false).log) else []
  {
    BodyReadsOff(body);
    KeptSealed(Body(body, true, false).log, Succeeds(Body(body, true, false), false, commits));
  }
}
