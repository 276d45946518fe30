/** Event delivery end to end: committed outbox rows, several relays that publish them, a broker
    that delivers any copy any number of times, and several copies of each consumer's handler
    behind the dedupe table. Every failure and every interleaving is a run of this machine. */
module Delivery {
  import opened Common
  import opened Relay
  import B = Backoff

  /** A relay's open transaction: the rows it locked and the outcomes it has stored so far. */
  datatype Claiming = Claiming(now: int, held: set<int>, stored: map<int, Row>)

  /** A handler copy inside Once: its dedupe row is inserted but not committed. */
  datatype Handler = Handler(consumer: string, event: int)

  datatype Fact =
    | Accepted(event: int)
    | Handled(consumer: string, event: int)
    | Forgotten(consumer: string, event: int)

  datatype State = State(
    rows: map<int, Row>, committed: set<int>, pruned: set<int>, relays: map<int, Claiming>,
    processed: set<Handler>, handlers: map<int, Handler>, history: seq<Fact>)

  const Init: State := State(map[], {}, {}, map[], {}, map[], [])

  datatype Step =
    | Record(event: int, at: int)
    | Select(relay: int, now: int, limit: nat, chosen: set<int>)
    | Publish(relay: int, event: int, copied: bool, reply: Reply)
    | CommitBatch(relay: int)
    | AbortBatch(relay: int)
    | Retry(event: int, now: int)
    | Prune(event: int, cutoff: int)
    | Deliver(handler: int, consumer: string, event: int)
    | HandlerSucceeds(handler: int)
    | HandlerFails(handler: int)
    | Forget(consumer: string, event: int)

  predicate Locked(s: State, event: int) { exists r :: r in s.relays && event in s.relays[r].held }

  /** FOR UPDATE SKIP LOCKED: rows another relay holds cannot be chosen. */
  predicate Claimable(s: State, event: int, now: int)
  {
    event in s.rows && IsPending(s.rows[event]) && s.rows[event].next <= now && !Locked(s, event)
  }

  predicate WasAccepted(history: seq<Fact>, event: int) { Accepted(event) in history }

  /** A publish may reach the broker and still be reported as failed; success is reported only of a
      copy the broker took. A delivery waits while another copy runs the same message. */
  predicate Enabled(s: State, step: Step)
  {
    match step
    case Record(e, _) => e !in s.committed
    case Select(r, now, limit, chosen) =>
      r !in s.relays && |chosen| <= limit && forall e :: e in chosen ==> Claimable(s, e, now)
    case Publish(r, e, copied, reply) =>
      r in s.relays && e in s.relays[r].held && e !in s.relays[r].stored && e in s.rows && (reply.accepted ==> copied)
    case CommitBatch(r) => r in s.relays && s.relays[r].stored.Keys == s.relays[r].held
    case AbortBatch(r) => r in s.relays
    case Retry(e, _) => e in s.rows && s.rows[e].publishedAt.None? && s.rows[e].failedAt.Some? && !Locked(s, e)
    case Prune(e, cutoff) => e in s.rows && s.rows[e].publishedAt.Some? && s.rows[e].publishedAt.value < cutoff
    case Deliver(h, name, e) => h !in s.handlers && WasAccepted(s.history, e) && Handler(name, e) !in s.handlers.Values
    case HandlerSucceeds(h) => h in s.handlers
    case HandlerFails(h) => h in s.handlers
    case Forget(name, e) => Handler(name, e) in s.processed
  }

  /** The effect of a step that is enabled. */
  function Effect(s: State, step: Step, c: B.Config): State
    requires Enabled(s, step)
  {
    match step
    case Record(e, at) => s.(rows := s.rows[e := Row(e, 0, at, None, None)], committed := s.committed + {e})
    case Select(r, now, _, chosen) => s.(relays := s.relays[r := Claiming(now, chosen, map[])])
    case Publish(r, e, copied, reply) =>
      var b := s.relays[r];
      s.(relays := s.relays[r := b.(stored := b.stored[e := Settled(s.rows[e], reply, b.now, c)])],
         history := if copied then s.history + [Accepted(e)] else s.history)
    case CommitBatch(r) => s.(rows := s.rows + s.relays[r].stored, relays := s.relays - {r})
    case AbortBatch(r) => s.(relays := s.relays - {r})
    case Retry(e, now) => s.(rows := s.rows[e := s.rows[e].(failedAt := None, attempts := 0, next := now)])
    case Prune(e, _) => s.(rows := s.rows - {e}, pruned := s.pruned + {e})
    case Deliver(h, name, e) =>
      if Handler(name, e) in s.processed then s else s.(handlers := s.handlers[h := Handler(name, e)])
    case HandlerSucceeds(h) =>
      var key := s.handlers[h];
      s.(handlers := s.handlers - {h}, processed := s.processed + {key},
         history := s.history + [Handled(key.consumer, key.event)])
    case HandlerFails(h) => s.(handlers := s.handlers - {h})
    case Forget(name, e) =>
      s.(processed := s.processed - {Handler(name, e)}, history := s.history + [Forgotten(name, e)])
  }

  function Next(s: State, step: Step, c: B.Config): State { if Enabled(s, step) then Effect(s, step, c) else s }

  function After(steps: seq<Step>, c: B.Config): State
  {
    if steps == [] then Init else Next(After(steps[..|steps| - 1], c), steps[|steps| - 1], c)
  }

  // ---- Invariant --------------------------------------------------------------------

  /** Exactly one of pending, published and parked; published only after an accepted copy. */
  ghost predicate RowOk(r: Row, event: int, history: seq<Fact>, c: B.Config)
  {
    && !(IsPublished(r) && IsParked(r))
    && (IsPublished(r) ==> WasAccepted(history, event))
    && (IsPending(r) ==> r.attempts < c.maxAttempts)
  }

  ghost predicate RowsOk(s: State, c: B.Config)
  {
    && s.rows.Keys + s.pruned == s.committed && s.rows.Keys !! s.pruned
    && (forall e :: e in s.rows ==> RowOk(s.rows[e], e, s.history, c))
    && (forall e :: e in s.pruned ==> WasAccepted(s.history, e))
  }

  /** Open transactions hold disjoint sets of rows, all still pending. */
  ghost predicate RelaysOk(s: State, c: B.Config)
  {
    && (forall r, q :: r in s.relays && q in s.relays && r != q ==> s.relays[r].held !! s.relays[q].held)
    && (forall r :: r in s.relays ==> BatchOk(s, s.relays[r], c))
  }

  ghost predicate BatchOk(s: State, b: Claiming, c: B.Config)
  {
    && b.stored.Keys <= b.held
    && (forall e :: e in b.held ==> e in s.rows && IsPending(s.rows[e]))
    && (forall e :: e in b.stored ==> RowOk(b.stored[e], e, s.history, c))
  }

  /** Copies never run the same message for the same consumer at once, nor one already handled. */
  ghost predicate HandlersOk(s: State)
  {
    && (forall h, g :: h in s.handlers && g in s.handlers && h != g ==> s.handlers[h] != s.handlers[g])
    && (forall h :: h in s.handlers ==> s.handlers[h] !in s.processed && WasAccepted(s.history, s.handlers[h].event))
  }

  /** Successful runs for the consumer and event since its dedupe record was last pruned. */
  function RunsSinceForgotten(history: seq<Fact>, name: string, e: int): nat
  {
    if history == [] then 0
    else
      var rest, last := history[..|history| - 1], history[|history| - 1];
      if last == Forgotten(name, e) then 0
      else RunsSinceForgotten(rest, name, e) + if last == Handled(name, e) then 1 else 0
  }

  ghost predicate DedupeOk(s: State)
  {
    forall name, e :: RunsSinceForgotten(s.history, name, e) == if Handler(name, e) in s.processed then 1 else 0
  }

  ghost predicate Inv(s: State, c: B.Config) { RowsOk(s, c) && RelaysOk(s, c) && HandlersOk(s) && DedupeOk(s) }

  lemma HistoryGrows(history: seq<Fact>, fact: Fact)
    ensures forall e :: WasAccepted(history, e) ==> WasAccepted(history + [fact], e)
    ensures forall name, e :: RunsSinceForgotten(history + [fact], name, e) ==
                              if fact == Forgotten(name, e) then 0
                              else RunsSinceForgotten(history, name, e) + if fact == Handled(name, e) then 1 else 0
  {
  }

  lemma SelectKeeps(s: State, step: Step, c: B.Config)
    requires Inv(s, c) && step.Select? && Enabled(s, step)
    ensures Inv(Effect(s, step, c), c)
  {
    var t := Effect(s, step, c);
    forall e, q | e in step.chosen && q in s.relays
      ensures e !in s.relays[q].held && e in s.rows && IsPending(s.rows[e])
    {
      assert Claimable(s, e, step.now);
    }
    forall r | r in t.relays
      ensures BatchOk(t, t.relays[r], c)
    {
      assert r in s.relays ==> BatchOk(s, s.relays[r], c);
      assert r !in s.relays ==> forall e :: e in step.chosen ==> Claimable(s, e, step.now);
    }
  }

  /** A stored outcome is that of a pending row, still invisible to others. */
  lemma PublishKeeps(s: State, step: Step, c: B.Config)
    requires Inv(s, c) && step.Publish? && Enabled(s, step)
    ensures Inv(Effect(s, step, c), c)
  {
  }

  /** Rows no other relay holds change together; the others' rows stay pending. */
  lemma CommitKeeps(s: State, step: Step, c: B.Config)
    requires Inv(s, c) && step.CommitBatch? && Enabled(s, step)
    ensures Inv(Effect(s, step, c), c)
  {
    var t := Effect(s, step, c);
    var b := s.relays[step.relay];
    assert BatchOk(s, b, c);
    assert forall e :: e in b.stored ==> e in b.held && e in s.rows;
    assert t.rows.Keys == s.rows.Keys;
    forall r | r in t.relays
      ensures BatchOk(t, t.relays[r], c)
    {
      assert BatchOk(s, s.relays[r], c);
      assert s.relays[r].held !! b.held;
      assert forall e :: e in s.relays[r].held ==> e !in b.stored;
    }
  }

  lemma RowStepKeeps(s: State, step: Step, c: B.Config)
    requires Inv(s, c) && c.maxAttempts >= 1 && (step.Record? || step.Retry? || step.Prune?) && Enabled(s, step)
    ensures Inv(Effect(s, step, c), c)
  {
  }

  lemma AbortKeeps(s: State, step: Step, c: B.Config)
    requires Inv(s, c) && step.AbortBatch? && Enabled(s, step)
    ensures Inv(Effect(s, step, c), c)
  {
  }

  lemma HandlerStepKeeps(s: State, step: Step, c: B.Config)
    requires Inv(s, c) && (step.Deliver? || step.HandlerFails?) && Enabled(s, step)
    ensures Inv(Effect(s, step, c), c)
  {
  }

  /** A fact about a consumer is added to the history. */
  lemma DedupeStepKeeps(s: State, step: Step, c: B.Config)
    requires Inv(s, c) && (step.HandlerSucceeds? || step.Forget?) && Enabled(s, step)
    ensures Inv(Effect(s, step, c), c)
  {
  }

  lemma NextKeeps(s: State, step: Step, c: B.Config)
    requires Inv(s, c) && c.maxAttempts >= 1
    ensures Inv(Next(s, step, c), c)
  {
    if Enabled(s, step) {
      match step
      case Record(_, _) => RowStepKeeps(s, step, c);
      case Retry(_, _) => RowStepKeeps(s, step, c);
      case Prune(_, _) => RowStepKeeps(s, step, c);
      case Select(_, _, _, _) => SelectKeeps(s, step, c);
      case Publish(_, _, _, _) => PublishKeeps(s, step, c);
      case CommitBatch(_) => CommitKeeps(s, step, c);
      case AbortBatch(_) => AbortKeeps(s, step, c);
      case Deliver(_, _, _) => HandlerStepKeeps(s, step, c);
      case HandlerFails(_) => HandlerStepKeeps(s, step, c);
      case HandlerSucceeds(_) => DedupeStepKeeps(s, step, c);
      case Forget(_, _) => DedupeStepKeeps(s, step, c);
    }
  }

  lemma {:induction false} RunKeeps(steps: seq<Step>, c: B.Config)
    requires c.maxAttempts >= 1
    ensures Inv(After(steps, c), c)
  {
    if steps != [] {
      RunKeeps(steps[..|steps| - 1], c);
      NextKeeps(After(steps[..|steps| - 1], c), steps[|steps| - 1], c);
    }
  }

  // ---- What every run guarantees ----------------------------------------------------

  predicate ExactlyOne(a: bool, b: bool, d: bool) { (a && !b && !d) || (!a && b && !d) || (!a && !b && d) }

  /** In every run a committed event is pruned, or is stored and exactly one of pending, published
      and parked. It is published, or pruned, only after the broker took a copy, and while pending
      it has attempts left. */
  lemma EventIsAccountedFor(steps: seq<Step>, c: B.Config, e: int)
    requires c.maxAttempts >= 1 && e in After(steps, c).committed
    ensures var s := After(steps, c);
            && (e in s.pruned <==> e !in s.rows)
            && (e in s.pruned ==> WasAccepted(s.history, e))
            && (e in s.rows ==>
                  && ExactlyOne(IsPending(s.rows[e]), IsPublished(s.rows[e]), IsParked(s.rows[e]))
                  && (IsPublished(s.rows[e]) ==> WasAccepted(s.history, e))
                  && (IsPending(s.rows[e]) ==> s.rows[e].attempts < c.maxAttempts))
  {
    RunKeeps(steps, c);
    assert e in After(steps, c).rows ==> RowOk(After(steps, c).rows[e], e, After(steps, c).history, c);
  }

  /** No row is in the hands of two relays, and none is published or parked while it is held. */
  lemma OneRelayAtATime(steps: seq<Step>, c: B.Config, r: int, q: int, e: int)
    requires c.maxAttempts >= 1
    requires var s := After(steps, c);
             r in s.relays && q in s.relays && e in s.relays[r].held && e in s.relays[q].held
    ensures r == q && e in After(steps, c).rows && IsPending(After(steps, c).rows[e])
  {
    RunKeeps(steps, c);
    var s := After(steps, c);
    assert BatchOk(s, s.relays[r], c);
  }

  /** At every moment of the run, at most one successful run since the record was last pruned. */
  ghost predicate NeverTwice(history: seq<Fact>)
  {
    forall n, name, e :: 0 <= n <= |history| ==> RunsSinceForgotten(history[..n], name, e) <= 1
  }

  /** A handler ran only on a message the broker had taken before. */
  ghost predicate HandledAfterAccepted(history: seq<Fact>)
  {
    forall i :: 0 <= i < |history| && history[i].Handled? ==> WasAccepted(history[..i], history[i].event)
  }

  lemma HistoryStep(s: State, step: Step, c: B.Config)
    requires Inv(s, c)
    ensures var t := Next(s, step, c);
            t.history == s.history ||
            (|t.history| == |s.history| + 1 && t.history[..|s.history|] == s.history &&
             (t.history[|s.history|].Handled? ==> WasAccepted(s.history, t.history[|s.history|].event)))
  {
  }

  lemma {:induction false} HistoryIsOrderly(steps: seq<Step>, c: B.Config)
    requires c.maxAttempts >= 1
    ensures NeverTwice(After(steps, c).history) && HandledAfterAccepted(After(steps, c).history)
  {
    RunKeeps(steps, c);
    if steps != [] {
      var before := steps[..|steps| - 1];
      var s, t := After(before, c), After(steps, c);
      HistoryIsOrderly(before, c);
      RunKeeps(before, c);
      HistoryStep(s, steps[|steps| - 1], c);
      forall n, name, e | 0 <= n <= |t.history|
        ensures RunsSinceForgotten(t.history[..n], name, e) <= 1
      {
        if n <= |s.history| {
          assert t.history[..n] == s.history[..n];
        } else {
          assert t.history[..n] == t.history;
        }
      }
      forall i | 0 <= i < |t.history| && t.history[i].Handled?
        ensures WasAccepted(t.history[..i], t.history[i].event)
      {
        if i < |s.history| {
          assert t.history[..i] == s.history[..i] && t.history[i] == s.history[i];
        } else {
          assert t.history[..i] == s.history;
        }
      }
    }
  }

  lemma {:induction false} RunsAddUp(history: seq<Fact>, i: nat, n: nat, name: string, e: int)
    requires i < n <= |history| && history[i] == Handled(name, e)
    requires forall k :: i < k < n ==> history[k] != Forgotten(name, e)
    ensures RunsSinceForgotten(history[..n], name, e) >= 1
    decreases n
  {
    var upTo := history[..n];
    assert upTo[..n - 1] == history[..n - 1] && upTo[n - 1] == history[n - 1];
    if n > i + 1 {
      RunsAddUp(history, i, n - 1, name, e);
    }
  }

  lemma RunsTwice(history: seq<Fact>, i: nat, j: nat, name: string, e: int)
    requires i < j < |history| && history[i] == history[j] == Handled(name, e)
    requires forall k :: i < k < j ==> history[k] != Forgotten(name, e)
    ensures RunsSinceForgotten(history[..j + 1], name, e) >= 2
  {
    RunsAddUp(history, i, j, name, e);
    var upTo := history[..j + 1];
    assert upTo[..j] == history[..j] && upTo[j] == history[j];
  }

  /** Whatever is redelivered and however many copies run, between two successful runs of a
      consumer on one event its dedupe record was pruned. */
  lemma OneRunPerRecord(steps: seq<Step>, c: B.Config, i: nat, j: nat, name: string, e: int) returns (k: nat)
    requires c.maxAttempts >= 1 && i < j < |After(steps, c).history|
    requires After(steps, c).history[i] == Handled(name, e) && After(steps, c).history[j] == Handled(name, e)
    ensures i < k < j && After(steps, c).history[k] == Forgotten(name, e)
  {
    var history := After(steps, c).history;
    HistoryIsOrderly(steps, c);
    if forall k :: i < k < j ==> history[k] != Forgotten(name, e) {
      RunsTwice(history, i, j, name, e);
      assert false;
    }
    k :| i < k < j && history[k] == Forgotten(name, e);
  }

  /** Every successful run follows a copy that the broker took. */
  lemma RunsFollowAcceptance(steps: seq<Step>, c: B.Config, i: nat)
    requires c.maxAttempts >= 1 && i < |After(steps, c).history| && After(steps, c).history[i].Handled?
    ensures WasAccepted(After(steps, c).history[..i], After(steps, c).history[i].event)
  {
    HistoryIsOrderly(steps, c);
  }
}
