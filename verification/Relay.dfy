/** The outbox relay: a batch claims due rows, publishes each and stores every outcome in one
    transaction, and Drain repeats it until fewer than a full batch is due. */
module Relay {
  import opened Common
  import opened Ranking
  import B = Backoff

  /** The outbox columns that decide a row's fate. */
  datatype Row = Row(id: int, attempts: nat, next: int, publishedAt: Option<int>, failedAt: Option<int>)

  predicate IsPending(r: Row) { r.publishedAt.None? && r.failedAt.None? }
  predicate IsPublished(r: Row) { r.publishedAt.Some? }
  predicate IsParked(r: Row) { r.failedAt.Some? }

  /** How one publish goes: whether the stored headers decode, whether the publisher reports
      success, the clock when it does not, and whether storing the outcome fails. */
  datatype Reply = Reply(decodes: bool, accepted: bool, clock: int, storeFails: bool)

  /** What one batch meets: cancellation before it, the clock, rows other relays hold, a failing
      query or commit, and the replies in order. */
  datatype Batch = Batch(
    cancelled: bool, now: int, locked: set<int>, selectFails: bool, commitFails: bool, replies: nat -> Reply)

  predicate UniqueIds(rows: seq<Row>) { forall i, j :: 0 <= i < j < |rows| ==> rows[i].id != rows[j].id }

  predicate IsDue(r: Row, now: int, locked: set<int>) { IsPending(r) && r.next <= now && r.id !in locked }

  function Due(rows: seq<Row>, now: int, locked: set<int>): seq<Row>
  {
    if rows == [] then [] else (if IsDue(rows[0], now, locked) then [rows[0]] else []) + Due(rows[1..], now, locked)
  }

  predicate DueBefore(a: Row, b: Row) { a.next < b.next || (a.next == b.next && a.id < b.id) }

  /** The claim: due rows nobody else holds, by next_attempt_at then id, up to the limit. */
  function Claim(rows: seq<Row>, now: int, locked: set<int>, limit: nat): seq<Row>
  {
    First(Due(rows, now, locked), DueBefore, limit)
  }

  /** The row once its outcome is stored: published, to be retried later, or parked after the last
      attempt. */
  function Settled(r: Row, reply: Reply, now: int, c: B.Config): (t: Row)
    ensures t.id == r.id && t.attempts == r.attempts + 1
    ensures IsPending(r) ==> (IsPublished(t) <==> reply.accepted)
    ensures IsPending(r) ==> (IsParked(t) <==> !reply.accepted && r.attempts + 1 >= c.maxAttempts)
  {
    var attempt := r.attempts + 1;
    if reply.accepted then r.(attempts := attempt, publishedAt := Some(now))
    else r.(attempts := attempt, next := reply.clock + B.Delay(attempt, c.baseBackoff, c.maxBackoff),
            failedAt := if attempt >= c.maxAttempts then Some(now) else None)
  }

  /** UPDATE ... WHERE id. */
  function Put(rows: seq<Row>, row: Row): (t: seq<Row>)
    ensures |t| == |rows|
    ensures forall i :: 0 <= i < |rows| ==> t[i] == if rows[i].id == row.id then row else rows[i]
  {
    if rows == [] then [] else [if rows[0].id == row.id then row else rows[0]] + Put(rows[1..], row)
  }

  function SettleAll(rows: seq<Row>, claim: seq<Row>, b: Batch, c: B.Config, n: nat): seq<Row>
    requires n <= |claim|
  {
    if n == 0 then rows else Put(SettleAll(rows, claim, b, c, n - 1), Settled(claim[n - 1], b.replies(n - 1), b.now, c))
  }

  // ---- The potential ----------------------------------------------------------------

  /** How many more publishes the row can take; at least the one that would settle it. */
  function Weight(r: Row, maxAttempts: int): nat
  {
    if !IsPending(r) then 0 else if r.attempts < maxAttempts - 1 then maxAttempts - r.attempts else 1
  }

  function Potential(rows: seq<Row>, maxAttempts: int): nat
  {
    if rows == [] then 0 else Weight(rows[0], maxAttempts) + Potential(rows[1..], maxAttempts)
  }

  lemma {:induction false} PutAbsent(rows: seq<Row>, row: Row)
    requires forall i :: 0 <= i < |rows| ==> rows[i].id != row.id
    ensures Put(rows, row) == rows
  {
  }

  /** Storing a pending row's outcome lowers the potential. */
  lemma {:induction false} PutLowers(rows: seq<Row>, i: nat, row: Row, max: int)
    requires UniqueIds(rows) && i < |rows| && rows[i].id == row.id && Weight(row, max) < Weight(rows[i], max)
    ensures Potential(Put(rows, row), max) < Potential(rows, max)
  {
    var t := Put(rows, row);
    assert t[1..] == Put(rows[1..], row);
    if i == 0 {
      PutAbsent(rows[1..], row);
    } else {
      PutLowers(rows[1..], i - 1, row, max);
    }
  }

  lemma {:induction false} DueRows(rows: seq<Row>, now: int, locked: set<int>, r: Row)
    ensures r in Due(rows, now, locked) <==> r in rows && IsDue(r, now, locked)
  {
    if rows != [] {
      DueRows(rows[1..], now, locked, r);
    }
  }

  lemma {:induction false} DueUnique(rows: seq<Row>, now: int, locked: set<int>)
    requires UniqueIds(rows)
    ensures UniqueIds(Due(rows, now, locked))
  {
    if rows != [] {
      var rest := Due(rows[1..], now, locked);
      DueUnique(rows[1..], now, locked);
      forall i | 0 <= i < |rest|
        ensures rest[i].id != rows[0].id
      {
        DueRows(rows[1..], now, locked, rest[i]);
        assert rest[i] in rows[1..];
      }
    }
  }

  lemma SameIdSameRow(rows: seq<Row>)
    requires UniqueIds(rows)
    ensures forall a, b :: a in rows && b in rows && a.id == b.id ==> a == b
  {
  }

  lemma SortedDue(rows: seq<Row>, now: int, locked: set<int>)
    requires UniqueIds(rows)
    ensures var due := Due(rows, now, locked); var sorted := Sort(due, DueBefore);
            && Sorted(sorted, DueBefore) && |sorted| == |due| && UniqueIds(sorted)
            && forall r :: r in sorted <==> r in rows && IsDue(r, now, locked)
  {
    var due := Due(rows, now, locked);
    var sorted := Sort(due, DueBefore);
    DueUnique(rows, now, locked);
    SameIdSameRow(due);
    assert Distinct(due);
    SortSorts(due, DueBefore);
    forall r
      ensures r in sorted <==> r in due
      ensures r in due <==> r in rows && IsDue(r, now, locked)
    {
      DueRows(rows, now, locked, r);
      assert r in Elements(sorted) <==> r in Elements(due);
    }
    forall i, j | 0 <= i < j < |sorted|
      ensures sorted[i].id != sorted[j].id
    {
      assert DueBefore(sorted[i], sorted[j]) && sorted[i] in due && sorted[j] in due;
    }
  }

  /** The claim's rows are distinct, stored and due; a due row left out comes after all of them and
      is left out only when the limit is reached. */
  lemma ClaimIsFirstDue(rows: seq<Row>, now: int, locked: set<int>, limit: nat)
    requires UniqueIds(rows)
    ensures var claim := Claim(rows, now, locked, limit);
            && UniqueIds(claim) && |claim| == Min(limit, |Due(rows, now, locked)|)
            && (forall i :: 0 <= i < |claim| ==> claim[i] in rows && IsDue(claim[i], now, locked))
            && (forall i, j :: 0 <= i < j < |claim| ==> DueBefore(claim[i], claim[j]))
            && (forall r, i :: r in rows && IsDue(r, now, locked) && r !in claim && 0 <= i < |claim| ==>
                  DueBefore(claim[i], r))
  {
    SortedDue(rows, now, locked);
    var sorted, claim := Sort(Due(rows, now, locked), DueBefore), Claim(rows, now, locked, limit);
    assert forall i :: 0 <= i < |claim| ==> claim[i] == sorted[i] && sorted[i] in sorted;
    forall r, i | r in rows && IsDue(r, now, locked) && r !in claim && 0 <= i < |claim|
      ensures DueBefore(claim[i], r)
    {
      assert r in sorted;
      var j :| 0 <= j < |sorted| && sorted[j] == r;
      assert j >= |claim|;
    }
  }

  /** The claim that a batch settles. */
  ghost predicate Claimed(rows: seq<Row>, claim: seq<Row>)
  {
    && UniqueIds(rows) && UniqueIds(claim)
    && forall i :: 0 <= i < |claim| ==> claim[i] in rows && IsPending(claim[i])
  }

  /** After n outcomes, the claimed rows still to come are as they were claimed. */
  lemma {:induction false} RestUntouched(rows: seq<Row>, claim: seq<Row>, b: Batch, c: B.Config, n: nat)
    requires Claimed(rows, claim) && n <= |claim|
    ensures var t := SettleAll(rows, claim, b, c, n);
            UniqueIds(t) && |t| == |rows| && forall i :: n <= i < |claim| ==> claim[i] in t
    decreases n
  {
    if n > 0 {
      RestUntouched(rows, claim, b, c, n - 1);
      var before, t := SettleAll(rows, claim, b, c, n - 1), SettleAll(rows, claim, b, c, n);
      forall i | n <= i < |claim|
        ensures claim[i] in t
      {
        var j :| 0 <= j < |before| && before[j] == claim[i];
        assert claim[n - 1].id != claim[i].id;
        assert t[j] == claim[i];
      }
    }
  }

  lemma WhereClaimed(rows: seq<Row>, claim: seq<Row>, b: Batch, c: B.Config, n: nat) returns (k: nat)
    requires Claimed(rows, claim) && n < |claim|
    ensures var t := SettleAll(rows, claim, b, c, n);
            UniqueIds(t) && k < |t| && t[k] == claim[n] && IsPending(t[k])
  {
    RestUntouched(rows, claim, b, c, n);
    k :| 0 <= k < |SettleAll(rows, claim, b, c, n)| && SettleAll(rows, claim, b, c, n)[k] == claim[n];
  }

  lemma OutcomeLowers(rows: seq<Row>, k: nat, reply: Reply, now: int, c: B.Config)
    requires UniqueIds(rows) && k < |rows| && IsPending(rows[k])
    ensures Potential(Put(rows, Settled(rows[k], reply, now, c)), c.maxAttempts) < Potential(rows, c.maxAttempts)
  {
    PutLowers(rows, k, Settled(rows[k], reply, now, c), c.maxAttempts);
  }

  /** Each outcome stored lowers the potential. */
  lemma {:induction false} SettleAllLowers(rows: seq<Row>, claim: seq<Row>, b: Batch, c: B.Config, n: nat)
    requires Claimed(rows, claim) && n <= |claim|
    ensures Potential(SettleAll(rows, claim, b, c, n), c.maxAttempts) + n <= Potential(rows, c.maxAttempts)
    decreases n
  {
    if n > 0 {
      SettleAllLowers(rows, claim, b, c, n - 1);
      OneMoreLowers(rows, claim, b, c, n - 1);
    }
  }

  lemma OneMoreLowers(rows: seq<Row>, claim: seq<Row>, b: Batch, c: B.Config, n: nat)
    requires Claimed(rows, claim) && n < |claim|
    ensures Potential(SettleAll(rows, claim, b, c, n + 1), c.maxAttempts) <
              Potential(SettleAll(rows, claim, b, c, n), c.maxAttempts)
  {
    var t := SettleAll(rows, claim, b, c, n);
    var k := WhereClaimed(rows, claim, b, c, n);
    OutcomeLowers(t, k, b.replies(n), b.now, c);
    assert SettleAll(rows, claim, b, c, n + 1) == Put(t, Settled(t[k], b.replies(n), b.now, c));
  }

  lemma {:induction false} SameLength(rows: seq<Row>, claim: seq<Row>, b: Batch, c: B.Config, n: nat)
    requires n <= |claim|
    ensures |SettleAll(rows, claim, b, c, n)| == |rows|
    decreases n
  {
    if n > 0 {
      SameLength(rows, claim, b, c, n - 1);
    }
  }

  lemma RowById(rows: seq<Row>, k: nat, r: Row)
    requires UniqueIds(rows) && k < |rows| && r in rows && r.id == rows[k].id
    ensures rows[k] == r
  {
  }

  predicate NotAmong(claim: seq<Row>, n: nat, r: Row)
    requires n <= |claim|
  {
    forall j :: 0 <= j < n ==> claim[j].id != r.id
  }

  /** Every row after a batch is the outcome of a claimed one, or was not claimed and is as before. */
  lemma {:induction false} SettledRow(rows: seq<Row>, claim: seq<Row>, b: Batch, c: B.Config, n: nat, k: nat)
    returns (i: nat)
    requires Claimed(rows, claim) && n <= |claim| && k < |rows|
    ensures |SettleAll(rows, claim, b, c, n)| == |rows|
    ensures var t := SettleAll(rows, claim, b, c, n);
            || (i < n && rows[k] == claim[i] && t[k] == Settled(claim[i], b.replies(i), b.now, c))
            || (i == n && t[k] == rows[k] && NotAmong(claim, n, rows[k]))
    decreases n
  {
    SameLength(rows, claim, b, c, n);
    if n == 0 {
      i := 0;
    } else {
      i := SettledRow(rows, claim, b, c, n - 1, k);
      var row := Settled(claim[n - 1], b.replies(n - 1), b.now, c);
      assert SettleAll(rows, claim, b, c, n) == Put(SettleAll(rows, claim, b, c, n - 1), row);
      if i < n - 1 {
        assert claim[i].id != claim[n - 1].id;
      } else if rows[k].id != row.id {
        i := n;
      } else {
        RowById(rows, k, claim[n - 1]);
      }
    }
  }

  class Outbox {
    var rows: seq<Row>

    constructor (rows: seq<Row>)
      requires UniqueIds(rows)
      ensures this.rows == rows
    {
      this.rows := rows;
    }

    /** One transaction: all outcomes are stored, or on any error none. The claimed count is
        reported either way. */
    method RelayBatch(b: Batch, c: B.Config) returns (claimed: nat, err: bool)
      requires UniqueIds(rows) && c.batchSize >= 1 && -B.Two63 <= c.baseBackoff < B.Two63
      modifies this
      ensures UniqueIds(rows)
      ensures claimed == if b.selectFails then 0 else |Claim(old(rows), b.now, b.locked, c.batchSize)|
      ensures err ==> rows == old(rows)
      ensures !err ==> !b.selectFails &&
                       rows == SettleAll(old(rows), Claim(old(rows), b.now, b.locked, c.batchSize), b, c, claimed)
      ensures claimed <= Potential(old(rows), c.maxAttempts)
      ensures !err ==> Potential(rows, c.maxAttempts) + claimed <= Potential(old(rows), c.maxAttempts)
    {
      claimed, err := 0, true;
      if b.selectFails {
        return;
      }
      var saved := rows;
      var claim := Claim(rows, b.now, b.locked, c.batchSize);
      claimed := |claim|;
      ClaimIsFirstDue(rows, b.now, b.locked, c.batchSize);
      SettleAllLowers(saved, claim, b, c, claimed);
      RestUntouched(saved, claim, b, c, claimed);
      for n := 0 to |claim|
        invariant rows == SettleAll(saved, claim, b, c, n)
      {
        var reply := b.replies(n);
        if !reply.decodes || reply.storeFails {
          rows := saved;
          return;
        }
        var row := Publish(claim[n], reply, b.now, c);
        rows := Put(rows, row);
      }
      if b.commitFails {
        rows := saved;
        return;
      }
      err := false;
    }

    /** One publish and the outcome stored for it. */
    method Publish(record: Row, reply: Reply, now: int, c: B.Config) returns (row: Row)
      requires -B.Two63 <= c.baseBackoff < B.Two63
      ensures row == Settled(record, reply, now, c)
    {
      var attempt := record.attempts + 1;
      if reply.accepted {
        return record.(attempts := attempt, publishedAt := Some(now));
      }
      var delay := B.Backoff(attempt, c.baseBackoff, c.maxBackoff);
      var failedAt := if attempt >= c.maxAttempts then Some(now) else None;
      row := record.(attempts := attempt, next := reply.clock + delay, failedAt := failedAt);
    }

    /** Batches until one is not full. However publishes fail and retries come due meanwhile, it
        stops, and claims at most what the potential allows. */
    method Drain(c: B.Config, world: nat -> Batch) returns (total: nat, err: bool, ghost before: seq<Row>, last: nat)
      requires UniqueIds(rows) && c.batchSize >= 1 && -B.Two63 <= c.baseBackoff < B.Two63
      modifies this
      ensures UniqueIds(rows)
      ensures total <= Potential(old(rows), c.maxAttempts)
      ensures !err ==> total + Potential(rows, c.maxAttempts) <= Potential(old(rows), c.maxAttempts)
      ensures !err ==> UniqueIds(before) && ShortBatch(before, rows, world(last), c)
    {
      total, last, before := 0, 0, rows;
      while !world(last).cancelled
        invariant UniqueIds(rows) && total + Potential(rows, c.maxAttempts) <= Potential(old(rows), c.maxAttempts)
        decreases Potential(rows, c.maxAttempts)
      {
        before := rows;
        var claimed;
        claimed, err := RelayBatch(world(last), c);
        total := total + claimed;
        if err || claimed < c.batchSize {
          ClaimIsFirstDue(before, world(last).now, world(last).locked, c.batchSize);
          return;
        }
        last := last + 1;
      }
      err := true;
    }
  }

  /** Fewer than a full batch was due, and all of it was settled. */
  ghost predicate ShortBatch(before: seq<Row>, rows: seq<Row>, b: Batch, c: B.Config)
    requires c.batchSize >= 1
  {
    var claim := Claim(before, b.now, b.locked, c.batchSize);
    && |Due(before, b.now, b.locked)| == |claim| < c.batchSize
    && rows == SettleAll(before, claim, b, c, |claim|)
  }

  /** Clocks do not run backwards within the batch. */
  ghost predicate SteadyClock(b: Batch) { forall i :: b.replies(i).clock >= b.now }

  /** When Drain ends without an error under a delay that cannot overflow, no row that other relays
      do not hold is still due at its last reading of the clock. */
  lemma DrainLeavesNothingDue(before: seq<Row>, rows: seq<Row>, b: Batch, c: B.Config, k: nat)
    requires UniqueIds(before) && c.batchSize >= 1 && ShortBatch(before, rows, b, c) && SteadyClock(b)
    requires 0 < c.baseBackoff < B.Two63 && c.baseBackoff <= c.maxBackoff <= B.Highest(c.baseBackoff)
    requires k < |rows|
    ensures !IsDue(rows[k], b.now, b.locked)
  {
    var claim := Claim(before, b.now, b.locked, c.batchSize);
    ClaimIsFirstDue(before, b.now, b.locked, c.batchSize);
    SortedDue(before, b.now, b.locked);
    RestUntouched(before, claim, b, c, |claim|);
    var i := SettledRow(before, claim, b, c, |claim|, k);
    if i < |claim| {
      var attempt := claim[i].attempts + 1;
      B.DelayGrowsWithinBounds(attempt, attempt, c.baseBackoff, c.maxBackoff);
      assert b.replies(i).clock >= b.now;
    } else {
      assert claim == Sort(Due(before, b.now, b.locked), DueBefore);
    }
  }
}
