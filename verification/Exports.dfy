/** The export queue: requests claimed by several schedulers, completed, failed or requeued. */
module Exports {
  import opened Common

  datatype Status = Pending | Running | Completed | Failed

  datatype Export = Export(
    id: int, uuid: int, user: int, created: int, status: Status, attempts: nat, started: Option<int>)

  datatype Event =
    | Claim(uuid: int, now: int, cutoff: int)
    | Fail(uuid: int, final: bool)
    | Complete(uuid: int)

  /** The table, its identity counter, and everything that happened to it. */
  datatype Table = Table(rows: seq<Export>, nextId: int, history: seq<Event>)

  datatype Error = ExportOpen | ExportNotFound | UniqueViolation
  datatype Outcome = Ok | Err(error: Error)

  predicate IsOpen(e: Export) { e.status.Pending? || e.status.Running? }

  /** Another row already holds the user's place under the one-open-export index. */
  predicate UserHasOpen(rows: seq<Export>, user: int, except: int)
  {
    exists i :: 0 <= i < |rows| && rows[i].user == user && IsOpen(rows[i]) && rows[i].uuid != except
  }

  predicate HasUuid(rows: seq<Export>, uuid: int) { exists i :: 0 <= i < |rows| && rows[i].uuid == uuid }

  function Find(rows: seq<Export>, uuid: int): (i: nat)
    requires HasUuid(rows, uuid)
    ensures i < |rows| && rows[i].uuid == uuid
  {
    if rows[0].uuid == uuid then 0
    else
      assert HasUuid(rows[1..], uuid) by {
        var i :| 0 <= i < |rows| && rows[i].uuid == uuid;
        assert rows[1..][i - 1] == rows[i];
      }
      1 + Find(rows[1..], uuid)
  }

  /** Pending, or running since before the cutoff, and not locked by another scheduler. */
  predicate Claimable(e: Export, cutoff: int, locked: set<int>)
  {
    && e.id !in locked
    && (e.status.Pending? || (e.status.Running? && e.started.Some? && e.started.value < cutoff))
  }

  predicate Older(a: Export, b: Export) { a.created < b.created || (a.created == b.created && a.id < b.id) }

  /** ORDER BY created_at, id LIMIT 1 over the claimable rows. */
  function Oldest(rows: seq<Export>, cutoff: int, locked: set<int>): (r: Option<nat>)
    ensures r.None? ==> forall i :: 0 <= i < |rows| ==> !Claimable(rows[i], cutoff, locked)
    ensures r.Some? ==> r.value < |rows| && Claimable(rows[r.value], cutoff, locked)
    ensures r.Some? ==> forall i :: 0 <= i < |rows| && Claimable(rows[i], cutoff, locked) ==>
              !Older(rows[i], rows[r.value])
  {
    if rows == [] then None
    else
      var rest := Oldest(rows[1..], cutoff, locked);
      assert forall i :: 0 < i < |rows| ==> rows[i] == rows[1..][i - 1];
      if Claimable(rows[0], cutoff, locked) && (rest.None? || !Older(rows[rest.value + 1], rows[0])) then Some(0)
      else if rest.None? then None
      else Some(rest.value + 1)
  }

  // ---- The statements ---------------------------------------------------------------

  function CreateExport(t: Table, uuid: int, user: int, at: int): (Table, Outcome)
  {
    if HasUuid(t.rows, uuid) || UserHasOpen(t.rows, user, uuid) then (t, Err(ExportOpen))
    else (t.(rows := t.rows + [Export(t.nextId, uuid, user, at, Pending, 0, None)], nextId := t.nextId + 1), Ok)
  }

  function ClaimOldest(t: Table, now: int, cutoff: int, locked: set<int>): (Table, Option<Export>)
  {
    match Oldest(t.rows, cutoff, locked)
    case None => (t, None)
    case Some(i) =>
      var e := t.rows[i].(status := Running, started := Some(now), attempts := t.rows[i].attempts + 1);
      (t.(rows := t.rows[i := e], history := t.history + [Claim(e.uuid, now, cutoff)]), Some(e))
  }

  function CompleteExport(t: Table, uuid: int): (Table, Outcome)
  {
    if !HasUuid(t.rows, uuid) then (t, Err(ExportNotFound))
    else
      var i := Find(t.rows, uuid);
      (t.(rows := t.rows[i := t.rows[i].(status := Completed)], history := t.history + [Complete(uuid)]), Ok)
  }

  /** Requeues, or ends the export when final. Requeueing breaks the one-open-export index when the
      user has another open export. */
  function FailExport(t: Table, uuid: int, final: bool): (Table, Outcome)
  {
    if !HasUuid(t.rows, uuid) then (t, Err(ExportNotFound))
    else
      var i := Find(t.rows, uuid);
      if !final && UserHasOpen(t.rows, t.rows[i].user, uuid) then (t, Err(UniqueViolation))
      else
        (t.(rows := t.rows[i := t.rows[i].(status := if final then Failed else Pending)],
            history := t.history + [Fail(uuid, final)]), Ok)
  }

  // ---- What the history says about an export ----------------------------------------

  function Claims(h: seq<Event>, uuid: int): nat
  {
    if h == [] then 0
    else Claims(h[..|h| - 1], uuid) + if h[|h| - 1].Claim? && h[|h| - 1].uuid == uuid then 1 else 0
  }

  /** When the last claim started it. */
  function LastStart(h: seq<Event>, uuid: int): Option<int>
  {
    if h == [] then None
    else if h[|h| - 1].Claim? && h[|h| - 1].uuid == uuid then Some(h[|h| - 1].now)
    else LastStart(h[..|h| - 1], uuid)
  }

  /** A non-final Fail since the last claim. */
  function Requeued(h: seq<Event>, uuid: int): bool
  {
    h != [] &&
    var last := h[|h| - 1];
    if last.uuid == uuid && last.Claim? then false
    else last == Fail(uuid, false) || Requeued(h[..|h| - 1], uuid)
  }

  ghost predicate RowOk(e: Export, h: seq<Event>)
  {
    && e.attempts == Claims(h, e.uuid) && e.started == LastStart(h, e.uuid)
    && (e.attempts > 0 <==> e.started.Some?)
    && (e.status.Pending? ==> e.attempts == 0 || Requeued(h, e.uuid))
    && (e.status.Running? ==> e.started.Some?)
  }

  /** A claim is the export's first, or follows a requeue, or the last claim had gone stale. */
  ghost predicate Spaced(h: seq<Event>)
  {
    forall j :: 0 <= j < |h| && h[j].Claim? ==>
      || Claims(h[..j], h[j].uuid) == 0
      || Requeued(h[..j], h[j].uuid)
      || (LastStart(h[..j], h[j].uuid).Some? && LastStart(h[..j], h[j].uuid).value < h[j].cutoff)
  }

  ghost predicate UniqueUuids(rows: seq<Export>)
  {
    forall i, j :: 0 <= i < j < |rows| ==> rows[i].uuid != rows[j].uuid && rows[i].id != rows[j].id
  }

  /** At most one open export per user. */
  ghost predicate OneOpenEach(rows: seq<Export>)
  {
    forall i, j :: 0 <= i < |rows| && 0 <= j < |rows| && i != j && IsOpen(rows[i]) && IsOpen(rows[j]) ==>
      rows[i].user != rows[j].user
  }

  ghost predicate Inv(t: Table)
  {
    && UniqueUuids(t.rows) && OneOpenEach(t.rows) && Spaced(t.history)
    && (forall i :: 0 <= i < |t.rows| ==> t.rows[i].id < t.nextId && RowOk(t.rows[i], t.history))
    && (forall i :: 0 <= i < |t.history| ==> HasUuid(t.rows, t.history[i].uuid))
  }

  lemma HistoryGrows(h: seq<Event>, e: Event, uuid: int)
    ensures Claims(h + [e], uuid) == Claims(h, uuid) + if e.Claim? && e.uuid == uuid then 1 else 0
    ensures LastStart(h + [e], uuid) == if e.Claim? && e.uuid == uuid then Some(e.now) else LastStart(h, uuid)
    ensures Requeued(h + [e], uuid) ==
            if e.Claim? && e.uuid == uuid then false else e == Fail(uuid, false) || Requeued(h, uuid)
  {
  }

  lemma {:induction false} NeverMentioned(h: seq<Event>, uuid: int)
    requires forall i :: 0 <= i < |h| ==> h[i].uuid != uuid
    ensures Claims(h, uuid) == 0 && LastStart(h, uuid) == None
  {
    if h != [] {
      NeverMentioned(h[..|h| - 1], uuid);
    }
  }

  lemma SpacedGrows(h: seq<Event>, e: Event)
    requires Spaced(h)
    requires e.Claim? ==>
               || Claims(h, e.uuid) == 0 || Requeued(h, e.uuid)
               || (LastStart(h, e.uuid).Some? && LastStart(h, e.uuid).value < e.cutoff)
    ensures Spaced(h + [e])
  {
    var more := h + [e];
    forall j | 0 <= j < |more| && more[j].Claim?
      ensures || Claims(more[..j], more[j].uuid) == 0 || Requeued(more[..j], more[j].uuid)
              || (LastStart(more[..j], more[j].uuid).Some? && LastStart(more[..j], more[j].uuid).value < more[j].cutoff)
    {
      if j < |h| {
        assert more[..j] == h[..j] && more[j] == h[j];
      } else {
        assert more[..j] == h;
      }
    }
  }

  lemma CreateKeeps(t: Table, uuid: int, user: int, at: int)
    requires Inv(t)
    ensures Inv(CreateExport(t, uuid, user, at).0)
  {
    var u := CreateExport(t, uuid, user, at).0;
    if u != t {
      NeverMentioned(t.history, uuid);
      forall i | 0 <= i < |t.history|
        ensures HasUuid(u.rows, u.history[i].uuid)
      {
        KnownStays(t.rows, u.rows, t.history[i].uuid);
      }
    }
  }

  lemma KnownStays(rows: seq<Export>, next: seq<Export>, uuid: int)
    requires HasUuid(rows, uuid) && |rows| <= |next|
    requires forall i :: 0 <= i < |rows| ==> next[i].uuid == rows[i].uuid
    ensures HasUuid(next, uuid)
  {
  }

  /** One row changes and one event about it is added. */
  lemma ChangeKeeps(t: Table, k: nat, e: Export, event: Event)
    requires Inv(t) && k < |t.rows| && event.uuid == e.uuid == t.rows[k].uuid
    requires e.id == t.rows[k].id && e.user == t.rows[k].user
    requires RowOk(e, t.history + [event]) && Spaced(t.history + [event])
    requires IsOpen(e) ==> IsOpen(t.rows[k]) || !UserHasOpen(t.rows, e.user, e.uuid)
    ensures Inv(t.(rows := t.rows[k := e], history := t.history + [event]))
  {
    var u := t.(rows := t.rows[k := e], history := t.history + [event]);
    forall i | 0 <= i < |u.rows|
      ensures u.rows[i].id < u.nextId && RowOk(u.rows[i], u.history)
    {
      assert RowOk(t.rows[i], t.history);
      HistoryGrows(t.history, event, t.rows[i].uuid);
      assert i != k ==> t.rows[i].uuid != e.uuid;
    }
    forall i | 0 <= i < |u.history|
      ensures HasUuid(u.rows, u.history[i].uuid)
    {
      if i < |t.history| {
        KnownStays(t.rows, u.rows, t.history[i].uuid);
      } else {
        assert u.rows[k].uuid == event.uuid;
      }
    }
    OpenStaysUnique(t.rows, k, e);
  }

  lemma OpenStaysUnique(rows: seq<Export>, k: nat, e: Export)
    requires UniqueUuids(rows) && OneOpenEach(rows) && k < |rows| && e.uuid == rows[k].uuid && e.user == rows[k].user
    requires IsOpen(e) ==> IsOpen(rows[k]) || !UserHasOpen(rows, e.user, e.uuid)
    ensures OneOpenEach(rows[k := e])
  {
  }

  lemma ClaimKeeps(t: Table, now: int, cutoff: int, locked: set<int>)
    requires Inv(t)
    ensures Inv(ClaimOldest(t, now, cutoff, locked).0)
  {
    var o := Oldest(t.rows, cutoff, locked);
    if o.Some? {
      ClaimAtKeeps(t, o.value, now, cutoff, locked);
    }
  }

  lemma ClaimAtKeeps(t: Table, k: nat, now: int, cutoff: int, locked: set<int>)
    requires Inv(t) && k < |t.rows| && Claimable(t.rows[k], cutoff, locked)
    ensures var e := t.rows[k].(status := Running, started := Some(now), attempts := t.rows[k].attempts + 1);
            Inv(t.(rows := t.rows[k := e], history := t.history + [Claim(e.uuid, now, cutoff)]))
  {
    var e := t.rows[k].(status := Running, started := Some(now), attempts := t.rows[k].attempts + 1);
    var event := Claim(e.uuid, now, cutoff);
    ClaimedRow(t.rows[k], t.history, now, cutoff, locked);
    SpacedGrows(t.history, event);
    ChangeKeeps(t, k, e, event);
  }

  /** A claimable row is due for its first claim, requeued, or stale. */
  lemma ClaimedRow(row: Export, h: seq<Event>, now: int, cutoff: int, locked: set<int>)
    requires RowOk(row, h) && Claimable(row, cutoff, locked)
    ensures var claimed := row.(status := Running, started := Some(now), attempts := row.attempts + 1);
            RowOk(claimed, h + [Claim(row.uuid, now, cutoff)])
    ensures || Claims(h, row.uuid) == 0 || Requeued(h, row.uuid)
            || (LastStart(h, row.uuid).Some? && LastStart(h, row.uuid).value < cutoff)
  {
  }

  lemma CompleteKeeps(t: Table, uuid: int)
    requires Inv(t)
    ensures Inv(CompleteExport(t, uuid).0)
  {
    if HasUuid(t.rows, uuid) {
      var k := Find(t.rows, uuid);
      assert RowOk(t.rows[k], t.history);
      HistoryGrows(t.history, Complete(uuid), uuid);
      SpacedGrows(t.history, Complete(uuid));
      ChangeKeeps(t, k, t.rows[k].(status := Completed), Complete(uuid));
    }
  }

  lemma FailKeeps(t: Table, uuid: int, final: bool)
    requires Inv(t)
    ensures Inv(FailExport(t, uuid, final).0)
  {
    if HasUuid(t.rows, uuid) {
      var k := Find(t.rows, uuid);
      if final || !UserHasOpen(t.rows, t.rows[k].user, uuid) {
        assert RowOk(t.rows[k], t.history);
        HistoryGrows(t.history, Fail(uuid, final), uuid);
        SpacedGrows(t.history, Fail(uuid, final));
        ChangeKeeps(t, k, t.rows[k].(status := if final then Failed else Pending), Fail(uuid, final));
      }
    }
  }

  // ---- Every run --------------------------------------------------------------------

  datatype Op =
    | DoCreate(uuid: int, user: int, at: int)
    | DoClaim(now: int, cutoff: int, locked: set<int>)
    | DoComplete(uuid: int)
    | DoFail(uuid: int, final: bool)

  function Next(t: Table, op: Op): Table
  {
    match op
    case DoCreate(uuid, user, at) => CreateExport(t, uuid, user, at).0
    case DoClaim(now, cutoff, locked) => ClaimOldest(t, now, cutoff, locked).0
    case DoComplete(uuid) => CompleteExport(t, uuid).0
    case DoFail(uuid, final) => FailExport(t, uuid, final).0
  }

  function After(ops: seq<Op>): Table
  {
    if ops == [] then Table([], 1, []) else Next(After(ops[..|ops| - 1]), ops[|ops| - 1])
  }

  lemma {:induction false} RunKeeps(ops: seq<Op>)
    ensures Inv(After(ops))
  {
    if ops != [] {
      var t := After(ops[..|ops| - 1]);
      RunKeeps(ops[..|ops| - 1]);
      match ops[|ops| - 1]
      case DoCreate(uuid, user, at) => CreateKeeps(t, uuid, user, at);
      case DoClaim(now, cutoff, locked) => ClaimKeeps(t, now, cutoff, locked);
      case DoComplete(uuid) => CompleteKeeps(t, uuid);
      case DoFail(uuid, final) => FailKeeps(t, uuid, final);
    }
  }

  /** In every run an export's attempts are the claims made on it, and no user has two open
      exports. */
  lemma AttemptsAreClaims(ops: seq<Op>, i: nat)
    requires i < |After(ops).rows|
    ensures After(ops).rows[i].attempts == Claims(After(ops).history, After(ops).rows[i].uuid)
    ensures var rows := After(ops).rows;
            forall j :: 0 <= j < |rows| && j != i && IsOpen(rows[i]) && IsOpen(rows[j]) ==> rows[j].user != rows[i].user
  {
    RunKeeps(ops);
    assert RowOk(After(ops).rows[i], After(ops).history);
  }

  /** A claim takes an export that is claimable and unlocked, and older than every other such one. */
  lemma ClaimTakesOldest(ops: seq<Op>, now: int, cutoff: int, locked: set<int>, j: nat)
    requires j < |After(ops).rows| && Claimable(After(ops).rows[j], cutoff, locked)
    ensures var o := Oldest(After(ops).rows, cutoff, locked);
            && o.Some? && Claimable(After(ops).rows[o.value], cutoff, locked)
            && (j == o.value || Older(After(ops).rows[o.value], After(ops).rows[j]))
            && ClaimOldest(After(ops), now, cutoff, locked).1.Some?
            && ClaimOldest(After(ops), now, cutoff, locked).1.value.uuid == After(ops).rows[o.value].uuid
  {
    RunKeeps(ops);
    var rows, o := After(ops).rows, Oldest(After(ops).rows, cutoff, locked);
    if j != o.value {
      assert rows[j].id != rows[o.value].id by { assert j < o.value || o.value < j; }
    }
  }

  lemma {:induction false} StartOfLast(h: seq<Event>, i: nat, n: nat, uuid: int)
    requires i < n <= |h| && h[i].Claim? && h[i].uuid == uuid
    requires forall k :: i < k < n && h[k].uuid == uuid ==> !h[k].Claim?
    ensures LastStart(h[..n], uuid) == Some(h[i].now) && Claims(h[..n], uuid) > 0
    ensures Requeued(h[..n], uuid) ==> exists k :: i < k < n && h[k] == Fail(uuid, false)
    decreases n
  {
    var upTo := h[..n];
    assert upTo[..n - 1] == h[..n - 1] && upTo[n - 1] == h[n - 1];
    if n > i + 1 {
      StartOfLast(h, i, n - 1, uuid);
    }
  }

  /** Between two successive claims of one export there was a non-final Fail, or the first claim had
      started before the second one's stale cutoff. */
  lemma SuccessiveClaims(ops: seq<Op>, i: nat, j: nat)
    requires var h := After(ops).history;
             && i < j < |h| && h[i].Claim? && h[j].Claim? && h[i].uuid == h[j].uuid
             && forall k :: i < k < j && h[k].uuid == h[i].uuid ==> !h[k].Claim?
    ensures var h := After(ops).history;
            (exists k :: i < k < j && h[k] == Fail(h[i].uuid, false)) || h[i].now < h[j].cutoff
  {
    RunKeeps(ops);
    StartOfLast(After(ops).history, i, j, After(ops).history[i].uuid);
  }

  // ---- The repository ---------------------------------------------------------------

  class Repository {
    var rows: seq<Export>
    var nextId: int
    ghost var history: seq<Event>

    ghost function Contents(): Table
      reads this
    {
      Table(rows, nextId, history)
    }

    constructor ()
      ensures Contents() == Table([], 1, []) && Inv(Contents())
    {
      rows, nextId, history := [], 1, [];
    }

    method Create(uuid: int, user: int, at: int) returns (r: Outcome)
      requires Inv(Contents())
      modifies this
      ensures Inv(Contents()) && (Contents(), r) == CreateExport(old(Contents()), uuid, user, at)
    {
      CreateKeeps(Contents(), uuid, user, at);
      if HasUuid(rows, uuid) || UserHasOpen(rows, user, uuid) {
        return Err(ExportOpen);
      }
      rows := rows + [Export(nextId, uuid, user, at, Pending, 0, None)];
      nextId := nextId + 1;
      r := Ok;
    }

    method ClaimNext(now: int, cutoff: int, locked: set<int>) returns (r: Option<Export>)
      requires Inv(Contents())
      modifies this
      ensures Inv(Contents()) && (Contents(), r) == ClaimOldest(old(Contents()), now, cutoff, locked)
    {
      ClaimKeeps(Contents(), now, cutoff, locked);
      var o := Oldest(rows, cutoff, locked);
      if o.None? {
        return None;
      }
      var e := rows[o.value].(status := Running, started := Some(now), attempts := rows[o.value].attempts + 1);
      rows := rows[o.value := e];
      history := history + [Claim(e.uuid, now, cutoff)];
      r := Some(e);
    }

    method Complete(uuid: int) returns (r: Outcome)
      requires Inv(Contents())
      modifies this
      ensures Inv(Contents()) && (Contents(), r) == CompleteExport(old(Contents()), uuid)
    {
      CompleteKeeps(Contents(), uuid);
      if !HasUuid(rows, uuid) {
        return Err(ExportNotFound);
      }
      var i := Find(rows, uuid);
      rows := rows[i := rows[i].(status := Completed)];
      history := history + [Event.Complete(uuid)];
      r := Ok;
    }

    method Fail(uuid: int, final: bool) returns (r: Outcome)
      requires Inv(Contents())
      modifies this
      ensures Inv(Contents()) && (Contents(), r) == FailExport(old(Contents()), uuid, final)
    {
      FailKeeps(Contents(), uuid, final);
      if !HasUuid(rows, uuid) {
        return Err(ExportNotFound);
      }
      var i := Find(rows, uuid);
      if !final && UserHasOpen(rows, rows[i].user, uuid) {
        return Err(UniqueViolation);
      }
      rows := rows[i := rows[i].(status := if final then Failed else Pending)];
      history := history + [Event.Fail(uuid, final)];
      r := Ok;
    }
  }
}
