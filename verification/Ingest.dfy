/** Storing heartbeats: folded per batch, written in chunks, upserted by page view. */
module Ingest {
  import opened Common
  import opened Ranking

  /** A time-spent heartbeat; uuid is the page view's. */
  datatype Beat = Beat(uuid: int, visitor: string, path: string, focus: int, at: int)

  datatype Kind = View | Move | Search | Click

  /** An event of a batch: a heartbeat, or a kind timeSpentTable skips. A search's filters may not
      encode. */
  datatype Event = Heartbeat(beat: Beat) | OtherKind(kind: Kind, uuid: int, body: int, encodes: bool)

  datatype Spent = Spent(uuid: int, visitor: string, path: string, focus: int, startedAt: int, lastSeen: int)

  type SpentTable = map<int, Spent>

  /** Rows per multi-row statement. */
  const ChunkSize: nat := 1000

  // ---- The fold ---------------------------------------------------------------------

  /** The heartbeats of one page view, in order. */
  function BeatsOf(events: seq<Event>, id: int): seq<Beat>
  {
    if events == [] then []
    else
      var last, rest := events[|events| - 1], BeatsOf(events[..|events| - 1], id);
      if last.Heartbeat? && last.beat.uuid == id then rest + [last.beat] else rest
  }

  /** The page views with a heartbeat, in order of first appearance. */
  function FirstAppearances(events: seq<Event>): seq<int>
  {
    if events == [] then []
    else
      var last, rest := events[|events| - 1], FirstAppearances(events[..|events| - 1]);
      if last.Heartbeat? && last.beat.uuid !in rest then rest + [last.beat.uuid] else rest
  }

  function Opened(b: Beat): Spent { Spent(b.uuid, b.visitor, b.path, 0, b.at, b.at) }

  function Raised(row: Spent, b: Beat): Spent
  {
    row.(focus := Max(row.focus, b.focus), startedAt := Min(row.startedAt, b.at), lastSeen := Max(row.lastSeen, b.at))
  }

  /** The row a page view's heartbeats fold into. */
  function Folded(beats: seq<Beat>): Spent
    requires beats != []
  {
    var last := beats[|beats| - 1];
    Raised(if |beats| == 1 then Opened(last) else Folded(beats[..|beats| - 1]), last)
  }

  /** One row per page view of the batch, in order of first appearance. */
  ghost predicate IsFold(events: seq<Event>, rows: seq<Spent>)
  {
    && |rows| == |FirstAppearances(events)|
    && forall i :: 0 <= i < |rows| ==>
         var id := FirstAppearances(events)[i];
         BeatsOf(events, id) != [] && rows[i] == Folded(BeatsOf(events, id))
  }

  lemma {:induction false} AppearancesHaveBeats(events: seq<Event>, id: int)
    ensures id in FirstAppearances(events) <==> BeatsOf(events, id) != []
  {
    if events != [] {
      AppearancesHaveBeats(events[..|events| - 1], id);
    }
  }

  lemma {:induction false} AppearancesDistinct(events: seq<Event>)
    ensures Distinct(FirstAppearances(events))
  {
    if events != [] {
      AppearancesDistinct(events[..|events| - 1]);
    }
  }

  lemma {:induction false} FoldedUuid(events: seq<Event>, id: int)
    requires BeatsOf(events, id) != []
    ensures Folded(BeatsOf(events, id)).uuid == id
  {
    var before, beats := events[..|events| - 1], BeatsOf(events, id);
    if BeatsOf(before, id) != [] {
      FoldedUuid(before, id);
      if beats != BeatsOf(before, id) {
        assert beats[..|beats| - 1] == BeatsOf(before, id);
      }
    }
  }

  /** timeSpentTable: a map of open rows and the order they were opened in. */
  method TimeSpentTable(events: seq<Event>) returns (rows: seq<Spent>)
    ensures IsFold(events, rows)
  {
    var views: map<int, Spent> := map[];
    var order: seq<int> := [];
    for i := 0 to |events|
      invariant order == FirstAppearances(events[..i])
      invariant forall id :: id in views ==> id in order
      invariant forall j :: 0 <= j < |order| ==> order[j] in views
      invariant forall id :: id in views ==>
        BeatsOf(events[..i], id) != [] && views[id] == Folded(BeatsOf(events[..i], id))
    {
      assert events[..i + 1][..i] == events[..i];
      match events[i]
      case OtherKind(_, _, _, _) =>
      case Heartbeat(b) =>
        AppearancesHaveBeats(events[..i], b.uuid);
        ghost var beats := BeatsOf(events[..i + 1], b.uuid);
        assert beats[..|beats| - 1] == BeatsOf(events[..i], b.uuid);
        if b.uuid !in views {
          views := views[b.uuid := Opened(b)];
          order := order + [b.uuid];
        }
        views := views[b.uuid := Raised(views[b.uuid], b)];
    }
    assert events[..|events|] == events;
    rows := [];
    for i := 0 to |order|
      invariant |rows| == i
      invariant forall j :: 0 <= j < i ==> rows[j] == Folded(BeatsOf(events, order[j]))
    {
      rows := rows + [views[order[i]]];
    }
  }

  // ---- The upsert -------------------------------------------------------------------

  /** INSERT ... ON CONFLICT (uuid) DO UPDATE: the highest focus and latest heartbeat win. */
  function Upsert(t: SpentTable, row: Spent): SpentTable
  {
    if row.uuid !in t then t[row.uuid := row]
    else
      var s := t[row.uuid];
      t[row.uuid := s.(focus := Max(s.focus, row.focus), lastSeen := Max(s.lastSeen, row.lastSeen))]
  }

  function UpsertAll(t: SpentTable, rows: seq<Spent>): SpentTable
  {
    if rows == [] then t else Upsert(UpsertAll(t, rows[..|rows| - 1]), rows[|rows| - 1])
  }

  /** The database refuses a statement that would touch a row twice. */
  ghost predicate TouchesOnce(rows: seq<Spent>)
  {
    forall i, j :: 0 <= i < j < |rows| ==> rows[i].uuid != rows[j].uuid
  }

  lemma {:induction false} UpsertAllAppend(t: SpentTable, a: seq<Spent>, b: seq<Spent>)
    ensures UpsertAll(t, a + b) == UpsertAll(UpsertAll(t, a), b)
  {
    if b == [] {
      assert a + b == a;
    } else {
      UpsertAllAppend(t, a, b[..|b| - 1]);
      assert (a + b)[..|a + b| - 1] == a + b[..|b| - 1];
    }
  }

  /** The rows whose chunk was written. */
  function Written<T>(rows: seq<T>, failed: set<nat>): seq<T>
  {
    if rows == [] then []
    else
      var rest := Written(rows[..|rows| - 1], failed);
      if (|rows| - 1) / ChunkSize in failed then rest else rest + [rows[|rows| - 1]]
  }

  lemma {:induction false} WrittenChunk<T>(rows: seq<T>, failed: set<nat>, chunk: nat, start: nat, end: nat)
    requires start == chunk * ChunkSize && start <= end <= |rows| && end <= start + ChunkSize
    ensures Written(rows[..end], failed) ==
            if chunk in failed then Written(rows[..start], failed)
            else Written(rows[..start], failed) + rows[start..end]
    decreases end
  {
    if start < end {
      WrittenChunk(rows, failed, chunk, start, end - 1);
      assert rows[..end][..end - 1] == rows[..end - 1];
      assert (end - 1) / ChunkSize == chunk;
      assert rows[start..end] == rows[start..end - 1] + [rows[end - 1]];
    }
  }

  // ---- The tables that ignore what they have ----------------------------------------

  type Table = map<int, Event>

  /** INSERT ... ON CONFLICT (uuid) DO NOTHING. */
  function Kept(t: Table, e: Event): Table
    requires e.OtherKind?
  {
    if e.uuid in t then t else t[e.uuid := e]
  }

  predicate Others(rows: seq<Event>) { forall i :: 0 <= i < |rows| ==> rows[i].OtherKind? }

  function KeptAll(t: Table, rows: seq<Event>): Table
    requires Others(rows)
    decreases |rows|
  {
    if rows == [] then t else KeptAll(Kept(t, rows[0]), rows[1..])
  }

  function OfKind(events: seq<Event>, kind: Kind): (rows: seq<Event>)
    ensures Others(rows) && forall e :: e in rows <==> e in events && e.OtherKind? && e.kind == kind
  {
    if events == [] then []
    else
      (if events[0].OtherKind? && events[0].kind == kind then [events[0]] else []) + OfKind(events[1..], kind)
  }

  predicate AllEncode(events: seq<Event>)
  {
    forall i :: 0 <= i < |events| && events[i].OtherKind? && events[i].kind.Search? ==> events[i].encodes
  }

  lemma {:induction false} WrittenOthers(rows: seq<Event>, failed: set<nat>)
    requires Others(rows)
    ensures Others(Written(rows, failed))
  {
    if rows != [] {
      WrittenOthers(rows[..|rows| - 1], failed);
    }
  }

  lemma {:induction false} KeptAllAppend(t: Table, a: seq<Event>, b: seq<Event>)
    requires Others(a) && Others(b)
    ensures KeptAll(t, a + b) == KeptAll(KeptAll(t, a), b)
    decreases |a|
  {
    if a == [] {
      assert a + b == b;
    } else {
      assert (a + b)[0] == a[0] && (a + b)[1..] == a[1..] + b;
      KeptAllAppend(Kept(t, a[0]), a[1..], b);
    }
  }

  /** The first event of each uuid is kept: one already stored stays, a new one is stored if it is
      among the rows, and no other appears. */
  lemma {:induction false} FirstIsKept(t: Table, rows: seq<Event>, id: int)
    requires Others(rows)
    ensures id in KeptAll(t, rows) <==> id in t || exists e :: e in rows && e.OtherKind? && e.uuid == id
    ensures id in t ==> KeptAll(t, rows)[id] == t[id]
    ensures id !in t && id in KeptAll(t, rows) ==>
              exists i :: 0 <= i < |rows| && rows[i] == KeptAll(t, rows)[id] && FirstOf(rows, i, id)
    decreases |rows|
  {
    if rows != [] {
      var next, rest := Kept(t, rows[0]), rows[1..];
      FirstIsKept(next, rest, id);
      assert forall e :: e in rows <==> e == rows[0] || e in rest;
      if id !in t && id in KeptAll(t, rows) {
        if rows[0].uuid == id {
          assert FirstOf(rows, 0, id);
        } else {
          var i :| 0 <= i < |rest| && rest[i] == KeptAll(next, rest)[id] && FirstOf(rest, i, id);
          assert rows[i + 1] == rest[i] && FirstOf(rows, i + 1, id) by {
            assert forall j :: 0 < j < |rows| ==> rows[j] == rest[j - 1];
          }
        }
      }
    }
  }

  predicate FirstOf(rows: seq<Event>, i: nat, id: int)
    requires Others(rows)
  {
    i < |rows| && rows[i].uuid == id && forall j :: 0 <= j < i ==> rows[j].uuid != id
  }

  /** Events already stored are ignored: a replay, in any order, changes nothing. */
  lemma {:induction false} ReplayChangesNothing(t: Table, rows: seq<Event>)
    requires Others(rows) && forall i :: 0 <= i < |rows| ==> rows[i].uuid in t
    ensures KeptAll(t, rows) == t
    decreases |rows|
  {
    if rows != [] {
      assert rows[0].uuid in t;
      ReplayChangesNothing(t, rows[1..]);
    }
  }

  /** The table once the rows up to end have been written. */
  ghost function KeptUpTo(t: Table, rows: seq<Event>, failed: set<nat>, end: nat): Table
    requires Others(rows) && end <= |rows|
  {
    WrittenOthers(rows[..end], failed);
    KeptAll(t, Written(rows[..end], failed))
  }

  lemma ChunkKept(t: Table, rows: seq<Event>, failed: set<nat>, chunk: nat, start: nat, end: nat)
    requires Others(rows) && start == chunk * ChunkSize && start <= end <= |rows| && end <= start + ChunkSize
    ensures KeptUpTo(t, rows, failed, end) ==
            if chunk in failed then KeptUpTo(t, rows, failed, start)
            else KeptAll(KeptUpTo(t, rows, failed, start), rows[start..end])
  {
    WrittenChunk(rows, failed, chunk, start, end);
    WrittenOthers(rows[..start], failed);
    if chunk !in failed {
      KeptAllAppend(t, Written(rows[..start], failed), rows[start..end]);
    }
  }

  /** One table's rows, chunk by chunk. */
  method InsertIgnoring(t: Table, rows: seq<Event>, failed: set<nat>) returns (next: Table, errors: seq<nat>)
    requires Others(rows)
    ensures Others(Written(rows, failed)) && next == KeptAll(t, Written(rows, failed))
    ensures forall c :: c in errors <==> c in failed && c * ChunkSize < |rows|
  {
    next, errors := t, [];
    var chunk, start := 0, 0;
    assert rows[..0] == [] && rows[..|rows|] == rows;
    WrittenOthers(rows, failed);
    while start < |rows|
      invariant start == chunk * ChunkSize
      invariant next == KeptUpTo(t, rows, failed, Min(start, |rows|))
      invariant forall c :: c in errors <==> c in failed && c < chunk && c * ChunkSize < |rows|
      decreases |rows| - start
    {
      var end := Min(start + ChunkSize, |rows|);
      ChunkKept(t, rows, failed, chunk, start, end);
      if chunk in failed {
        errors := errors + [chunk];
      } else {
        next := KeptAll(next, rows[start..end]);
      }
      chunk, start := chunk + 1, start + ChunkSize;
    }
  }

  class Store {
    var spent: SpentTable
    var views: Table
    var moves: Table
    var searches: Table
    var clicks: Table

    constructor ()
      ensures spent == map[] && views == moves == searches == clicks == map[]
    {
      spent, views, moves, searches, clicks := map[], map[], map[], map[], map[];
    }

    /** The five tables in turn, each written in chunks; failed gives the refused chunks of each. A
        failed chunk makes the call fail and the others are still written. Nothing is written when a
        search does not encode. No statement touches a heartbeat row twice. */
    method InsertBatch(events: seq<Event>, failed: nat -> set<nat>) returns (rows: seq<Spent>, ok: bool)
      modifies this
      ensures !AllEncode(events) ==>
                !ok && spent == old(spent) && views == old(views) && moves == old(moves)
                && searches == old(searches) && clicks == old(clicks)
      ensures AllEncode(events) ==>
                IsFold(events, rows) && TouchesOnce(rows) && spent == UpsertAll(old(spent), Written(rows, failed(1)))
      ensures AllEncode(events) ==> Inserted(old(views), views, OfKind(events, View), failed(0))
      ensures AllEncode(events) ==> Inserted(old(moves), moves, OfKind(events, Move), failed(2))
      ensures AllEncode(events) ==> Inserted(old(searches), searches, OfKind(events, Search), failed(3))
      ensures AllEncode(events) ==> Inserted(old(clicks), clicks, OfKind(events, Click), failed(4))
      ensures AllEncode(events) ==>
                (ok <==> !AnyChunk(OfKind(events, View), failed(0)) && !AnyChunk(rows, failed(1))
                         && !AnyChunk(OfKind(events, Move), failed(2)) && !AnyChunk(OfKind(events, Search), failed(3))
                         && !AnyChunk(OfKind(events, Click), failed(4)))
    {
      rows := [];
      if !AllEncode(events) {
        return [], false;
      }
      rows := TimeSpentTable(events);
      FoldTouchesOnce(events, rows);
      var e0, e1, e2, e3, e4;
      views, e0 := InsertIgnoring(views, OfKind(events, View), failed(0));
      e1 := InsertChunks(rows, failed(1));
      moves, e2 := InsertIgnoring(moves, OfKind(events, Move), failed(2));
      searches, e3 := InsertIgnoring(searches, OfKind(events, Search), failed(3));
      clicks, e4 := InsertIgnoring(clicks, OfKind(events, Click), failed(4));
      Reported(OfKind(events, View), failed(0), e0);
      Reported(rows, failed(1), e1);
      Reported(OfKind(events, Move), failed(2), e2);
      Reported(OfKind(events, Search), failed(3), e3);
      Reported(OfKind(events, Click), failed(4), e4);
      ok := e0 + e1 + e2 + e3 + e4 == [];
    }

    method InsertChunks(rows: seq<Spent>, failed: set<nat>) returns (errors: seq<nat>)
      requires TouchesOnce(rows)
      modifies this`spent
      ensures spent == UpsertAll(old(spent), Written(rows, failed))
      ensures forall c :: c in errors <==> c in failed && c * ChunkSize < |rows|
    {
      errors := [];
      var chunk, start := 0, 0;
      assert rows[..0] == [];
      while start < |rows|
        invariant start == chunk * ChunkSize
        invariant spent == UpsertAll(old(spent), Written(rows[..Min(start, |rows|)], failed))
        invariant forall c :: c in errors <==> c in failed && c < chunk && c * ChunkSize < |rows|
        decreases |rows| - start
      {
        var end := Min(start + ChunkSize, |rows|);
        WrittenChunk(rows, failed, chunk, start, end);
        if chunk in failed {
          errors := errors + [chunk];
        } else {
          assert TouchesOnce(rows[start..end]);
          UpsertAllAppend(old(spent), Written(rows[..start], failed), rows[start..end]);
          spent := UpsertAll(spent, rows[start..end]);
        }
        chunk, start := chunk + 1, start + ChunkSize;
      }
      assert rows[..|rows|] == rows;
    }
  }

  ghost predicate Inserted(t: Table, next: Table, rows: seq<Event>, failed: set<nat>)
    requires Others(rows)
  {
    Others(Written(rows, failed)) && next == KeptAll(t, Written(rows, failed))
  }

  /** One of the rows' chunks is among the failed ones. */
  ghost predicate AnyChunk<T>(rows: seq<T>, failed: set<nat>) { exists c :: c in failed && c * ChunkSize < |rows| }

  lemma Reported<T>(rows: seq<T>, failed: set<nat>, errors: seq<nat>)
    requires forall c :: c in errors <==> c in failed && c * ChunkSize < |rows|
    ensures errors == [] <==> !AnyChunk(rows, failed)
  {
    if errors != [] {
      assert errors[0] in errors;
    }
  }

  lemma FoldTouchesOnce(events: seq<Event>, rows: seq<Spent>)
    requires IsFold(events, rows)
    ensures TouchesOnce(rows)
    ensures forall i :: 0 <= i < |rows| ==> rows[i].uuid == FirstAppearances(events)[i]
  {
    AppearancesDistinct(events);
    forall i | 0 <= i < |rows|
      ensures rows[i].uuid == FirstAppearances(events)[i]
    {
      FoldedUuid(events, FirstAppearances(events)[i]);
    }
    forall i, j | 0 <= i < j < |rows|
      ensures rows[i].uuid != rows[j].uuid
    {
      assert FirstAppearances(events)[i] != FirstAppearances(events)[j];
    }
  }

  // ---- What ends up stored ----------------------------------------------------------

  function Beats(events: seq<Event>): set<Beat> { set e | e in events && e.Heartbeat? :: e.beat }

  /** row summarises the heartbeats of its page view. */
  ghost predicate Summarises(row: Spent, beats: set<Beat>)
  {
    && 0 <= row.focus
    && (forall b :: b in beats && b.uuid == row.uuid ==> b.focus <= row.focus && b.at <= row.lastSeen)
    && (exists b :: b in beats && b.uuid == row.uuid && b.at == row.lastSeen)
    && (row.focus == 0 || exists b :: b in beats && b.uuid == row.uuid && b.focus == row.focus)
  }

  /** The table holds, for exactly the page views with a heartbeat in beats, the highest focus time
      (never below 0) and the latest time of any of them. */
  ghost predicate IsHighest(t: SpentTable, beats: set<Beat>)
  {
    && (forall b :: b in beats ==> b.uuid in t)
    && (forall id :: id in t ==> t[id].uuid == id && Summarises(t[id], beats))
  }

  lemma {:induction false} FoldSummarises(events: seq<Event>, id: int)
    requires BeatsOf(events, id) != []
    ensures Summarises(Folded(BeatsOf(events, id)), Beats(events))
  {
    var before, last, beats := events[..|events| - 1], events[|events| - 1], BeatsOf(events, id);
    FoldedUuid(events, id);
    assert events == before + [last];
    assert Beats(events) == Beats(before) + if last.Heartbeat? then {last.beat} else {};
    if BeatsOf(before, id) == [] {
      NoBeats(before, id);
      assert last.beat in Beats(events);
    } else {
      FoldSummarises(before, id);
      FoldedUuid(before, id);
      var old' := Folded(BeatsOf(before, id));
      if beats != BeatsOf(before, id) {
        assert beats[..|beats| - 1] == BeatsOf(before, id);
        RaisedSummarises(old', Beats(before), last.beat);
      } else {
        SameSummary(old', Beats(before), Beats(events));
      }
    }
  }

  lemma {:induction false} NoBeats(events: seq<Event>, id: int)
    requires BeatsOf(events, id) == []
    ensures forall b :: b in Beats(events) ==> b.uuid != id
  {
    if events != [] {
      var before, last := events[..|events| - 1], events[|events| - 1];
      NoBeats(before, id);
      assert events == before + [last];
    }
  }

  lemma SameSummary(row: Spent, beats: set<Beat>, more: set<Beat>)
    requires Summarises(row, beats) && beats <= more
    requires forall b :: b in more && b.uuid == row.uuid ==> b in beats
    ensures Summarises(row, more)
  {
  }

  lemma RaisedSummarises(row: Spent, beats: set<Beat>, b: Beat)
    requires Summarises(row, beats) && b.uuid == row.uuid
    ensures Summarises(Raised(row, b), beats + {b})
  {
  }

  /** Upserting a summary keeps the table exact for the heartbeats of both. */
  lemma UpsertExact(t: SpentTable, beats: set<Beat>, row: Spent, all: set<Beat>)
    requires IsHighest(t, beats) && Summarises(row, all)
    ensures IsHighest(Upsert(t, row), beats + BeatsFor(all, {row.uuid}))
  {
  }

  function Uuids(rows: seq<Spent>): set<int> { set r | r in rows :: r.uuid }

  /** The heartbeats of the given page views. */
  function BeatsFor(all: set<Beat>, ids: set<int>): set<Beat> { set b | b in all && b.uuid in ids }

  lemma BeatsForLast(beats: set<Beat>, all: set<Beat>, rows: seq<Spent>)
    requires rows != []
    ensures beats + BeatsFor(all, Uuids(rows)) ==
            beats + BeatsFor(all, Uuids(rows[..|rows| - 1])) + BeatsFor(all, {rows[|rows| - 1].uuid})
  {
  }

  lemma {:induction false} UpsertAllExact(t: SpentTable, beats: set<Beat>, rows: seq<Spent>, all: set<Beat>)
    requires IsHighest(t, beats) && forall i :: 0 <= i < |rows| ==> Summarises(rows[i], all)
    ensures IsHighest(UpsertAll(t, rows), beats + BeatsFor(all, Uuids(rows)))
  {
    if rows == [] {
      assert beats + BeatsFor(all, Uuids(rows)) == beats;
    } else {
      var before, last := rows[..|rows| - 1], rows[|rows| - 1];
      UpsertAllExact(t, beats, before, all);
      UpsertExact(UpsertAll(t, before), beats + BeatsFor(all, Uuids(before)), last, all);
      BeatsForLast(beats, all, rows);
    }
  }

  /** A call of InsertBatch whose searches encode, as the heartbeat table sees it: its events, and the
      chunks the database refused. */
  datatype Batch = Batch(events: seq<Event>, failed: set<nat>)

  lemma AllHaveBeats(events: seq<Event>)
    ensures forall i :: 0 <= i < |FirstAppearances(events)| ==> BeatsOf(events, FirstAppearances(events)[i]) != []
  {
  }

  ghost function FoldRows(events: seq<Event>): (rows: seq<Spent>)
    ensures IsFold(events, rows)
  {
    AllHaveBeats(events);
    seq(|FirstAppearances(events)|, i requires 0 <= i < |FirstAppearances(events)| =>
      Folded(BeatsOf(events, FirstAppearances(events)[i])))
  }

  ghost function RunBatches(batches: seq<Batch>): SpentTable
  {
    if batches == [] then map[]
    else
      var last := batches[|batches| - 1];
      UpsertAll(RunBatches(batches[..|batches| - 1]), Written(FoldRows(last.events), last.failed))
  }

  /** The heartbeats whose row was written. */
  ghost function StoredBeats(batches: seq<Batch>): set<Beat>
  {
    if batches == [] then {}
    else
      var last := batches[|batches| - 1];
      StoredBeats(batches[..|batches| - 1]) +
      BeatsFor(Beats(last.events), Uuids(Written(FoldRows(last.events), last.failed)))
  }

  lemma {:induction false} WrittenRows<T>(rows: seq<T>, failed: set<nat>)
    ensures forall r :: r in Written(rows, failed) ==> r in rows
    ensures failed == {} ==> Written(rows, failed) == rows
  {
    if rows != [] {
      WrittenRows(rows[..|rows| - 1], failed);
      assert rows == rows[..|rows| - 1] + [rows[|rows| - 1]];
    }
  }

  /** Whatever the batches and whichever chunks fail, the table holds the maximum over the stored
      heartbeats. */
  lemma {:induction false} BatchesAreExact(batches: seq<Batch>)
    ensures IsHighest(RunBatches(batches), StoredBeats(batches))
  {
    if batches != [] {
      var before, last := batches[..|batches| - 1], batches[|batches| - 1];
      BatchesAreExact(before);
      var rows := FoldRows(last.events);
      var written := Written(rows, last.failed);
      WrittenRows(rows, last.failed);
      forall i | 0 <= i < |written|
        ensures Summarises(written[i], Beats(last.events))
      {
        assert written[i] in written;
        var j :| 0 <= j < |rows| && rows[j] == written[i];
        FoldSummarises(last.events, FirstAppearances(last.events)[j]);
      }
      UpsertAllExact(RunBatches(before), StoredBeats(before), written, Beats(last.events));
    }
  }

  /** Without failures every heartbeat is stored. */
  lemma EveryBeatStored(batch: Batch)
    requires batch.failed == {}
    ensures BeatsFor(Beats(batch.events), Uuids(Written(FoldRows(batch.events), batch.failed))) == Beats(batch.events)
  {
    var rows := FoldRows(batch.events);
    WrittenRows(rows, batch.failed);
    FoldTouchesOnce(batch.events, rows);
    forall b | b in Beats(batch.events)
      ensures b.uuid in Uuids(rows)
    {
      if BeatsOf(batch.events, b.uuid) == [] {
        NoBeats(batch.events, b.uuid);
      }
      AppearancesHaveBeats(batch.events, b.uuid);
      var i :| 0 <= i < |FirstAppearances(batch.events)| && FirstAppearances(batch.events)[i] == b.uuid;
      assert rows[i] in rows;
    }
  }

  /** Every heartbeat handed over, in any batch. */
  ghost function SentBeats(batches: seq<Batch>): set<Beat>
  {
    if batches == [] then {}
    else SentBeats(batches[..|batches| - 1]) + Beats(batches[|batches| - 1].events)
  }

  lemma {:induction false} NothingLost(batches: seq<Batch>)
    requires forall i :: 0 <= i < |batches| ==> batches[i].failed == {}
    ensures StoredBeats(batches) == SentBeats(batches)
  {
    if batches != [] {
      NothingLost(batches[..|batches| - 1]);
      EveryBeatStored(batches[|batches| - 1]);
    }
  }

  ghost predicate SameTimes(t: SpentTable, u: SpentTable)
  {
    && (forall id :: id in t <==> id in u)
    && forall id :: id in t && id in u ==> t[id].focus == u[id].focus && t[id].lastSeen == u[id].lastSeen
  }

  /** The split into batches, replays and reordering do not matter: two histories that stored the
      same set of heartbeats hold the same focus time and last-seen time for every page view. */
  lemma SplitIrrelevant(a: seq<Batch>, b: seq<Batch>)
    requires StoredBeats(a) == StoredBeats(b)
    ensures SameTimes(RunBatches(a), RunBatches(b))
  {
    BatchesAreExact(a);
    BatchesAreExact(b);
    HighestIsUnique(RunBatches(a), RunBatches(b), StoredBeats(a));
  }

  lemma HighestIsUnique(t: SpentTable, u: SpentTable, beats: set<Beat>)
    requires IsHighest(t, beats) && IsHighest(u, beats)
    ensures SameTimes(t, u)
  {
  }

  lemma OneBeat(e: Event)
    requires e.Heartbeat?
    ensures FoldRows([e]) == [Raised(Opened(e.beat), e.beat)]
  {
    assert [e][..0] == [];
    assert FirstAppearances([e]) == [e.beat.uuid];
    assert BeatsOf([e], e.beat.uuid) == [e.beat];
  }

  lemma TwoBeats(e: Event, f: Event)
    requires e.Heartbeat? && f.Heartbeat? && e.beat.uuid == f.beat.uuid
    ensures FoldRows([e, f]) == [Raised(Raised(Opened(e.beat), e.beat), f.beat)]
  {
    assert [e, f][..1] == [e] && [e][..0] == [];
    assert FirstAppearances([e]) == [e.beat.uuid];
    assert FirstAppearances([e, f]) == [e.beat.uuid];
    assert BeatsOf([e], e.beat.uuid) == [e.beat];
    assert BeatsOf([e, f], e.beat.uuid) == [e.beat, f.beat];
    assert [e.beat, f.beat][..1] == [e.beat];
    assert Folded([e.beat]) == Raised(Opened(e.beat), e.beat);
    assert Folded([e.beat, f.beat]) == Raised(Folded([e.beat]), f.beat);
  }

  lemma RunLast(batches: seq<Batch>, events: seq<Event>)
    requires |FoldRows(events)| == 1
    ensures RunBatches(batches + [Batch(events, {})]) == Upsert(RunBatches(batches), FoldRows(events)[0])
    ensures SentBeats(batches + [Batch(events, {})]) == SentBeats(batches) + Beats(events)
  {
    var all, rows := batches + [Batch(events, {})], FoldRows(events);
    assert all[..|all| - 1] == batches && all[|all| - 1] == Batch(events, {});
    WrittenRows(rows, {});
    assert rows[..0] == [] && rows == [rows[0]];
    assert UpsertAll(RunBatches(batches), rows[..0]) == RunBatches(batches);
    assert UpsertAll(RunBatches(batches), rows) == Upsert(RunBatches(batches), rows[0]);
  }

  lemma SplitRun(e: Event, f: Event)
    requires |FoldRows([e])| == 1 && |FoldRows([f])| == 1
    ensures var split := [Batch([e], {}), Batch([f], {})];
            && RunBatches(split) == Upsert(Upsert(map[], FoldRows([e])[0]), FoldRows([f])[0])
            && SentBeats(split) == Beats([e]) + Beats([f])
  {
    var first := [Batch([e], {})];
    RunLast([], [e]);
    RunLast(first, [f]);
    assert [] + first == first;
    assert first + [Batch([f], {})] == [Batch([e], {}), Batch([f], {})];
  }

  lemma TogetherRun(e: Event, f: Event)
    requires |FoldRows([e, f])| == 1
    ensures var together := [Batch([e, f], {})];
            && RunBatches(together) == Upsert(map[], FoldRows([e, f])[0])
            && SentBeats(together) == Beats([e]) + Beats([f])
  {
    RunLast([], [e, f]);
    assert [] + [Batch([e, f], {})] == [Batch([e, f], {})];
    assert Beats([e, f]) == Beats([e]) + Beats([f]);
  }

  /** started_at is different: the conflict clause keeps the first batch's value, so two heartbeats
      of one page view, the later one first, store its time when split and the earlier one's when
      folded together. */
  lemma StartDependsOnSplit(late: Event, early: Event)
    requires late.Heartbeat? && early.Heartbeat? && late.beat.uuid == early.beat.uuid
    requires early.beat.at < late.beat.at
    ensures var split, together := [Batch([late], {}), Batch([early], {})], [Batch([late, early], {})];
            var id := late.beat.uuid;
            && SentBeats(split) == SentBeats(together)
            && id in RunBatches(split) && RunBatches(split)[id].startedAt == late.beat.at
            && id in RunBatches(together) && RunBatches(together)[id].startedAt == early.beat.at
  {
    OneBeat(late);
    OneBeat(early);
    TwoBeats(late, early);
    SplitRun(late, early);
    TogetherRun(late, early);
  }

  /** start is the earliest time of a heartbeat of the page view among beats. */
  ghost predicate IsEarliest(start: int, id: int, beats: set<Beat>)
  {
    && (forall b :: b in beats && b.uuid == id ==> start <= b.at)
    && (exists b :: b in beats && b.uuid == id && b.at == start)
  }

  lemma RaisedStart(row: Spent, beats: set<Beat>, b: Beat)
    requires IsEarliest(row.startedAt, b.uuid, beats)
    ensures IsEarliest(Raised(row, b).startedAt, b.uuid, beats + {b})
  {
  }

  lemma {:induction false} FoldStarts(events: seq<Event>, id: int)
    requires BeatsOf(events, id) != []
    ensures IsEarliest(Folded(BeatsOf(events, id)).startedAt, id, Beats(events))
  {
    var before, last, beats := events[..|events| - 1], events[|events| - 1], BeatsOf(events, id);
    assert events == before + [last];
    assert Beats(events) == Beats(before) + if last.Heartbeat? then {last.beat} else {};
    if BeatsOf(before, id) == [] {
      NoBeats(before, id);
      assert last.beat in Beats(events);
    } else {
      FoldStarts(before, id);
      var start := Folded(BeatsOf(before, id)).startedAt;
      if beats != BeatsOf(before, id) {
        assert beats[..|beats| - 1] == BeatsOf(before, id);
        RaisedStart(Folded(BeatsOf(before, id)), Beats(before), last.beat);
      } else {
        var x :| x in Beats(before) && x.uuid == id && x.at == start;
        assert x in Beats(events);
      }
    }
  }

  /** An upsert never moves the start of a row that is there; r is the row that opened a new one. */
  lemma {:induction false} UpsertAllStart(t: SpentTable, rows: seq<Spent>, id: int) returns (r: Spent)
    requires id in UpsertAll(t, rows)
    ensures id in t ==> UpsertAll(t, rows)[id].startedAt == t[id].startedAt
    ensures id !in t ==> r in rows && r.uuid == id && r.startedAt == UpsertAll(t, rows)[id].startedAt
  {
    if rows == [] {
      r := t[id];
    } else {
      var before, last := rows[..|rows| - 1], rows[|rows| - 1];
      var u := UpsertAll(t, before);
      assert UpsertAll(t, rows) == Upsert(u, last);
      if id in u {
        r := UpsertAllStart(t, before, id);
        assert Upsert(u, last)[id].startedAt == u[id].startedAt;
      } else {
        UpsertAllHas(t, before, id);
        r := last;
      }
    }
  }

  lemma {:induction false} UpsertAllHas(t: SpentTable, rows: seq<Spent>, id: int)
    ensures id in UpsertAll(t, rows) <==> id in t || id in Uuids(rows)
  {
    if rows != [] {
      var before, last := rows[..|rows| - 1], rows[|rows| - 1];
      UpsertAllHas(t, before, id);
      assert rows == before + [last];
      assert Uuids(rows) == Uuids(before) + {last.uuid};
    }
  }

  /** The heartbeats of the page view in the first batch that stored it. */
  ghost function FirstStored(batches: seq<Batch>, id: int): set<Beat>
  {
    if batches == [] then {}
    else
      var before, last := batches[..|batches| - 1], batches[|batches| - 1];
      if id in RunBatches(before) then FirstStored(before, id) else BeatsFor(Beats(last.events), {id})
  }

  /** What started_at does hold: the earliest heartbeat of the first batch that stored the page
      view. */
  lemma {:induction false} StartIsFirstBatch(batches: seq<Batch>, id: int)
    requires id in RunBatches(batches)
    ensures IsEarliest(RunBatches(batches)[id].startedAt, id, FirstStored(batches, id))
  {
    var before, last := batches[..|batches| - 1], batches[|batches| - 1];
    var t, rows := RunBatches(before), FoldRows(last.events);
    var written := Written(rows, last.failed);
    var r := UpsertAllStart(t, written, id);
    if id in t {
      StartIsFirstBatch(before, id);
    } else {
      WrittenRows(rows, last.failed);
      var j :| 0 <= j < |rows| && rows[j] == r;
      FoldTouchesOnce(last.events, rows);
      FoldStarts(last.events, id);
      OnlyThatView(r.startedAt, id, Beats(last.events));
    }
  }

  lemma OnlyThatView(start: int, id: int, beats: set<Beat>)
    requires IsEarliest(start, id, beats)
    ensures IsEarliest(start, id, BeatsFor(beats, {id}))
  {
  }

  lemma {:induction false} FirstStoredIsStored(batches: seq<Batch>, id: int)
    requires id in RunBatches(batches)
    ensures FirstStored(batches, id) <= StoredBeats(batches)
  {
    var before, last := batches[..|batches| - 1], batches[|batches| - 1];
    UpsertAllHas(RunBatches(before), Written(FoldRows(last.events), last.failed), id);
    if id in RunBatches(before) {
      FirstStoredIsStored(before, id);
    }
  }

  /** So started_at is the earliest stored heartbeat exactly when no later batch brought an earlier
      one than the first batch did. */
  lemma StartExactIff(batches: seq<Batch>, id: int)
    requires id in RunBatches(batches)
    ensures IsEarliest(RunBatches(batches)[id].startedAt, id, StoredBeats(batches)) <==>
            forall b :: b in StoredBeats(batches) && b.uuid == id ==>
              exists f :: f in FirstStored(batches, id) && f.at <= b.at
  {
    StartIsFirstBatch(batches, id);
    FirstStoredIsStored(batches, id);
    FirstStoredUuids(batches, id);
    EarliestOfMore(RunBatches(batches)[id].startedAt, id, FirstStored(batches, id), StoredBeats(batches));
  }

  lemma EarliestOfMore(start: int, id: int, first: set<Beat>, all: set<Beat>)
    requires IsEarliest(start, id, first) && first <= all && forall f :: f in first ==> f.uuid == id
    ensures IsEarliest(start, id, all) <==>
            forall b :: b in all && b.uuid == id ==> exists f :: f in first && f.at <= b.at
  {
  }

  lemma {:induction false} FirstStoredUuids(batches: seq<Batch>, id: int)
    ensures forall f :: f in FirstStored(batches, id) ==> f.uuid == id
  {
    if batches != [] && id in RunBatches(batches[..|batches| - 1]) {
      FirstStoredUuids(batches[..|batches| - 1], id);
    }
  }
}
