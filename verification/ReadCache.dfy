/** The generation-based read cache as a protocol: many readers, writers and invalidators
    interleave single Redis commands over one shared store.

    Values carry the number of commits to their family at the moment they were loaded, so
    "stale" is a comparison of numbers. */
module ReadCache {
  import opened Common

  datatype EntryId = EntryId(family: string, generation: int, key: string)
  datatype Value = Value(family: string, key: string, version: nat)

  /** What Redis holds. */
  datatype Store = Store(generations: map<string, int>, entries: map<EntryId, Value>)

  /** SETNX genKey seed. */
  function SetIfAbsent(store: Store, family: string, seed: int): Store
  {
    if family in store.generations then store
    else store.(generations := store.generations[family := seed])
  }

  /** INCR genKey: an absent key counts from 0. */
  function Increment(store: Store, family: string): Store
  {
    var g := if family in store.generations then store.generations[family] else 0;
    store.(generations := store.generations[family := g + 1])
  }

  /** Where a read stands, one Redis command or load at a time. since is the family's floor when
      the generation was read. */
  datatype Phase =
    | Asking
    | Absent
    | Holding(seed: int)
    | Seeded
    | Looking(generation: int, since: nat)
    | Missed(generation: int, since: nat)
    | Skipping(since: nat)
    | Loaded(generation: int, since: nat, value: Value)
    | Done(since: nat, value: Value)

  /** A read of key; begun is the family's floor when it started. */
  datatype Reader = Reader(family: string, key: string, begun: nat, phase: Phase)

  datatype Command = SetNX(family: string, seed: int) | Incr(family: string)

  /** commits counts committed writes per family; floor is that count at the last effective
      INCR of the family; tenure remembers, for every generation that was ever current, the floor
      it started with. */
  datatype State = State(
    store: Store, commits: map<string, nat>, floor: map<string, nat>, tenure: map<(string, int), nat>,
    readers: map<int, Reader>, pipes: map<int, seq<Command>>)

  const Init: State := State(Store(map[], map[]), map[], map[], map[], map[], map[])

  function Count(m: map<string, nat>, family: string): nat { if family in m then m[family] else 0 }

  datatype Step =
    | Commit(family: string)
    | Begin(id: int, family: string, key: string)
    | Bypass(id: int, family: string, key: string)
    | ReadGeneration(id: int)
    | ReadClock(id: int, seed: int)
    | Seed(id: int)
    | LookUp(id: int)
    | Undecodable(id: int)
    | CallFails(id: int)
    | Load(id: int)
    | Fill(id: int)
    | FillFails(id: int)
    | Drop(id: int)
    | BeginInvalidate(id: int, seeds: seq<(string, int)>)
    | Execute(id: int)
    | Abandon(id: int)
    | Expire(entry: EntryId)
    | Lose(family: string)

  function Pipeline(seeds: seq<(string, int)>): seq<Command>
  {
    if seeds == [] then [] else [SetNX(seeds[0].0, seeds[0].1), Incr(seeds[0].0)] + Pipeline(seeds[1..])
  }

  function At(s: State, id: int, phase: Phase): State
    requires id in s.readers
  {
    s.(readers := s.readers[id := s.readers[id].(phase := phase)])
  }

  /** SETNX by a reader or an invalidator; a generation that becomes current keeps the floor. */
  function Seeding(s: State, family: string, seed: int): State
  {
    if family in s.store.generations then s
    else s.(store := SetIfAbsent(s.store, family, seed), tenure := s.tenure[(family, seed) := Count(s.floor, family)])
  }

  /** INCR by an invalidator: every commit so far is below the new generation. */
  function Incrementing(s: State, family: string): State
  {
    var store, c := Increment(s.store, family), Count(s.commits, family);
    s.(store := store, floor := s.floor[family := c], tenure := s.tenure[(family, store.generations[family]) := c])
  }

  /** Where a reader's step leads; a step that is not its next one leads nowhere. */
  function NextPhase(s: State, r: Reader, step: Step): Phase
  {
    var current := Count(s.floor, r.family);
    match (step, r.phase)
    case (ReadGeneration(_), Asking) =>
      if r.family in s.store.generations then Looking(s.store.generations[r.family], current) else Absent
    case (ReadGeneration(_), Seeded) =>
      if r.family in s.store.generations then Looking(s.store.generations[r.family], current) else Skipping(r.begun)
    case (ReadClock(_, seed), Absent) => Holding(seed)
    case (Seed(_), Holding(_)) => Seeded
    case (LookUp(_), Looking(g, since)) =>
      var e := EntryId(r.family, g, r.key);
      if e in s.store.entries then Done(since, s.store.entries[e]) else Missed(g, since)
    case (Undecodable(_), Looking(g, since)) => Missed(g, since)
    case (CallFails(_), Asking) => Skipping(r.begun)
    case (CallFails(_), Holding(_)) => Skipping(r.begun)
    case (CallFails(_), Seeded) => Skipping(r.begun)
    case (CallFails(_), Looking(_, since)) => Skipping(since)
    case (Load(_), Missed(g, since)) => Loaded(g, since, Value(r.family, r.key, Count(s.commits, r.family)))
    case (Load(_), Skipping(since)) => Done(since, Value(r.family, r.key, Count(s.commits, r.family)))
    case (Fill(_), Loaded(_, since, v)) => Done(since, v)
    case (FillFails(_), Loaded(_, since, v)) => Done(since, v)
    case _ => r.phase
  }

  /** What the step writes: SETNX of the seed held, SET of the value loaded under the generation
      that Get saw. */
  function Written(s: State, r: Reader, step: Step): State
  {
    if step.Seed? && r.phase.Holding? then Seeding(s, r.family, r.phase.seed)
    else if step.Fill? && r.phase.Loaded? then
      s.(store := s.store.(entries := s.store.entries[EntryId(r.family, r.phase.generation, r.key) := r.phase.value]))
    else s
  }

  function ReaderStep(s: State, step: Step, id: int): State
    requires id in s.readers
  {
    var r := s.readers[id];
    if step.Drop? then s.(readers := s.readers - {id}) else At(Written(s, r, step), id, NextPhase(s, r, step))
  }

  /** One atomic step; a step that is not enabled changes nothing. */
  function Next(s: State, step: Step): State
  {
    match step
    case Commit(f) => s.(commits := s.commits[f := Count(s.commits, f) + 1])
    case Begin(id, f, k) =>
      if id in s.readers then s else s.(readers := s.readers[id := Reader(f, k, Count(s.floor, f), Asking)])
    case Bypass(id, f, k) =>
      if id in s.readers then s
      else s.(readers := s.readers[id := Reader(f, k, Count(s.floor, f), Skipping(Count(s.floor, f)))])
    case BeginInvalidate(id, seeds) => if id in s.pipes then s else s.(pipes := s.pipes[id := Pipeline(seeds)])
    case Execute(id) =>
      if id !in s.pipes || s.pipes[id] == [] then s
      else
        var rest := s.(pipes := s.pipes[id := s.pipes[id][1..]]);
        (match s.pipes[id][0]
         case SetNX(f, seed) => Seeding(rest, f, seed)
         case Incr(f) => Incrementing(rest, f))
    case Abandon(id) => s.(pipes := s.pipes - {id})
    case Expire(e) => s.(store := s.store.(entries := s.store.entries - {e}))
    case Lose(f) => s.(store := s.store.(generations := s.store.generations - {f}))
    case _ => if step.id in s.readers then ReaderStep(s, step, step.id) else s
  }

  function After(steps: seq<Step>): State
  {
    if steps == [] then Init else Next(After(steps[..|steps| - 1]), steps[|steps| - 1])
  }

  // ---- Freshness --------------------------------------------------------------------

  /** The step made the family's generation in t current. */
  ghost predicate Becomes(s: State, t: State, family: string)
  {
    && family in t.store.generations
    && (family !in s.store.generations || s.store.generations[family] != t.store.generations[family])
  }

  /** The read has loaded a value to store under the generation. */
  predicate HeldFor(r: Reader, family: string, generation: int)
  {
    r.family == family && r.phase.Loaded? && r.phase.generation == generation
  }

  /** No value under the generation, stored or about to be, is older than the family's floor. */
  ghost predicate NothingWaits(s: State, family: string, generation: int)
  {
    && (forall e :: e in s.store.entries && e.family == family && e.generation == generation ==>
          s.store.entries[e].version >= Count(s.floor, family))
    && (forall id :: id in s.readers && HeldFor(s.readers[id], family, generation) ==>
          s.readers[id].phase.value.version >= Count(s.floor, family))
  }

  /** A generation becomes current only while no stale value waits under it. */
  ghost predicate CleanStep(s: State, step: Step)
  {
    var t := Next(s, step);
    forall f :: Becomes(s, t, f) ==> NothingWaits(t, f, t.store.generations[f])
  }

  ghost predicate EntriesFresh(s: State)
  {
    forall e :: e in s.store.entries ==>
      && (e.family, e.generation) in s.tenure
      && s.store.entries[e].version >= s.tenure[(e.family, e.generation)]
      && s.store.entries[e].family == e.family && s.store.entries[e].key == e.key
  }

  /** The current generation began at the present floor, and none began above it. */
  ghost predicate TenureFits(s: State)
  {
    && (forall f :: f in s.store.generations ==>
          (f, s.store.generations[f]) in s.tenure && s.tenure[(f, s.store.generations[f])] == Count(s.floor, f))
    && (forall f, g :: (f, g) in s.tenure ==> s.tenure[(f, g)] <= Count(s.floor, f))
  }

  ghost predicate ReaderFresh(s: State, r: Reader)
  {
    && r.begun <= Count(s.floor, r.family)
    && match r.phase
       case Looking(g, since) => Bound(s, r, g, since)
       case Missed(g, since) => Bound(s, r, g, since)
       case Loaded(g, since, v) =>
         Bound(s, r, g, since) && Serves(r, since, v) && v.version >= s.tenure[(r.family, g)]
       case Skipping(since) => r.begun <= since <= Count(s.floor, r.family)
       case Done(since, v) => Serves(r, since, v)
       case _ => true
  }

  /** The read is tied to a generation that last began at the floor it saw, or higher. */
  ghost predicate Bound(s: State, r: Reader, generation: int, since: nat)
  {
    (r.family, generation) in s.tenure && r.begun <= since <= s.tenure[(r.family, generation)]
  }

  /** The value answers this read and is no older than the floor the read saw. */
  ghost predicate Serves(r: Reader, since: nat, v: Value)
  {
    v.family == r.family && v.key == r.key && r.begun <= since <= v.version
  }

  ghost predicate Counted(s: State) { forall f :: Count(s.floor, f) <= Count(s.commits, f) }

  ghost predicate Fresh(s: State)
  {
    EntriesFresh(s) && TenureFits(s) && Counted(s) && forall id :: id in s.readers ==> ReaderFresh(s, s.readers[id])
  }

  lemma SeedingFresh(s: State, family: string, seed: int)
    requires Fresh(s) && (family !in s.store.generations ==> NothingWaits(s, family, seed))
    ensures Fresh(Seeding(s, family, seed))
  {
    var t := Seeding(s, family, seed);
    forall id | id in t.readers ensures ReaderFresh(t, t.readers[id]) { assert ReaderFresh(s, s.readers[id]); }
  }

  lemma IncrementingFresh(s: State, family: string)
    requires Fresh(s)
    requires var t := Incrementing(s, family); NothingWaits(t, family, t.store.generations[family])
    ensures Fresh(Incrementing(s, family))
  {
    var t := Incrementing(s, family);
    forall id | id in t.readers
      ensures ReaderFresh(t, t.readers[id])
    {
      assert ReaderFresh(s, s.readers[id]);
      assert HeldFor(t.readers[id], family, t.store.generations[family]) ==>
          t.readers[id].phase.value.version >= Count(t.floor, family);
    }
  }

  /** The phase a reader moves to is fresh. */
  lemma PhaseFresh(s: State, id: int, step: Step)
    requires Fresh(s) && id in s.readers
    ensures var r := s.readers[id]; ReaderFresh(s, r.(phase := NextPhase(s, r, step)))
  {
  }

  lemma FillFresh(s: State, id: int)
    requires Fresh(s) && id in s.readers && s.readers[id].phase.Loaded?
    ensures Fresh(Written(s, s.readers[id], Fill(id)))
  {
    var t := Written(s, s.readers[id], Fill(id));
    assert ReaderFresh(s, s.readers[id]);
    forall j | j in t.readers ensures ReaderFresh(t, t.readers[j]) { assert ReaderFresh(s, s.readers[j]); }
  }

  /** Writes by a reader keep floors and raise tenures at most to the floor. */
  lemma ReaderStepFresh(s: State, step: Step, id: int)
    requires Fresh(s) && id in s.readers && !step.Drop?
    requires step.Seed? && s.readers[id].phase.Holding? && s.readers[id].family !in s.store.generations ==>
               NothingWaits(s, s.readers[id].family, s.readers[id].phase.seed)
    ensures Fresh(ReaderStep(s, step, id))
  {
    var r := s.readers[id];
    var t, phase := Written(s, r, step), NextPhase(s, r, step);
    PhaseFresh(s, id, step);
    if step.Seed? && r.phase.Holding? {
      SeedingFresh(s, r.family, r.phase.seed);
    } else if step.Fill? && r.phase.Loaded? {
      FillFresh(s, id);
    }
    assert ReaderFresh(t, r.(phase := phase));
    AtFresh(t, id, phase);
  }

  lemma AtFresh(s: State, id: int, phase: Phase)
    requires Fresh(s) && id in s.readers && ReaderFresh(s, s.readers[id].(phase := phase))
    ensures Fresh(At(s, id, phase))
  {
    var t := At(s, id, phase);
    forall j | j in t.readers ensures ReaderFresh(t, t.readers[j]) { assert j != id ==> ReaderFresh(s, s.readers[j]); }
  }

  lemma ExecuteFresh(s: State, id: int)
    requires Fresh(s) && CleanStep(s, Execute(id)) && id in s.pipes && s.pipes[id] != []
    ensures Fresh(Next(s, Execute(id)))
  {
    var rest, t := s.(pipes := s.pipes[id := s.pipes[id][1..]]), Next(s, Execute(id));
    forall j | j in rest.readers ensures ReaderFresh(rest, rest.readers[j]) { assert ReaderFresh(s, s.readers[j]); }
    match s.pipes[id][0] {
      case SetNX(f, seed) =>
        assert f !in s.store.generations ==> Becomes(s, t, f);
        SeedingFresh(rest, f, seed);
      case Incr(f) =>
        assert Becomes(s, t, f);
        IncrementingFresh(rest, f);
    }
  }

  lemma SeedFresh(s: State, id: int)
    requires Fresh(s) && CleanStep(s, Seed(id)) && id in s.readers && s.readers[id].phase.Holding?
    ensures Fresh(Next(s, Seed(id)))
  {
    var r, t := s.readers[id], Next(s, Seed(id));
    if r.family !in s.store.generations {
      assert Becomes(s, t, r.family);
      forall j | j in s.readers && HeldFor(s.readers[j], r.family, r.phase.seed)
        ensures s.readers[j].phase.value.version >= Count(s.floor, r.family)
      {
        assert t.readers[j] == s.readers[j];
      }
    }
    ReaderStepFresh(s, Seed(id), id);
  }

  /** Nothing but commits was added. */
  ghost predicate Less(s: State, t: State)
  {
    && t.floor == s.floor && t.tenure == s.tenure
    && (forall f :: Count(s.commits, f) <= Count(t.commits, f))
    && (forall f :: f in t.store.generations ==>
          f in s.store.generations && t.store.generations[f] == s.store.generations[f])
    && (forall e :: e in t.store.entries ==> e in s.store.entries && t.store.entries[e] == s.store.entries[e])
    && (forall id :: id in t.readers ==> id in s.readers && t.readers[id] == s.readers[id])
  }

  lemma LessIsFresh(s: State, t: State)
    requires Fresh(s) && Less(s, t)
    ensures Fresh(t)
  {
    forall j | j in t.readers ensures ReaderFresh(t, t.readers[j]) { assert ReaderFresh(s, s.readers[j]); }
  }

  predicate QuietStep(step: Step)
  {
    step.Commit? || step.Abandon? || step.Expire? || step.Lose? || step.BeginInvalidate? || step.Drop?
  }

  lemma QuietIsLess(s: State, step: Step)
    requires QuietStep(step)
    ensures Less(s, Next(s, step))
  {
  }

  lemma BeginFresh(s: State, step: Step)
    requires Fresh(s) && (step.Begin? || step.Bypass?)
    ensures Fresh(Next(s, step))
  {
    var t := Next(s, step);
    forall j | j in t.readers ensures ReaderFresh(t, t.readers[j]) {
      assert j in s.readers ==> ReaderFresh(s, s.readers[j]);
    }
  }

  /** A clean step keeps everything fresh. */
  lemma NextFresh(s: State, step: Step)
    requires Fresh(s) && CleanStep(s, step)
    ensures Fresh(Next(s, step))
  {
    if QuietStep(step) {
      QuietIsLess(s, step);
      LessIsFresh(s, Next(s, step));
    } else if step.Begin? || step.Bypass? {
      BeginFresh(s, step);
    } else if step.Execute? {
      if step.id in s.pipes && s.pipes[step.id] != [] {
        ExecuteFresh(s, step.id);
      }
    } else if step.id in s.readers {
      if step.Seed? && s.readers[step.id].phase.Holding? {
        SeedFresh(s, step.id);
      } else {
        ReaderStepFresh(s, step, step.id);
      }
    }
  }

  // ---- Clean runs are exactly the safe ones -----------------------------------------

  ghost predicate CleanRun(steps: seq<Step>)
  {
    steps == [] ||
    var before, last := steps[..|steps| - 1], steps[|steps| - 1];
    CleanRun(before) && CleanStep(After(before), last)
  }

  lemma {:induction false} CleanRunFresh(steps: seq<Step>)
    requires CleanRun(steps)
    ensures Fresh(After(steps))
  {
    if steps != [] {
      CleanRunFresh(steps[..|steps| - 1]);
      NextFresh(After(steps[..|steps| - 1]), steps[|steps| - 1]);
    }
  }

  /** In every clean run, whatever the clocks say and whichever generation keys are lost, a read
      returns a value of its own family and key, loaded no earlier than the last INCR before the read
      saw the generation. */
  lemma CleanNeverStale(steps: seq<Step>, id: int)
    requires CleanRun(steps) && id in After(steps).readers && After(steps).readers[id].phase.Done?
    ensures var r := After(steps).readers[id];
            && r.phase.value.family == r.family && r.phase.value.key == r.key
            && r.begun <= r.phase.since <= r.phase.value.version
  {
    CleanRunFresh(steps);
    assert ReaderFresh(After(steps), After(steps).readers[id]);
  }

  lemma FloorRises(s: State, step: Step, family: string)
    requires Count(s.floor, family) <= Count(s.commits, family)
    ensures Count(s.floor, family) <= Count(Next(s, step).floor, family)
  {
  }

  lemma BegunAfter(s: State, step: Step, id: int, family: string, low: nat)
    requires id in Next(s, step).readers && Next(s, step).readers[id].family == family
    requires id in s.readers && s.readers[id].family == family ==> s.readers[id].begun >= low
    requires low <= Count(s.floor, family)
    ensures Next(s, step).readers[id].begun >= low
  {
  }

  /** A read that starts after a state begins at that state's floor or above. */
  lemma {:induction false} LaterReadsBeginHigher(before: seq<Step>, later: seq<Step>, id: int, family: string)
    requires CleanRun(before + later) && id !in After(before).readers
    ensures var s := After(before + later);
            id in s.readers && s.readers[id].family == family ==>
              s.readers[id].begun >= Count(After(before).floor, family)
    decreases |later|
  {
    if later == [] {
      assert before + later == before;
    } else {
      var all, rest := before + later, later[..|later| - 1];
      assert all[..|all| - 1] == before + rest;
      LaterReadsBeginHigher(before, rest, id, family);
      FloorOverRun(before, rest, family);
      var s, step, low := After(before + rest), all[|all| - 1], Count(After(before).floor, family);
      assert After(all) == Next(s, step);
      if id in Next(s, step).readers && Next(s, step).readers[id].family == family {
        BegunAfter(s, step, id, family, low);
      }
    }
  }

  lemma {:induction false} FloorOverRun(before: seq<Step>, later: seq<Step>, family: string)
    requires CleanRun(before + later)
    ensures Count(After(before).floor, family) <= Count(After(before + later).floor, family)
    decreases |later|
  {
    if later == [] {
      assert before + later == before;
    } else {
      var all, rest := before + later, later[..|later| - 1];
      assert all[..|all| - 1] == before + rest;
      FloorOverRun(before, rest, family);
      CleanRunFresh(before + rest);
      FloorRises(After(before + rest), all[|all| - 1], family);
    }
  }

  /** The run up to an Invalidate's INCR, which the invalidator is about to execute, and on to a read of
      that family that started after it and has finished. */
  ghost predicate ReadAfterInvalidate(before: seq<Step>, invalidator: int, later: seq<Step>, id: int)
  {
    var s, all := After(before), After(before + [Execute(invalidator)] + later);
    && invalidator in s.pipes && s.pipes[invalidator] != [] && s.pipes[invalidator][0].Incr?
    && id !in After(before + [Execute(invalidator)]).readers
    && id in all.readers && all.readers[id].phase.Done? && all.readers[id].family == s.pipes[invalidator][0].family
  }

  /** A read that starts after a writer's commits and the INCR of its Invalidate sees all those
      commits. */
  lemma ReadSeesCommits(before: seq<Step>, invalidator: int, later: seq<Step>, id: int)
    requires CleanRun(before + [Execute(invalidator)] + later) && ReadAfterInvalidate(before, invalidator, later, id)
    ensures var r := After(before + [Execute(invalidator)] + later).readers[id];
            r.phase.value.version >= Count(After(before).commits, r.family)
  {
    var mid := before + [Execute(invalidator)];
    assert mid[..|mid| - 1] == before;
    LaterReadsBeginHigher(mid, later, id, After(before).pipes[invalidator][0].family);
    CleanNeverStale(mid + later, id);
  }

  /** A read that started after commits were invalidated returned a value without them. */
  ghost predicate ServesStale(s: State)
  {
    exists id :: id in s.readers && s.readers[id].phase.Done? && s.readers[id].phase.value.version < s.readers[id].begun
  }

  function RunFrom(s: State, steps: seq<Step>): State
    decreases |steps|
  {
    if steps == [] then s else RunFrom(Next(s, steps[0]), steps[1..])
  }

  ghost predicate CleanFrom(s: State, steps: seq<Step>)
    decreases |steps|
  {
    steps == [] || (CleanStep(s, steps[0]) && CleanFrom(Next(s, steps[0]), steps[1..]))
  }

  lemma {:induction false} FreshFrom(s: State, steps: seq<Step>)
    requires Fresh(s) && CleanFrom(s, steps)
    ensures Fresh(RunFrom(s, steps))
    decreases |steps|
  {
    if steps != [] {
      NextFresh(s, steps[0]);
      FreshFrom(Next(s, steps[0]), steps[1..]);
    }
  }

  /** One more step in front of a continuation. */
  lemma Prepend(s: State, step: Step, rest: seq<Step>) returns (all: seq<Step>)
    requires CleanStep(s, step) && CleanFrom(Next(s, step), rest)
    ensures all == [step] + rest && CleanFrom(s, all) && RunFrom(s, all) == RunFrom(Next(s, step), rest)
  {
    all := [step] + rest;
    assert all[0] == step && all[1..] == rest;
  }

  /** A new read under the current generation is served the entry there. */
  lemma HitContinues(s: State, id: int, f: string, k: string) returns (more: seq<Step>)
    requires id !in s.readers && f in s.store.generations
    requires EntryId(f, s.store.generations[f], k) in s.store.entries
    requires s.store.entries[EntryId(f, s.store.generations[f], k)].version < Count(s.floor, f)
    ensures CleanFrom(s, more) && ServesStale(RunFrom(s, more))
  {
    var g, floor := s.store.generations[f], Count(s.floor, f);
    var v := s.store.entries[EntryId(f, g, k)];
    var a := Next(s, Begin(id, f, k));
    assert a == s.(readers := s.readers[id := Reader(f, k, floor, Asking)]);
    var b := Next(a, ReadGeneration(id));
    assert b.store == s.store && b.readers[id] == Reader(f, k, floor, Looking(g, floor));
    var c := Next(b, LookUp(id));
    assert c.store == s.store && c.readers[id] == Reader(f, k, floor, Done(floor, v));
    assert ServesStale(c);
    more := Prepend(b, LookUp(id), []);
    more := Prepend(a, ReadGeneration(id), more);
    more := Prepend(s, Begin(id, f, k), more);
  }

  /** A stale value waiting under a current generation is served in some continuation. */
  lemma WaitingIsServed(s: State, f: string) returns (more: seq<Step>)
    requires f in s.store.generations && !NothingWaits(s, f, s.store.generations[f])
    ensures CleanFrom(s, more) && ServesStale(RunFrom(s, more))
  {
    var g := s.store.generations[f];
    var bound := Above(s.readers.Keys);
    var floor := Count(s.floor, f);
    if e :| e in s.store.entries && e.family == f && e.generation == g && s.store.entries[e].version < floor {
      assert e == EntryId(f, g, e.key);
      more := HitContinues(s, bound, f, e.key);
    } else {
      var id :| id in s.readers && HeldFor(s.readers[id], f, g) && s.readers[id].phase.value.version < floor;
      var t := Next(s, Fill(id));
      assert t.store.generations == s.store.generations && t.floor == s.floor && t.readers.Keys == s.readers.Keys;
      more := HitContinues(t, bound, f, s.readers[id].key);
      more := Prepend(s, Fill(id), more);
    }
  }

  /** After any clean run, a step is clean exactly when no clean continuation serves a stale value: a
      generation must become current only while no older value is stored under it or held for it. */
  lemma CleanIffNeverStale(steps: seq<Step>, step: Step)
    requires CleanRun(steps)
    ensures CleanStep(After(steps), step) <==> NeverServesStale(Next(After(steps), step))
  {
    CleanRunFresh(steps);
    FreshStepSafe(After(steps), step);
  }

  /** No clean continuation serves a stale value. */
  ghost predicate NeverServesStale(s: State)
  {
    forall more :: CleanFrom(s, more) ==> !ServesStale(RunFrom(s, more))
  }

  lemma FreshStepSafe(s: State, step: Step)
    requires Fresh(s)
    ensures CleanStep(s, step) <==> NeverServesStale(Next(s, step))
  {
    if CleanStep(s, step) {
      NextFresh(s, step);
      FreshNeverServesStale(Next(s, step));
    } else {
      var more := DirtyServesStale(s, step);
    }
  }

  lemma DirtyServesStale(s: State, step: Step) returns (more: seq<Step>)
    requires !CleanStep(s, step)
    ensures CleanFrom(Next(s, step), more) && ServesStale(RunFrom(Next(s, step), more))
  {
    var t := Next(s, step);
    var f :| Becomes(s, t, f) && !NothingWaits(t, f, t.store.generations[f]);
    more := WaitingIsServed(t, f);
  }

  lemma FreshNeverServesStale(s: State)
    requires Fresh(s)
    ensures NeverServesStale(s)
  {
    forall more | CleanFrom(s, more)
      ensures !ServesStale(RunFrom(s, more))
    {
      FreshFrom(s, more);
      FreshIsServed(RunFrom(s, more));
    }
  }

  lemma FreshIsServed(s: State)
    requires Fresh(s)
    ensures !ServesStale(s)
  {
    forall id | id in s.readers && s.readers[id].phase.Done?
      ensures s.readers[id].phase.value.version >= s.readers[id].begun
    {
      assert ReaderFresh(s, s.readers[id]);
    }
  }
}
