/** Losing a generation key: when the protocol stays clean all the same, and that each condition for
    it is needed. */
module GenerationLoss {
  import opened Common
  import opened ReadCache

  // ---- When losing a generation key is harmless -------------------------------------

  /** seed exceeds every generation the family has used. */
  ghost predicate Exceeds(s: State, family: string, seed: int)
  {
    forall g :: (family, g) in s.tenure ==> g < seed
  }

  /** No client is between a seed reading and its SETNX, or between a SETNX and its INCR. */
  ghost predicate Quiet(s: State, family: string)
  {
    && (forall id :: id in s.readers && s.readers[id].family == family ==> !s.readers[id].phase.Holding?)
    && (forall id, i :: id in s.pipes && 0 <= i < |s.pipes[id]| ==> s.pipes[id][i].family != family)
  }

  /** A clock reading taken while the key is absent exceeds the generations used so far. */
  ghost predicate ClockOk(s: State, step: Step)
  {
    match step
    case ReadClock(id, seed) =>
      id in s.readers && s.readers[id].family !in s.store.generations ==> Exceeds(s, s.readers[id].family, seed)
    case BeginInvalidate(_, seeds) =>
      forall i :: 0 <= i < |seeds| && seeds[i].0 !in s.store.generations ==> Exceeds(s, seeds[i].0, seeds[i].1)
    case _ => true
  }

  /** A key is only lost while its family is quiet. */
  ghost predicate LossOk(s: State, step: Step) { step.Lose? ==> Quiet(s, step.family) }

  ghost predicate Careful(s: State, step: Step) { ClockOk(s, step) && LossOk(s, step) }

  /** Every step of the run meets the conditions asked for; nothing else restricts it. */
  ghost predicate Obeys(steps: seq<Step>, clock: bool, loss: bool)
  {
    steps == [] ||
    var before, last := steps[..|steps| - 1], steps[|steps| - 1];
    Obeys(before, clock, loss) && (clock ==> ClockOk(After(before), last)) && (loss ==> LossOk(After(before), last))
  }

  ghost predicate CarefulRun(steps: seq<Step>) { Obeys(steps, true, true) }

  // ---- Invariant --------------------------------------------------------------------

  /** The current generation is the highest used. */
  ghost predicate CurrentIsHighest(s: State)
  {
    forall f, g :: f in s.store.generations && (f, g) in s.tenure ==> g <= s.store.generations[f]
  }

  /** While a key is absent, every seed about to be written is new. */
  ghost predicate SeedsAreNew(s: State)
  {
    && (forall id :: id in s.readers && s.readers[id].phase.Holding? && s.readers[id].family !in s.store.generations ==>
          Exceeds(s, s.readers[id].family, s.readers[id].phase.seed))
    && (forall id, i :: id in s.pipes && 0 <= i < |s.pipes[id]| ==> CommandIsNew(s, s.pipes[id][i]))
  }

  ghost predicate CommandIsNew(s: State, c: Command)
  {
    c.SetNX? && c.family !in s.store.generations ==> Exceeds(s, c.family, c.seed)
  }

  /** A pipeline: each INCR right after its SETNX, or first once that SETNX has run. */
  predicate WellFormed(pipe: seq<Command>)
  {
    forall i :: 0 < i < |pipe| && pipe[i].Incr? ==> pipe[i - 1].SetNX? && pipe[i - 1].family == pipe[i].family
  }

  predicate FollowedByIncr(pipe: seq<Command>)
  {
    forall i :: 0 <= i < |pipe| && pipe[i].SetNX? ==> i + 1 < |pipe| && pipe[i + 1] == Incr(pipe[i].family)
  }

  ghost predicate PipesReady(s: State)
  {
    forall id :: id in s.pipes ==>
      && WellFormed(s.pipes[id]) && FollowedByIncr(s.pipes[id])
      && (s.pipes[id] != [] && s.pipes[id][0].Incr? ==> s.pipes[id][0].family in s.store.generations)
  }

  ghost predicate Orderly(s: State) { CurrentIsHighest(s) && SeedsAreNew(s) && PipesReady(s) }

  ghost predicate Inv(s: State) { Fresh(s) && Orderly(s) }

  lemma SeedingOrderly(s: State, family: string, seed: int)
    requires Orderly(s) && (family !in s.store.generations ==> Exceeds(s, family, seed))
    ensures Orderly(Seeding(s, family, seed)) && family in Seeding(s, family, seed).store.generations
  {
    var t := Seeding(s, family, seed);
    forall id, i | id in t.pipes && 0 <= i < |t.pipes[id]| ensures CommandIsNew(t, t.pipes[id][i]) {
      assert CommandIsNew(s, s.pipes[id][i]);
    }
  }

  lemma IncrementingOrderly(s: State, family: string)
    requires Orderly(s) && family in s.store.generations
    ensures Orderly(Incrementing(s, family))
  {
    var t := Incrementing(s, family);
    forall id, i | id in t.pipes && 0 <= i < |t.pipes[id]| ensures CommandIsNew(t, t.pipes[id][i]) {
      assert CommandIsNew(s, s.pipes[id][i]);
    }
  }

  lemma {:induction false} PipelineShape(seeds: seq<(string, int)>)
    ensures WellFormed(Pipeline(seeds)) && FollowedByIncr(Pipeline(seeds))
    ensures Pipeline(seeds) != [] ==> Pipeline(seeds)[0].SetNX?
    ensures forall i :: 0 <= i < |Pipeline(seeds)| && Pipeline(seeds)[i].SetNX? ==>
              (Pipeline(seeds)[i].family, Pipeline(seeds)[i].seed) in seeds
  {
    if seeds != [] {
      PipelineShape(seeds[1..]);
    }
  }

  lemma BeginInvalidateOrderly(s: State, id: int, seeds: seq<(string, int)>)
    requires Orderly(s) && ClockOk(s, BeginInvalidate(id, seeds)) && id !in s.pipes
    ensures Orderly(Next(s, BeginInvalidate(id, seeds)))
  {
    var t := Next(s, BeginInvalidate(id, seeds));
    PipelineShape(seeds);
    forall j, i | j in t.pipes && 0 <= i < |t.pipes[j]|
      ensures CommandIsNew(t, t.pipes[j][i])
    {
      if j == id {
        var c := t.pipes[j][i];
        if c.SetNX? {
          var k :| 0 <= k < |seeds| && seeds[k] == (c.family, c.seed);
          assert c.family !in s.store.generations ==> Exceeds(s, seeds[k].0, seeds[k].1);
        }
      } else {
        assert CommandIsNew(s, s.pipes[j][i]);
      }
    }
  }

  /** Taking the head command off a pipeline, its effect still to come. */
  lemma PopOrderly(s: State, id: int)
    requires Orderly(s) && id in s.pipes && s.pipes[id] != []
    requires |s.pipes[id]| > 1 && s.pipes[id][1].Incr? ==> s.pipes[id][1].family in s.store.generations
    ensures Orderly(s.(pipes := s.pipes[id := s.pipes[id][1..]]))
  {
    var t := s.(pipes := s.pipes[id := s.pipes[id][1..]]);
    forall j, i | j in t.pipes && 0 <= i < |t.pipes[j]|
      ensures CommandIsNew(t, t.pipes[j][i])
    {
      assert CommandIsNew(s, s.pipes[j][if j == id then i + 1 else i]);
    }
  }

  lemma ExecuteOrderly(s: State, id: int)
    requires Orderly(s) && id in s.pipes && s.pipes[id] != []
    ensures Orderly(Next(s, Execute(id)))
  {
    var pipe := s.pipes[id];
    assert CommandIsNew(s, pipe[0]) && WellFormed(pipe);
    match pipe[0] {
      case SetNX(f, seed) =>
        var u := Seeding(s, f, seed);
        SeedingOrderly(s, f, seed);
        PopOrderly(u, id);
        assert Next(s, Execute(id)) == u.(pipes := u.pipes[id := pipe[1..]]);
      case Incr(f) =>
        var u := s.(pipes := s.pipes[id := pipe[1..]]);
        PopOrderly(s, id);
        IncrementingOrderly(u, f);
    }
  }

  /** No key, generation, seed or command was added. */
  ghost predicate Milder(s: State, t: State)
  {
    && t.store.generations == s.store.generations && t.tenure == s.tenure
    && (forall id :: id in t.pipes ==> id in s.pipes && t.pipes[id] == s.pipes[id])
    && (forall id :: id in t.readers && t.readers[id].phase.Holding? ==>
          id in s.readers && t.readers[id] == s.readers[id])
  }

  lemma MilderOrderly(s: State, t: State)
    requires Orderly(s) && Milder(s, t)
    ensures Orderly(t)
  {
    forall id, i | id in t.pipes && 0 <= i < |t.pipes[id]| ensures CommandIsNew(t, t.pipes[id][i]) {
      assert CommandIsNew(s, s.pipes[id][i]);
    }
  }

  /** A seed reading, exceeding what was used. */
  lemma HoldOrderly(s: State, id: int, seed: int)
    requires Orderly(s) && id in s.readers
    requires s.readers[id].family !in s.store.generations ==> Exceeds(s, s.readers[id].family, seed)
    ensures Orderly(At(s, id, Holding(seed)))
  {
    var t := At(s, id, Holding(seed));
    forall j, i | j in t.pipes && 0 <= i < |t.pipes[j]| ensures CommandIsNew(t, t.pipes[j][i]) {
      assert CommandIsNew(s, s.pipes[j][i]);
    }
  }

  lemma LoseOrderly(s: State, family: string)
    requires Orderly(s) && Quiet(s, family)
    ensures Orderly(Next(s, Lose(family)))
  {
    var t := Next(s, Lose(family));
    forall j, i | j in t.pipes && 0 <= i < |t.pipes[j]| ensures CommandIsNew(t, t.pipes[j][i]) {
      assert CommandIsNew(s, s.pipes[j][i]);
    }
  }

  lemma SeedOrderly(s: State, id: int)
    requires Orderly(s) && id in s.readers && s.readers[id].phase.Holding?
    ensures Orderly(Next(s, Seed(id)))
  {
    var r := s.readers[id];
    SeedingOrderly(s, r.family, r.phase.seed);
    MilderOrderly(Seeding(s, r.family, r.phase.seed), Next(s, Seed(id)));
  }

  lemma NextOrderly(s: State, step: Step)
    requires Orderly(s) && Careful(s, step)
    ensures Orderly(Next(s, step))
  {
    if step.BeginInvalidate? {
      if step.id !in s.pipes {
        BeginInvalidateOrderly(s, step.id, step.seeds);
      }
    } else if step.Execute? {
      if step.id in s.pipes && s.pipes[step.id] != [] {
        ExecuteOrderly(s, step.id);
      }
    } else if step.Lose? {
      LoseOrderly(s, step.family);
    } else if step.Seed? && step.id in s.readers && s.readers[step.id].phase.Holding? {
      SeedOrderly(s, step.id);
    } else if step.ReadClock? && step.id in s.readers && s.readers[step.id].phase.Absent? {
      HoldOrderly(s, step.id, step.seed);
    } else {
      OtherIsMilder(s, step);
      MilderOrderly(s, Next(s, step));
    }
  }

  lemma OtherIsMilder(s: State, step: Step)
    requires !step.BeginInvalidate? && !step.Execute? && !step.Lose?
    requires step.Seed? && step.id in s.readers ==> !s.readers[step.id].phase.Holding?
    requires step.ReadClock? && step.id in s.readers ==> !s.readers[step.id].phase.Absent?
    ensures Milder(s, Next(s, step))
  {
    if step.Commit? || step.Begin? || step.Bypass? || step.Abandon? || step.Expire? || step.Drop? {
      assert Milder(s, Next(s, step));
    } else if step.id in s.readers {
      ReaderIsMilder(s, step, step.id);
    }
  }

  lemma ReaderIsMilder(s: State, step: Step, id: int)
    requires id in s.readers && !step.Drop?
    requires step.Seed? ==> !s.readers[id].phase.Holding?
    requires step.ReadClock? ==> !s.readers[id].phase.Absent?
    ensures Milder(s, ReaderStep(s, step, id))
  {
    var r := s.readers[id];
    assert NextPhase(s, r, step).Holding? ==> NextPhase(s, r, step) == r.phase;
  }

  // ---- Careful runs are clean -------------------------------------------------------

  /** A generation that becomes current was never used before. */
  lemma NewGenerationIsUnused(s: State, step: Step, family: string)
    requires Orderly(s) && Becomes(s, Next(s, step), family)
    ensures (family, Next(s, step).store.generations[family]) !in s.tenure
    ensures (step.Execute? || step.Seed?) && Next(s, step).store.entries == s.store.entries
    ensures forall id :: id in Next(s, step).readers && Next(s, step).readers[id].phase.Loaded? ==>
              id in s.readers && s.readers[id] == Next(s, step).readers[id]
  {
    if step.Execute? {
      assert CommandIsNew(s, s.pipes[step.id][0]);
    }
  }

  lemma HeldIsUsed(s: State)
    requires Fresh(s)
    ensures forall id :: id in s.readers && s.readers[id].phase.Loaded? ==>
              (s.readers[id].family, s.readers[id].phase.generation) in s.tenure
  {
    forall id | id in s.readers && s.readers[id].phase.Loaded?
      ensures (s.readers[id].family, s.readers[id].phase.generation) in s.tenure
    {
      assert ReaderFresh(s, s.readers[id]);
    }
  }

  lemma CarefulIsClean(s: State, step: Step)
    requires Inv(s)
    ensures CleanStep(s, step)
  {
    var t := Next(s, step);
    HeldIsUsed(s);
    forall f | Becomes(s, t, f)
      ensures NothingWaits(t, f, t.store.generations[f])
    {
      NewGenerationIsUnused(s, step, f);
    }
  }

  lemma NextKeeps(s: State, step: Step)
    requires Inv(s) && Careful(s, step)
    ensures CleanStep(s, step) && Inv(Next(s, step))
  {
    CarefulIsClean(s, step);
    NextFresh(s, step);
    NextOrderly(s, step);
  }

  lemma {:induction false} RunKeeps(steps: seq<Step>)
    requires CarefulRun(steps)
    ensures CleanRun(steps) && Inv(After(steps))
  {
    if steps != [] {
      RunKeeps(steps[..|steps| - 1]);
      NextKeeps(After(steps[..|steps| - 1]), steps[|steps| - 1]);
    }
  }

  /** When clock readings exceed every generation used and keys are lost only between, not within, a
      client's seed reading, SETNX and INCR, a read returns a value of its own family and key, loaded
      no earlier than the last INCR before the read saw the generation. */
  lemma NeverStale(steps: seq<Step>, id: int)
    requires CarefulRun(steps) && id in After(steps).readers && After(steps).readers[id].phase.Done?
    ensures var r := After(steps).readers[id];
            && r.phase.value.family == r.family && r.phase.value.key == r.key
            && r.begun <= r.phase.since <= r.phase.value.version
  {
    RunKeeps(steps);
    CleanNeverStale(steps, id);
  }

  // ---- Without loss, any clock will do ----------------------------------------------

  ghost predicate LossFree(steps: seq<Step>) { forall i :: 0 <= i < |steps| ==> !steps[i].Lose? }

  /** Only the current key's history exists: an absent key has never been used. */
  ghost predicate AbsentIsUnused(s: State)
  {
    forall f, g :: (f, g) in s.tenure ==> f in s.store.generations
  }

  lemma UnusedKeeps(s: State, step: Step)
    requires AbsentIsUnused(s) && !step.Lose?
    ensures AbsentIsUnused(Next(s, step))
    ensures forall f :: f in s.store.generations ==> f in Next(s, step).store.generations
  {
  }

  lemma {:induction false} LossFreeIsCareful(steps: seq<Step>)
    requires LossFree(steps)
    ensures CarefulRun(steps) && AbsentIsUnused(After(steps))
  {
    if steps != [] {
      var before, last := steps[..|steps| - 1], steps[|steps| - 1];
      LossFreeIsCareful(before);
      assert !last.Lose?;
      UnusedKeeps(After(before), last);
    }
  }

  /** With no loss of the generation key, whatever the clocks say, no read is ever served a value
      loaded before an Invalidate that took effect before it saw the generation. */
  lemma NeverStaleWithoutLoss(steps: seq<Step>, id: int)
    requires LossFree(steps) && id in After(steps).readers && After(steps).readers[id].phase.Done?
    ensures var r := After(steps).readers[id];
            && r.phase.value.family == r.family && r.phase.value.key == r.key
            && r.begun <= r.phase.since <= r.phase.value.version
  {
    LossFreeIsCareful(steps);
    NeverStale(steps, id);
  }

  /** A generation that becomes current was never used before, so no entry is waiting under it. */
  lemma GenerationsAreNew(steps: seq<Step>, step: Step, family: string)
    requires CarefulRun(steps + [step]) && Becomes(After(steps), After(steps + [step]), family)
    ensures var s, t := After(steps), After(steps + [step]);
            && (family, t.store.generations[family]) !in s.tenure
            && forall key :: EntryId(family, t.store.generations[family], key) !in s.store.entries
  {
    var all := steps + [step];
    assert all[..|all| - 1] == steps && all[|all| - 1] == step;
    RunKeeps(steps);
    NewGenerationIsUnused(After(steps), step, family);
  }

  /** In a careful run such a read sees every commit made before the INCR. */
  lemma CarefulReadSeesCommits(before: seq<Step>, invalidator: int, later: seq<Step>, id: int)
    requires CarefulRun(before + [Execute(invalidator)] + later) && ReadAfterInvalidate(before, invalidator, later, id)
    ensures var r := After(before + [Execute(invalidator)] + later).readers[id];
            r.phase.value.version >= Count(After(before).commits, r.family)
  {
    RunKeeps(before + [Execute(invalidator)] + later);
    ReadSeesCommits(before, invalidator, later, id);
  }

  /** And so it does in every run that loses no generation key. */
  lemma LossFreeReadSeesCommits(before: seq<Step>, invalidator: int, later: seq<Step>, id: int)
    requires LossFree(before + [Execute(invalidator)] + later) && ReadAfterInvalidate(before, invalidator, later, id)
    ensures var r := After(before + [Execute(invalidator)] + later).readers[id];
            r.phase.value.version >= Count(After(before).commits, r.family)
  {
    LossFreeIsCareful(before + [Execute(invalidator)] + later);
    CarefulReadSeesCommits(before, invalidator, later, id);
  }

  // ---- Each condition is needed -----------------------------------------------------

  ghost predicate Reachable(s: State, clock: bool, loss: bool)
  {
    exists steps :: Obeys(steps, clock, loss) && After(steps) == s
  }

  lemma Reach(s: State, step: Step, clock: bool, loss: bool) returns (t: State)
    requires Reachable(s, clock, loss)
    requires (clock ==> ClockOk(s, step)) && (loss ==> LossOk(s, step))
    ensures t == Next(s, step) && Reachable(t, clock, loss)
  {
    t := Next(s, step);
    var steps :| Obeys(steps, clock, loss) && After(steps) == s;
    var all := steps + [step];
    assert all[..|all| - 1] == steps && all[|all| - 1] == step;
    assert Obeys(all, clock, loss) && After(all) == t;
  }

  lemma Start(clock: bool, loss: bool)
    ensures Reachable(Init, clock, loss)
  {
    assert Obeys([], clock, loss) && After([]) == Init;
  }

  lemma BeginRead(s: State, id: int, f: string, k: string, clock: bool, loss: bool) returns (t: State)
    requires Reachable(s, clock, loss) && id !in s.readers
    ensures Reachable(t, clock, loss)
    ensures t == s.(readers := s.readers[id := Reader(f, k, Count(s.floor, f), Asking)])
  {
    t := Reach(s, Begin(id, f, k), clock, loss);
  }

  /** One step of the reader id, the only one beside those of others; the caller names its new
      phase. */
  lemma Advance(s: State, others: map<int, Reader>, step: Step, id: int, phase: Phase, clock: bool, loss: bool)
    returns (t: State)
    requires Reachable(s, clock, loss) && (clock ==> ClockOk(s, step))
    requires id in s.readers && s.readers == others[id := s.readers[id]]
    requires step.ReadGeneration? || step.LookUp? || step.Load? || step.Fill? || step.Seed? || step.ReadClock?
    requires step.id == id && NextPhase(s, s.readers[id], step) == phase
    ensures Reachable(t, clock, loss)
    ensures t == Written(s, s.readers[id], step).(readers := others[id := s.readers[id].(phase := phase)])
  {
    t := Reach(s, step, clock, loss);
    assert t.readers == others[id := s.readers[id].(phase := phase)];
  }

  /** The reader id has moved on and left: only what was written remains. */
  lemma Leave(s: State, others: map<int, Reader>, id: int, clock: bool, loss: bool) returns (t: State)
    requires Reachable(s, clock, loss) && id !in others
    requires id in s.readers && s.readers == others[id := s.readers[id]]
    ensures Reachable(t, clock, loss) && t == s.(readers := others)
  {
    assert s.readers - {id} == others;
    t := Reach(s, Drop(id), clock, loss);
  }

  /** A read under the current generation, up to knowing it. */
  lemma ReadToLooking(s: State, id: int, f: string, k: string, clock: bool, loss: bool) returns (t: State)
    requires Reachable(s, clock, loss) && id !in s.readers && f in s.store.generations
    ensures Reachable(t, clock, loss)
    ensures var floor := Count(s.floor, f);
            t == s.(readers := s.readers[id := Reader(f, k, floor, Looking(s.store.generations[f], floor))])
  {
    var a := BeginRead(s, id, f, k, clock, loss);
    t := Advance(a, s.readers, ReadGeneration(id), id, Looking(s.store.generations[f], Count(s.floor, f)), clock, loss);
  }

  /** A read under the current generation misses and loads. */
  lemma ReadAndLoad(s: State, id: int, f: string, k: string, clock: bool, loss: bool) returns (t: State)
    requires Reachable(s, clock, loss) && id !in s.readers && f in s.store.generations
    requires EntryId(f, s.store.generations[f], k) !in s.store.entries
    ensures Reachable(t, clock, loss)
    ensures var floor, v := Count(s.floor, f), Value(f, k, Count(s.commits, f));
            t == s.(readers := s.readers[id := Reader(f, k, floor, Loaded(s.store.generations[f], floor, v))])
  {
    var g, floor, v := s.store.generations[f], Count(s.floor, f), Value(f, k, Count(s.commits, f));
    var b := ReadToLooking(s, id, f, k, clock, loss);
    var c := Advance(b, s.readers, LookUp(id), id, Missed(g, floor), clock, loss);
    t := Advance(c, s.readers, Load(id), id, Loaded(g, floor, v), clock, loss);
  }

  /** A read under the current generation misses, loads and fills. */
  lemma ReadAndFill(s: State, id: int, f: string, k: string, clock: bool, loss: bool) returns (t: State)
    requires Reachable(s, clock, loss) && id !in s.readers && f in s.store.generations
    requires EntryId(f, s.store.generations[f], k) !in s.store.entries
    ensures Reachable(t, clock, loss)
    ensures t == s.(store := s.store.(entries :=
                      s.store.entries[EntryId(f, s.store.generations[f], k) := Value(f, k, Count(s.commits, f))]))
  {
    var a := ReadAndLoad(s, id, f, k, clock, loss);
    var v := Value(f, k, Count(s.commits, f));
    var b := Advance(a, s.readers, Fill(id), id, Done(Count(s.floor, f), v), clock, loss);
    t := Leave(b, s.readers, id, clock, loss);
  }

  /** A read under the current generation finds the entry there. */
  lemma ReadAndHit(s: State, id: int, f: string, k: string, clock: bool, loss: bool) returns (t: State)
    requires Reachable(s, clock, loss) && id !in s.readers && f in s.store.generations
    requires EntryId(f, s.store.generations[f], k) in s.store.entries
    requires s.store.entries[EntryId(f, s.store.generations[f], k)].version < Count(s.floor, f)
    ensures Reachable(t, clock, loss) && ServesStale(t)
  {
    var e, floor := EntryId(f, s.store.generations[f], k), Count(s.floor, f);
    var b := ReadToLooking(s, id, f, k, clock, loss);
    t := Advance(b, s.readers, LookUp(id), id, Done(floor, s.store.entries[e]), clock, loss);
    assert id in t.readers;
  }

  /** A read that finds the key absent, up to its clock reading. */
  lemma ReadAndHold(s: State, id: int, f: string, k: string, seed: int, clock: bool, loss: bool) returns (t: State)
    requires Reachable(s, clock, loss) && id !in s.readers && f !in s.store.generations
    requires clock ==> Exceeds(s, f, seed)
    ensures Reachable(t, clock, loss)
    ensures t == s.(readers := s.readers[id := Reader(f, k, Count(s.floor, f), Holding(seed))])
  {
    var a := BeginRead(s, id, f, k, clock, loss);
    var b := Advance(a, s.readers, ReadGeneration(id), id, Absent, clock, loss);
    t := Advance(b, s.readers, ReadClock(id, seed), id, Holding(seed), clock, loss);
  }

  /** A read that holds a seed writes it and leaves. */
  lemma SeedAndLeave(s: State, others: map<int, Reader>, id: int, f: string, k: string, floor: nat, seed: int,
                     clock: bool, loss: bool)
    returns (t: State)
    requires Reachable(s, clock, loss) && id !in others
    requires s.readers == others[id := Reader(f, k, floor, Holding(seed))]
    ensures Reachable(t, clock, loss) && t == Seeding(s, f, seed).(readers := others)
  {
    var a := Advance(s, others, Seed(id), id, Seeded, clock, loss);
    t := Leave(a, others, id, clock, loss);
  }

  lemma ReadAndSeed(s: State, id: int, f: string, k: string, seed: int, clock: bool, loss: bool) returns (t: State)
    requires Reachable(s, clock, loss) && id !in s.readers && f !in s.store.generations
    requires clock ==> Exceeds(s, f, seed)
    ensures Reachable(t, clock, loss) && t == Seeding(s, f, seed)
  {
    var a := ReadAndHold(s, id, f, k, seed, clock, loss);
    t := SeedAndLeave(a, s.readers, id, f, k, Count(s.floor, f), seed, clock, loss);
  }

  lemma SendPipe(s: State, id: int, f: string, seed: int, clock: bool, loss: bool) returns (t: State)
    requires Reachable(s, clock, loss) && id !in s.pipes
    requires clock && f !in s.store.generations ==> Exceeds(s, f, seed)
    ensures Reachable(t, clock, loss) && t == s.(pipes := s.pipes[id := [SetNX(f, seed), Incr(f)]])
  {
    var seeds := [(f, seed)];
    assert Pipeline(seeds) == [SetNX(f, seed), Incr(f)] by { assert seeds[1..] == []; }
    t := Reach(s, BeginInvalidate(id, seeds), clock, loss);
  }

  /** An Invalidate of one family, sent and up to after its SETNX. */
  lemma BeginPipe(s: State, id: int, f: string, seed: int, clock: bool, loss: bool) returns (t: State)
    requires Reachable(s, clock, loss) && id !in s.pipes
    requires clock && f !in s.store.generations ==> Exceeds(s, f, seed)
    ensures Reachable(t, clock, loss)
    ensures t == Seeding(s, f, seed).(pipes := s.pipes[id := [Incr(f)]])
  {
    var a := SendPipe(s, id, f, seed, clock, loss);
    assert a.pipes[id][1..] == [Incr(f)];
    t := Reach(a, Execute(id), clock, loss);
    assert t.pipes == s.pipes[id := [Incr(f)]];
  }

  lemma AbandonPipe(s: State, id: int, clock: bool, loss: bool) returns (t: State)
    requires Reachable(s, clock, loss)
    ensures Reachable(t, clock, loss) && t == s.(pipes := s.pipes - {id})
  {
    t := Reach(s, Abandon(id), clock, loss);
  }

  lemma FinishPipe(s: State, before: State, id: int, f: string, clock: bool, loss: bool) returns (t: State)
    requires Reachable(s, clock, loss) && id !in before.pipes && s.pipes == before.pipes[id := [Incr(f)]]
    ensures Reachable(t, clock, loss)
    ensures t == Incrementing(s, f).(pipes := before.pipes)
  {
    var a := Reach(s, Execute(id), clock, loss);
    assert a.pipes - {id} == before.pipes;
    t := AbandonPipe(a, id, clock, loss);
  }

  /** An Invalidate run to completion while the key is there. */
  lemma InvalidateNow(s: State, id: int, f: string, clock: bool, loss: bool) returns (t: State)
    requires Reachable(s, clock, loss) && id !in s.pipes && f in s.store.generations
    ensures Reachable(t, clock, loss) && t == Incrementing(s, f)
  {
    var a := BeginPipe(s, id, f, 0, clock, loss);
    t := FinishPipe(a, s, id, f, clock, loss);
  }

  /** An entry under the given generation that predates the floor: serving it would be stale. */
  ghost predicate Trap(s: State, f: string, k: string, generation: int)
  {
    && s.readers == map[] && s.pipes == map[] && EntryId(f, generation, k) in s.store.entries
    && s.store.entries[EntryId(f, generation, k)].version < Count(s.floor, f)
  }

  /** From an empty cache: an entry is filled under the generation seed, a write is committed, the
      family invalidated, and its key lost. */
  lemma TrapAtSeed(s: State, f: string, k: string, seed: int, clock: bool, loss: bool) returns (t: State)
    requires Reachable(s, clock, loss) && s.(readers := map[]) == Init && (loss ==> s.readers == map[])
    requires 1 !in s.readers && 2 !in s.readers
    ensures Reachable(t, clock, loss) && t.readers == s.readers && f !in t.store.generations
    ensures Trap(t.(readers := map[]), f, k, seed)
  {
    var a := ReadAndSeed(s, 1, f, k, seed, clock, loss);
    var b := ReadAndFill(a, 2, f, k, clock, loss);
    var c := Reach(b, Commit(f), clock, loss);
    var d := InvalidateNow(c, 1, f, clock, loss);
    t := Reach(d, Lose(f), clock, loss);
  }

  /** With quiet losses only, a clock that repeats a reading serves a stale value. */
  lemma RepeatedClockServesStale(f: string, k: string, seed: int) returns (s: State)
    ensures Reachable(s, false, true) && ServesStale(s)
  {
    Start(false, true);
    var a := TrapAtSeed(Init, f, k, seed, false, true);
    var b := ReadAndSeed(a, 3, f, k, seed, false, true);
    s := ReadAndHit(b, 4, f, k, false, true);
  }

  /** With exceeding clocks, a loss between a seed reading and its SETNX serves a stale value. */
  lemma LossBeforeSetNXServesStale(f: string, k: string, seed: int) returns (s: State)
    ensures Reachable(s, true, false) && ServesStale(s)
  {
    Start(true, false);
    var a := ReadAndHold(Init, 9, f, k, seed, true, false);
    var b := TrapAtSeed(a, f, k, seed, true, false);
    var c := SeedAndLeave(b, map[], 9, f, k, 0, seed, true, false);
    s := ReadAndHit(c, 4, f, k, true, false);
  }

  lemma LoseKey(s: State, f: string) returns (t: State)
    requires Reachable(s, true, false)
    ensures Reachable(t, true, false)
    ensures t == s.(store := s.store.(generations := s.store.generations - {f}))
  {
    t := Reach(s, Lose(f), true, false);
  }

  /** An Invalidate that loses the key between its SETNX and its INCR leaves generation 1. */
  lemma InvalidateAcrossLoss(s: State, id: int, f: string, seed: int) returns (t: State)
    requires Reachable(s, true, false) && id !in s.pipes && f !in s.store.generations && Exceeds(s, f, seed)
    ensures Reachable(t, true, false)
    ensures t == s.(store := s.store.(generations := s.store.generations[f := 1]), tenure := t.tenure,
                    floor := s.floor[f := Count(s.commits, f)])
    ensures t.tenure == s.tenure[(f, seed) := Count(s.floor, f)][(f, 1) := Count(s.commits, f)]
  {
    var a := BeginPipe(s, id, f, seed, true, false);
    var b := LoseKey(a, f);
    assert b.store.generations == s.store.generations;
    t := FinishPipe(b, s, id, f, true, false);
  }

  lemma CommitAndLose(s: State, f: string) returns (t: State)
    requires Reachable(s, true, false)
    ensures Reachable(t, true, false)
    ensures t == s.(commits := s.commits[f := Count(s.commits, f) + 1],
                    store := s.store.(generations := s.store.generations - {f}))
  {
    var a := Reach(s, Commit(f), true, false);
    t := LoseKey(a, f);
  }

  /** With exceeding clocks, losses between SETNX and INCR bring generation 1 back, and its
      entries with it. */
  lemma LossBeforeIncrServesStale(f: string, k: string, first: int, second: int) returns (s: State)
    requires second > first && second > 1
    ensures Reachable(s, true, false) && ServesStale(s)
  {
    Start(true, false);
    var a := InvalidateAcrossLoss(Init, 1, f, first);
    var b := ReadAndFill(a, 1, f, k, true, false);
    var d := CommitAndLose(b, f);
    var e := InvalidateAcrossLoss(d, 2, f, second);
    s := ReadAndHit(e, 2, f, k, true, false);
  }
}
