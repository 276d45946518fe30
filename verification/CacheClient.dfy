/** The Redis cache client as code: Get with its fill, Invalidate and Through issue one command at
    a time while other clients act in between, and any command may fail. */
module CacheClient {
  import opened Common
  import opened ReadCache

  /** What happens before a command of this client, and whether the command then fails. */
  datatype Turn = Turn(others: seq<Step>, fails: bool)

  /** A step of another client than id, or of the environment: a commit, an expiry, a lost key. */
  predicate Foreign(step: Step, id: int)
  {
    match step
    case Lose(_) => true
    case Commit(_) => true
    case Expire(_) => true
    case _ => step.id != id
  }

  ghost predicate AllForeign(turns: nat -> Turn, id: int)
  {
    forall n: nat, i :: 0 <= i < |turns(n).others| ==> Foreign(turns(n).others[i], id)
  }

  /** Counts only rise. */
  ghost predicate Risen(s: State, t: State)
  {
    && (forall f :: Count(s.floor, f) <= Count(t.floor, f))
    && (forall f :: Count(s.commits, f) <= Count(t.commits, f))
  }

  /** What a client can rely on while others act: its own records are untouched. */
  ghost predicate Later(s: State, t: State, id: int)
  {
    && Risen(s, t)
    && (id in t.readers <==> id in s.readers) && (id in s.readers ==> t.readers[id] == s.readers[id])
    && (id in t.pipes <==> id in s.pipes) && (id in s.pipes ==> t.pipes[id] == s.pipes[id])
  }

  /** Every value is stored under its own family and key, and answers the read that holds it. */
  ghost predicate Matching(s: State)
  {
    && (forall e :: e in s.store.entries ==> s.store.entries[e].family == e.family && s.store.entries[e].key == e.key)
    && (forall id :: id in s.readers ==> Answers(s.readers[id]))
  }

  predicate Answers(r: Reader)
  {
    match r.phase
    case Loaded(_, _, v) => v.family == r.family && v.key == r.key
    case Done(_, v) => v.family == r.family && v.key == r.key
    case _ => true
  }

  lemma ReaderStepMatches(s: State, step: Step, id: int)
    requires Matching(s) && id in s.readers
    ensures Matching(ReaderStep(s, step, id))
  {
    PhaseAnswers(s, s.readers[id], step);
    WrittenMatches(s, id, step);
  }

  lemma PhaseAnswers(s: State, r: Reader, step: Step)
    requires Matching(s) && Answers(r)
    ensures Answers(r.(phase := NextPhase(s, r, step)))
  {
  }

  lemma WrittenMatches(s: State, id: int, step: Step)
    requires Matching(s) && id in s.readers
    ensures Matching(Written(s, s.readers[id], step)) && Written(s, s.readers[id], step).readers == s.readers
  {
    assert Answers(s.readers[id]);
  }

  lemma NextMatches(s: State, step: Step)
    requires Matching(s)
    ensures Matching(Next(s, step))
  {
    var other := step.Commit? || step.Expire? || step.Lose?;
    if !other && step.id in s.readers && Next(s, step) == ReaderStep(s, step, step.id) {
      ReaderStepMatches(s, step, step.id);
    }
  }

  lemma CountsRise(s: State, step: Step)
    requires Counted(s)
    ensures Counted(Next(s, step)) && Risen(s, Next(s, step))
  {
  }

  lemma OwnReadUntouched(s: State, step: Step, id: int)
    requires Foreign(step, id)
    ensures var t := Next(s, step);
            (id in t.readers <==> id in s.readers) && (id in s.readers ==> t.readers[id] == s.readers[id])
  {
  }

  lemma OwnPipeUntouched(s: State, step: Step, id: int)
    requires Foreign(step, id)
    ensures var t := Next(s, step);
            (id in t.pipes <==> id in s.pipes) && (id in s.pipes ==> t.pipes[id] == s.pipes[id])
  {
  }

  lemma {:induction false} PipelineAt(seeds: seq<(string, int)>)
    ensures |Pipeline(seeds)| == 2 * |seeds|
    ensures forall i :: 0 <= i < |seeds| ==> Pipeline(seeds)[2 * i + 1] == Incr(seeds[i].0)
    ensures forall i :: 0 <= i < |seeds| ==> Pipeline(seeds)[2 * i] == SetNX(seeds[i].0, seeds[i].1)
  {
    if seeds != [] {
      var rest := seeds[1..];
      PipelineAt(rest);
      forall i | 0 < i < |seeds|
        ensures Pipeline(seeds)[2 * i + 1] == Incr(seeds[i].0)
        ensures Pipeline(seeds)[2 * i] == SetNX(seeds[i].0, seeds[i].1)
      {
        assert Pipeline(seeds)[2 * i + 1] == Pipeline(rest)[2 * (i - 1) + 1];
        assert Pipeline(seeds)[2 * i] == Pipeline(rest)[2 * (i - 1)];
      }
    }
  }

  /** The client id reads key, and began at the given floor. */
  ghost predicate Reading(s: State, id: int, family: string, key: string, begun: nat)
  {
    id in s.readers && s.readers[id] == Reader(family, key, begun, s.readers[id].phase)
  }

  /** The read holds a value to store at the entry of the generation it saw. */
  ghost predicate ReadyToFill(s: State, id: int, key: string, begun: nat, entry: EntryId, value: Value)
  {
    && Reading(s, id, entry.family, key, begun) && entry.key == key && s.readers[id].phase.Loaded?
    && s.readers[id].phase.generation == entry.generation && s.readers[id].phase.value == value
  }

  /** The first n families have their floor at the earlier state's commits or above. */
  ghost predicate Covered(s: State, t: State, families: seq<string>, n: nat)
  {
    n <= |families| && forall i :: 0 <= i < n ==> Count(t.floor, families[i]) >= Count(s.commits, families[i])
  }

  class Redis {
    const ttl: map<string, int>
    /** The store and database all clients share, and where each client stands. */
    var system: State
    /** Every step so far was clean. */
    ghost var clean: bool

    ghost predicate Sound()
      reads this
    {
      Counted(system) && Matching(system) && (clean ==> Fresh(system))
    }

    constructor (ttl: map<string, int>)
      ensures this.ttl == ttl && system == Init && clean && Sound()
    {
      this.ttl, system, clean := ttl, Init, true;
    }

    /** Other clients act. */
    method Elsewhere(others: seq<Step>, id: int)
      requires Sound() && forall i :: 0 <= i < |others| ==> Foreign(others[i], id)
      modifies this
      ensures Sound() && (clean ==> old(clean)) && Later(old(system), system, id)
    {
      for i := 0 to |others|
        invariant Sound() && (clean ==> old(clean)) && Later(old(system), system, id)
      {
        OwnReadUntouched(system, others[i], id);
        OwnPipeUntouched(system, others[i], id);
        Take(others[i]);
      }
    }

    /** One step is taken. */
    method Take(step: Step)
      requires Sound()
      modifies this
      ensures system == Next(old(system), step) && clean == (old(clean) && CleanStep(old(system), step))
      ensures Sound() && (clean ==> old(clean)) && Risen(old(system), system)
    {
      CountsRise(system, step);
      NextMatches(system, step);
      clean := clean && CleanStep(system, step);
      if clean {
        NextFresh(system, step);
      }
      system := Next(system, step);
    }

    /** The next step of this client's read. */
    method Move(step: Step, id: int, family: string, key: string, ghost begun: nat)
      requires Sound() && Reading(system, id, family, key, begun) && OwnStep(step, id)
      modifies this
      ensures Sound() && (clean ==> old(clean)) && Risen(old(system), system) && Reading(system, id, family, key, begun)
      ensures system.readers[id].phase == NextPhase(old(system), old(system).readers[id], step)
      ensures step.ReadGeneration? ==> system.store == old(system).store
      ensures step.Seed? && old(system).readers[id].phase.Holding? ==> family in system.store.generations
    {
      Take(step);
    }

    /** SET of the loaded value, which may fail. */
    method MoveFill(id: int, key: string, ghost begun: nat, entry: EntryId, value: Value, fails: bool)
      requires Sound() && ReadyToFill(system, id, key, begun, entry, value)
      modifies this
      ensures Sound() && (clean ==> old(clean)) && Risen(old(system), system)
      ensures Reading(system, id, entry.family, key, begun)
      ensures system.readers[id].phase.Done? && system.readers[id].phase.value == value
      ensures !fails ==> entry in system.store.entries && system.store.entries[entry] == value
    {
      if fails {
        Take(FillFails(id));
      } else {
        Take(Fill(id));
      }
    }

    /** This client's read starts; the floor it starts at is the one it will answer for. */
    method Enter(id: int, family: string, key: string, caching: bool)
      requires Sound() && id !in system.readers
      modifies this
      ensures Sound() && (clean ==> old(clean)) && Risen(old(system), system) && system.store == old(system).store
      ensures Reading(system, id, family, key, Count(old(system).floor, family))
      ensures if caching then system.readers[id].phase.Asking? else system.readers[id].phase.Skipping?
    {
      if caching {
        Take(Begin(id, family, key));
      } else {
        Take(Step.Bypass(id, family, key));
      }
    }

    method Leave(id: int)
      requires Sound() && id in system.readers
      modifies this
      ensures Sound() && (clean ==> old(clean)) && Risen(old(system), system) && id !in system.readers
    {
      Take(Drop(id));
    }

    /** GET of the generation key; what it answers is where the read goes. */
    method CurrentGeneration(id: int, family: string, key: string, ghost begun: nat, turn: Turn)
      returns (g: Option<int>)
      requires Sound() && forall i :: 0 <= i < |turn.others| ==> Foreign(turn.others[i], id)
      requires Reading(system, id, family, key, begun)
      requires system.readers[id].phase.Asking? || system.readers[id].phase.Seeded?
      modifies this
      ensures Sound() && (clean ==> old(clean)) && Risen(old(system), system) && Reading(system, id, family, key, begun)
      ensures turn.fails ==> g.None? && system.readers[id].phase.Skipping?
      ensures g.Some? ==> system.readers[id].phase.Looking? && system.readers[id].phase.generation == g.value
      ensures !turn.fails && g.None? ==>
                family !in system.store.generations &&
                system.readers[id].phase == if old(system).readers[id].phase.Asking? then Absent else Skipping(begun)
    {
      Elsewhere(turn.others, id);
      if turn.fails {
        g := None;
        Move(CallFails(id), id, family, key, begun);
      } else {
        g := if family in system.store.generations then Some(system.store.generations[family]) else None;
        Move(ReadGeneration(id), id, family, key, begun);
      }
    }

    /** A clock reading and SETNX of the generation key. */
    method SeedGeneration(id: int, family: string, key: string, ghost begun: nat, seed: int, turn: Turn)
      requires Sound() && forall i :: 0 <= i < |turn.others| ==> Foreign(turn.others[i], id)
      requires Reading(system, id, family, key, begun) && system.readers[id].phase.Absent?
      modifies this
      ensures Sound() && (clean ==> old(clean)) && Risen(old(system), system) && Reading(system, id, family, key, begun)
      ensures turn.fails ==> system.readers[id].phase.Skipping?
      ensures !turn.fails ==> system.readers[id].phase.Seeded? && family in system.store.generations
    {
      Move(ReadClock(id, seed), id, family, key, begun);
      Elsewhere(turn.others, id);
      if turn.fails {
        Move(CallFails(id), id, family, key, begun);
      } else {
        Move(Seed(id), id, family, key, begun);
      }
    }

    /** The family's generation, seeded when absent; None only when a command failed or the key was
        lost again after seeding. */
    method Generation(id: int, family: string, key: string, ghost begun: nat, seed: int, turns: nat -> Turn)
      returns (g: Option<int>)
      requires Sound() && AllForeign(turns, id)
      requires Reading(system, id, family, key, begun) && system.readers[id].phase.Asking?
      modifies this
      ensures Sound() && (clean ==> old(clean)) && Risen(old(system), system) && Reading(system, id, family, key, begun)
      ensures g.Some? ==> system.readers[id].phase.Looking? && system.readers[id].phase.generation == g.value
      ensures g.None? ==> system.readers[id].phase.Skipping?
      ensures g.None? ==>
                turns(0).fails || turns(1).fails || turns(2).fails || family !in system.store.generations
    {
      g := CurrentGeneration(id, family, key, begun, turns(0));
      if !turns(0).fails && g.None? {
        SeedGeneration(id, family, key, begun, seed, turns(1));
        if !turns(1).fails {
          g := CurrentGeneration(id, family, key, begun, turns(2));
        }
      }
    }

    /** The cached value, or where fill may store one: the entry of the generation seen. Neither
        when the family is not cached or a command fails. */
    method Get(id: int, family: string, key: string, seed: int, turns: nat -> Turn, undecodable: bool)
      returns (hit: Option<Value>, fill: Option<EntryId>)
      requires Sound() && AllForeign(turns, id) && id !in system.readers
      modifies this
      ensures Sound() && (clean ==> old(clean)) && Risen(old(system), system)
      ensures Reading(system, id, family, key, Count(old(system).floor, family))
      ensures hit.Some? ==> fill.None? && system.readers[id].phase.Done? && system.readers[id].phase.value == hit.value
      ensures fill.Some? ==> system.readers[id].phase.Missed? &&
                             fill.value == EntryId(family, system.readers[id].phase.generation, key)
      ensures hit.None? && fill.None? ==> system.readers[id].phase.Skipping?
      ensures family !in ttl || ttl[family] <= 0 ==> hit.None? && fill.None? && system.store == old(system).store
    {
      hit, fill := None, None;
      ghost var begun := Count(system.floor, family);
      if family !in ttl || ttl[family] <= 0 {
        Enter(id, family, key, false);
        return;
      }
      Enter(id, family, key, true);
      var g := Generation(id, family, key, begun, seed, turns);
      if g.None? {
        return;
      }
      hit, fill := LookUpEntry(id, family, key, begun, g.value, turns(3), undecodable);
    }

    /** GET of the entry: found, absent or undecodable, or the command fails. */
    method LookUpEntry(id: int, family: string, key: string, ghost begun: nat, g: int, turn: Turn, undecodable: bool)
      returns (hit: Option<Value>, fill: Option<EntryId>)
      requires Sound() && forall i :: 0 <= i < |turn.others| ==> Foreign(turn.others[i], id)
      requires Reading(system, id, family, key, begun)
      requires system.readers[id].phase.Looking? && system.readers[id].phase.generation == g
      modifies this
      ensures Sound() && (clean ==> old(clean)) && Risen(old(system), system) && Reading(system, id, family, key, begun)
      ensures hit.Some? ==> fill.None? && system.readers[id].phase.Done? && system.readers[id].phase.value == hit.value
      ensures fill.Some? ==> fill.value == EntryId(family, g, key) && system.readers[id].phase.Missed?
      ensures fill.Some? ==> system.readers[id].phase.generation == g
      ensures hit.None? && fill.None? ==> turn.fails && system.readers[id].phase.Skipping?
    {
      hit, fill := None, None;
      Elsewhere(turn.others, id);
      var entry := EntryId(family, g, key);
      if turn.fails {
        Move(CallFails(id), id, family, key, begun);
      } else if entry in system.store.entries && undecodable {
        fill := Some(entry);
        Move(Undecodable(id), id, family, key, begun);
      } else {
        if entry in system.store.entries {
          hit := Some(system.store.entries[entry]);
        } else {
          fill := Some(entry);
        }
        Move(LookUp(id), id, family, key, begun);
      }
    }

    /** Get's fill: SET of the loaded value under the generation that Get saw. */
    method FillEntry(id: int, key: string, ghost begun: nat, entry: EntryId, value: Value, turn: Turn)
      requires Sound() && forall i :: 0 <= i < |turn.others| ==> Foreign(turn.others[i], id)
      requires ReadyToFill(system, id, key, begun, entry, value)
      modifies this
      ensures Sound() && (clean ==> old(clean)) && Risen(old(system), system)
      ensures Reading(system, id, entry.family, key, begun)
      ensures system.readers[id].phase.Done? && system.readers[id].phase.value == value
      ensures !turn.fails ==> entry in system.store.entries && system.store.entries[entry] == value
    {
      Elsewhere(turn.others, id);
      MoveFill(id, key, begun, entry, value, turn.fails);
    }

    /** Through: the cached value, or a loaded one that is then stored. Whatever other clients do,
        whichever Redis commands fail and keys are lost, the read fails only if load does; and as long
        as every step is clean its value counts every commit invalidated before the read began. */
    method Through(id: int, configured: bool, bypassed: bool, family: string, key: string, seed: int,
                   turns: nat -> Turn, undecodable: bool, loadFails: bool)
      returns (r: Option<Value>)
      requires Sound() && AllForeign(turns, id) && id !in system.readers
      modifies this
      ensures Sound() && (clean ==> old(clean)) && Risen(old(system), system) && id !in system.readers
      ensures r.None? ==> loadFails
      ensures r.Some? ==> r.value.family == family && r.value.key == key
      ensures r.Some? && clean ==> r.value.version >= Count(old(system).floor, family)
    {
      ghost var begun := Count(system.floor, family);
      var fill: Option<EntryId>;
      if !configured || bypassed {
        fill := None;
        Enter(id, family, key, false);
      } else {
        r, fill := Get(id, family, key, seed, turns, undecodable);
        if r.Some? {
          assert Answers(system.readers[id]) && (clean ==> ReaderFresh(system, system.readers[id]));
          Leave(id);
          return;
        }
      }
      r := LoadAndFill(id, family, key, begun, fill, turns(4), turns(5), loadFails);
      Leave(id);
    }

    /** The second half of Through: load, and store a successful result if there is where to. */
    method LoadAndFill(id: int, family: string, key: string, ghost begun: nat, fill: Option<EntryId>,
                       loading: Turn, filling: Turn, loadFails: bool)
      returns (r: Option<Value>)
      requires Sound() && Reading(system, id, family, key, begun)
      requires forall i :: 0 <= i < |loading.others| ==> Foreign(loading.others[i], id)
      requires forall i :: 0 <= i < |filling.others| ==> Foreign(filling.others[i], id)
      requires fill.Some? ==> system.readers[id].phase.Missed? &&
                              fill.value == EntryId(family, system.readers[id].phase.generation, key)
      requires fill.None? ==> system.readers[id].phase.Skipping?
      modifies this
      ensures Sound() && (clean ==> old(clean)) && Risen(old(system), system) && Reading(system, id, family, key, begun)
      ensures r.None? <==> loadFails
      ensures r.Some? ==> r.value.family == family && r.value.key == key && (clean ==> r.value.version >= begun)
    {
      Elsewhere(loading.others, id);
      if loadFails {
        return None;
      }
      r := Some(Value(family, key, Count(system.commits, family)));
      Move(Load(id), id, family, key, begun);
      assert clean ==> ReaderFresh(system, system.readers[id]);
      if fill.Some? {
        FillEntry(id, key, begun, fill.value, r.value, filling);
      }
    }

    /** The pipeline is sent; executed of its commands run, other clients acting before each. When
        all do, every later read of the families counts the commits made before this call. */
    method Invalidate(id: int, families: seq<string>, clock: nat -> int, executed: nat, turns: nat -> Turn)
      requires Sound() && AllForeign(turns, id) && id !in system.pipes && executed <= 2 * |families|
      modifies this
      ensures Sound() && (clean ==> old(clean)) && Risen(old(system), system) && id !in system.pipes
      ensures families == [] ==> system == old(system)
      ensures Covered(old(system), system, families, executed / 2)
    {
      if |families| == 0 {
        return;
      }
      var seeds: seq<(string, int)> := [];
      for i := 0 to |families|
        invariant |seeds| == i && forall j :: 0 <= j < i ==> seeds[j] == (families[j], clock(j))
      {
        seeds := seeds + [(families[i], clock(i))];
      }
      PipelineAt(seeds);
      Send(id, seeds);
      Run(id, families, Pipeline(seeds), executed, turns);
      Close(id);
    }

    method Send(id: int, seeds: seq<(string, int)>)
      requires Sound() && id !in system.pipes
      modifies this
      ensures Sound() && (clean ==> old(clean)) && Risen(old(system), system)
      ensures id in system.pipes && system.pipes[id] == Pipeline(seeds)
    {
      Take(BeginInvalidate(id, seeds));
    }

    method Close(id: int)
      requires Sound()
      modifies this
      ensures Sound() && (clean ==> old(clean)) && Risen(old(system), system) && id !in system.pipes
    {
      Take(Abandon(id));
    }

    /** Redis runs the first commands of the pipeline. */
    method Run(id: int, families: seq<string>, ghost pipe: seq<Command>, executed: nat, turns: nat -> Turn)
      requires Sound() && AllForeign(turns, id) && id in system.pipes && system.pipes[id] == pipe
      requires executed <= |pipe| == 2 * |families|
      requires forall j :: 0 <= j < |families| ==> pipe[2 * j + 1] == Incr(families[j])
      modifies this
      ensures Sound() && (clean ==> old(clean)) && Risen(old(system), system)
      ensures Covered(old(system), system, families, executed / 2)
    {
      for n := 0 to executed
        invariant Sound() && (clean ==> old(clean)) && Risen(old(system), system)
        invariant id in system.pipes && system.pipes[id] == pipe[n..]
        invariant Covered(old(system), system, families, n / 2)
      {
        ghost var before := system;
        ExecuteNext(id, pipe[n], turns(n));
        CoverNext(old(system), before, system, families, pipe, n);
      }
    }

    /** The pipeline's next command; an INCR puts every commit so far below the floor. */
    method ExecuteNext(id: int, ghost command: Command, turn: Turn)
      requires Sound() && id in system.pipes && system.pipes[id] != [] && system.pipes[id][0] == command
      requires forall i :: 0 <= i < |turn.others| ==> Foreign(turn.others[i], id)
      modifies this
      ensures Sound() && (clean ==> old(clean)) && Risen(old(system), system)
      ensures id in system.pipes && system.pipes[id] == old(system).pipes[id][1..]
      ensures command.Incr? ==> Count(system.floor, command.family) >= Count(old(system).commits, command.family)
    {
      Elsewhere(turn.others, id);
      Take(Execute(id));
    }
  }

  lemma CoverNext(s: State, t: State, u: State, families: seq<string>, pipe: seq<Command>, n: nat)
    requires Risen(s, t) && Risen(t, u) && Covered(s, t, families, n / 2) && n < |pipe| == 2 * |families|
    requires forall j :: 0 <= j < |families| ==> pipe[2 * j + 1] == Incr(families[j])
    requires pipe[n].Incr? ==> Count(u.floor, pipe[n].family) >= Count(t.commits, pipe[n].family)
    ensures Covered(s, u, families, (n + 1) / 2)
  {
  }

  predicate OwnStep(step: Step, id: int)
  {
    match step
    case ReadGeneration(i) => i == id
    case ReadClock(i, _) => i == id
    case Seed(i) => i == id
    case LookUp(i) => i == id
    case Undecodable(i) => i == id
    case CallFails(i) => i == id
    case Load(i) => i == id
    case Fill(i) => i == id
    case FillFails(i) => i == id
    case _ => false
  }
}
