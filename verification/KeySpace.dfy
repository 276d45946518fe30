/** Redis has one space of string keys; the protocol keeps generations and entries apart and keys
    entries by family, generation and key. For families without a colon the two agree: every command
    on the string keys does what the protocol says. */
module KeySpace {
  import opened CacheKeys
  import opened ReadCache

  datatype Cell = Number(generation: int) | Entry(value: Value)

  type Redis = map<string, Cell>

  function KeyOf(e: EntryId): string { EntryKey(e.family, e.generation, e.key) }

  /** The string keys hold exactly the store, for families without a colon. */
  ghost predicate Represents(redis: Redis, s: Store)
  {
    && (forall f :: NoColon(f) ==> HoldsGeneration(redis, s, f))
    && (forall e: EntryId :: NoColon(e.family) ==> HoldsEntry(redis, s, e))
  }

  predicate HoldsGeneration(redis: Redis, s: Store, f: string)
  {
    && (GenerationKey(f) in redis <==> f in s.generations)
    && (f in s.generations ==> redis[GenerationKey(f)] == Number(s.generations[f]))
  }

  predicate HoldsEntry(redis: Redis, s: Store, e: EntryId)
  {
    && (KeyOf(e) in redis <==> e in s.entries)
    && (e in s.entries ==> redis[KeyOf(e)] == Entry(s.entries[e]))
  }

  /** A change at one generation key touches no other generation and no entry. */
  lemma GenerationChange(redis: Redis, next: Redis, s: Store, t: Store, f: string)
    requires Represents(redis, s) && NoColon(f) && t.entries == s.entries && HoldsGeneration(next, t, f)
    requires forall k :: k != GenerationKey(f) ==> (k in next <==> k in redis)
    requires forall k :: k != GenerationKey(f) && k in redis ==> k in next && next[k] == redis[k]
    requires forall g :: g != f ==> (g in t.generations <==> g in s.generations)
    requires forall g :: g != f && g in s.generations ==> g in t.generations && t.generations[g] == s.generations[g]
    ensures Represents(next, t)
  {
    forall g | NoColon(g)
      ensures HoldsGeneration(next, t, g)
    {
      GenerationKeysDistinct(f, g, 0, "");
      assert HoldsGeneration(redis, s, g);
    }
    forall e: EntryId | NoColon(e.family)
      ensures HoldsEntry(next, t, e)
    {
      GenerationKeysDistinct(f, e.family, e.generation, e.key);
      assert HoldsEntry(redis, s, e);
    }
  }

  /** A change at one entry key touches no other entry and no generation. */
  lemma EntryChange(redis: Redis, next: Redis, s: Store, t: Store, e: EntryId)
    requires Represents(redis, s) && NoColon(e.family) && t.generations == s.generations && HoldsEntry(next, t, e)
    requires forall k :: k != KeyOf(e) ==> (k in next <==> k in redis)
    requires forall k :: k != KeyOf(e) && k in redis ==> k in next && next[k] == redis[k]
    requires forall x :: x != e ==> (x in t.entries <==> x in s.entries)
    requires forall x :: x != e && x in s.entries ==> x in t.entries && t.entries[x] == s.entries[x]
    ensures Represents(next, t)
  {
    forall g | NoColon(g)
      ensures HoldsGeneration(next, t, g)
    {
      GenerationKeysDistinct(g, e.family, e.generation, e.key);
      assert HoldsGeneration(redis, s, g);
    }
    forall x: EntryId | NoColon(x.family)
      ensures HoldsEntry(next, t, x)
    {
      if KeyOf(x) == KeyOf(e) {
        EntryKeysDistinct(x.family, x.generation, x.key, e.family, e.generation, e.key);
      }
      assert HoldsEntry(redis, s, x);
    }
  }

  lemma SetNXAgrees(redis: Redis, s: Store, f: string, seed: int)
    requires Represents(redis, s) && NoColon(f)
    ensures Represents(if GenerationKey(f) in redis then redis else redis[GenerationKey(f) := Number(seed)],
                       SetIfAbsent(s, f, seed))
  {
    assert HoldsGeneration(redis, s, f);
    if GenerationKey(f) !in redis {
      GenerationChange(redis, redis[GenerationKey(f) := Number(seed)], s, SetIfAbsent(s, f, seed), f);
    }
  }

  lemma IncrAgrees(redis: Redis, s: Store, f: string)
    requires Represents(redis, s) && NoColon(f)
    ensures var k := GenerationKey(f);
            var was := if k in redis && redis[k].Number? then redis[k].generation else 0;
            Represents(redis[GenerationKey(f) := Number(was + 1)], Increment(s, f))
  {
    assert HoldsGeneration(redis, s, f);
    GenerationChange(redis, redis[GenerationKey(f) := Number(Increment(s, f).generations[f])], s, Increment(s, f), f);
  }

  lemma SetAgrees(redis: Redis, s: Store, e: EntryId, v: Value)
    requires Represents(redis, s) && NoColon(e.family)
    ensures Represents(redis[KeyOf(e) := Entry(v)], s.(entries := s.entries[e := v]))
  {
    EntryChange(redis, redis[KeyOf(e) := Entry(v)], s, s.(entries := s.entries[e := v]), e);
  }

  /** Losing a generation key, and the expiry of an entry. */
  lemma DeleteAgrees(redis: Redis, s: Store, f: string, e: EntryId)
    requires Represents(redis, s) && NoColon(f) && NoColon(e.family)
    ensures Represents(redis - {GenerationKey(f)}, s.(generations := s.generations - {f}))
    ensures Represents(redis - {KeyOf(e)}, s.(entries := s.entries - {e}))
  {
    GenerationChange(redis, redis - {GenerationKey(f)}, s, s.(generations := s.generations - {f}), f);
    EntryChange(redis, redis - {KeyOf(e)}, s, s.(entries := s.entries - {e}), e);
  }
}
