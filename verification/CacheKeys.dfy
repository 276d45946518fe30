/** The strings the read cache uses as Redis keys. */
module CacheKeys {
  /** cache:public:v1: */
  const Prefix: string := "cache:public:v1:"

  function Digit(d: int): char
    requires 0 <= d < 10
  {
    '0' + d as char
  }

  /** %d. */
  function Decimal(n: int): string
    decreases if n < 0 then 1 - n else n
  {
    if n < 0 then "-" + Decimal(-n)
    else if n < 10 then [Digit(n)]
    else Decimal(n / 10) + [Digit(n % 10)]
  }

  function GenerationKey(family: string): string { Prefix + (family + ":gen") }

  /** The part of an entry key after the family. */
  function Tail(generation: int, key: string): string { ":g" + Decimal(generation) + (":" + key) }

  function EntryKey(family: string, generation: int, key: string): string { Prefix + (family + Tail(generation, key)) }

  /** The declared families. */
  const Families: seq<string> := ["posts", "categories", "tags", "users", "settings"]

  predicate NoColon(s: string) { ':' !in s }

  // ---- Decimal is readable back -----------------------------------------------------

  function Parse(s: string): int
  {
    if s == [] then 0
    else if s[0] == '-' then -Parse(s[1..])
    else 10 * Parse(s[..|s| - 1]) + (s[|s| - 1] as int - '0' as int)
  }

  predicate Digits(s: string) { s != [] && forall i :: 0 <= i < |s| ==> '0' <= s[i] <= '9' }

  lemma {:induction false} DecimalReadsBack(n: int)
    ensures Parse(Decimal(n)) == n
    ensures NoColon(Decimal(n)) && Decimal(n) != []
    ensures n >= 0 ==> Digits(Decimal(n))
    decreases if n < 0 then 1 - n else n
  {
    if n < 0 {
      DecimalReadsBack(-n);
      assert Decimal(n)[1..] == Decimal(-n);
    } else if n >= 10 {
      DecimalReadsBack(n / 10);
      var s := Decimal(n);
      assert s[..|s| - 1] == Decimal(n / 10);
    }
  }

  // ---- Injectivity ------------------------------------------------------------------

  /** Texts before the first colon, and after it, are determined by the whole. */
  lemma {:induction false} SplitAtColon(a: string, x: string, b: string, y: string)
    requires NoColon(a) && NoColon(b) && a + ":" + x == b + ":" + y
    ensures a == b && x == y
  {
    var left, right := a + ":" + x, b + ":" + y;
    assert left[0] == (if a == [] then ':' else a[0]) && right[0] == (if b == [] then ':' else b[0]);
    if a == [] {
      assert b == [] && x == left[1..] == right[1..] == y;
    } else {
      assert b != [];
      assert left[1..] == a[1..] + ":" + x && right[1..] == b[1..] + ":" + y;
      SplitAtColon(a[1..], x, b[1..], y);
      assert a == [a[0]] + a[1..] && b == [b[0]] + b[1..];
    }
  }

  lemma SamePrefix(a: string, x: string, b: string, y: string)
    requires |a| == |b| && a + x == b + y
    ensures a == b && x == y
  {
    assert (a + x)[..|a|] == a && (b + y)[..|b|] == b;
    assert (a + x)[|a|..] == x && (b + y)[|b|..] == y;
  }

  lemma TailInjective(g: int, k: string, h: int, l: string)
    requires Tail(g, k) == Tail(h, l)
    ensures g == h && k == l
  {
    DecimalReadsBack(g);
    DecimalReadsBack(h);
    assert Tail(g, k) == ":g" + (Decimal(g) + ":" + k);
    assert Tail(h, l) == ":g" + (Decimal(h) + ":" + l);
    SamePrefix(":g", Decimal(g) + ":" + k, ":g", Decimal(h) + ":" + l);
    SplitAtColon(Decimal(g), k, Decimal(h), l);
  }

  lemma FamilyTail(f: string, g: int, k: string)
    ensures f + Tail(g, k) == f + ":" + Tail(g, k)[1..]
    ensures Tail(g, k)[1..] == "g" + Decimal(g) + ":" + k
  {
  }

  /** Entry keys are distinct per (family, generation, key), for families without a colon. */
  lemma EntryKeysDistinct(f: string, g: int, k: string, f': string, g': int, k': string)
    requires NoColon(f) && NoColon(f') && EntryKey(f, g, k) == EntryKey(f', g', k')
    ensures f == f' && g == g' && k == k'
  {
    SamePrefix(Prefix, f + Tail(g, k), Prefix, f' + Tail(g', k'));
    FamilyTail(f, g, k);
    FamilyTail(f', g', k');
    SplitAtColon(f, Tail(g, k)[1..], f', Tail(g', k')[1..]);
    assert Tail(g, k) == ":" + Tail(g, k)[1..] && Tail(g', k') == ":" + Tail(g', k')[1..];
    TailInjective(g, k, g', k');
  }

  lemma {:induction false} DecimalStart(n: int)
    ensures Decimal(n) != [] && Decimal(n)[0] != 'e'
  {
    DecimalReadsBack(n);
  }

  /** A generation key is never an entry key, and belongs to one family. */
  lemma GenerationKeysDistinct(f: string, f': string, g: int, k: string)
    requires NoColon(f) && NoColon(f')
    ensures GenerationKey(f) != EntryKey(f', g, k)
    ensures GenerationKey(f) == GenerationKey(f') ==> f == f'
  {
    DecimalStart(g);
    FamilyTail(f', g, k);
    assert Tail(g, k)[1..][1] == Decimal(g)[0];
    assert f + ":gen" == f + ":" + "gen" && f' + ":gen" == f' + ":" + "gen";
    if GenerationKey(f) == EntryKey(f', g, k) {
      SamePrefix(Prefix, f + ":gen", Prefix, f' + Tail(g, k));
      SplitAtColon(f, "gen", f', Tail(g, k)[1..]);
    }
    if GenerationKey(f) == GenerationKey(f') {
      SamePrefix(Prefix, f + ":gen", Prefix, f' + ":gen");
      SplitAtColon(f, "gen", f', "gen");
    }
  }

  lemma DeclaredFamiliesHaveNoColon(i: nat)
    requires i < |Families|
    ensures NoColon(Families[i])
  {
  }

  // ---- Families that could collide --------------------------------------------------

  predicate EmptyOrColon(r: string) { r == [] || r[0] == ':' }

  /** What a family adds to another: ":g" and one of its generations, then nothing or a colon. */
  ghost predicate GenerationSuffix(s: string)
  {
    exists d, r :: s == ":g" + Decimal(d) + r && EmptyOrColon(r)
  }

  /** inner extends outer by what looks like one of outer's generations. */
  ghost predicate Nested(outer: string, inner: string)
  {
    outer <= inner && GenerationSuffix(inner[|outer|..])
  }

  ghost predicate Collide(f: string, f': string)
  {
    exists g, k, g', k' :: EntryKey(f, g, k) == EntryKey(f', g', k')
  }

  /** s followed by an entry tail is itself an entry tail. */
  ghost predicate Absorbs(s: string)
  {
    exists g, k, g', k' :: Tail(g, k) == s + Tail(g', k')
  }

  lemma SuffixAbsorbs(s: string)
    requires GenerationSuffix(s)
    ensures Absorbs(s)
  {
    var d, r :| s == ":g" + Decimal(d) + r && EmptyOrColon(r);
    var rest := r + Tail(0, "");
    assert rest[0] == ':' && rest == ":" + rest[1..];
    assert Tail(d, rest[1..]) == s + Tail(0, "");
  }

  lemma AbsorbsSuffix(s: string, g: int, k: string, g': int, k': string)
    requires s != [] && Tail(g, k) == s + Tail(g', k')
    ensures GenerationSuffix(s)
  {
    DecimalReadsBack(g);
    var t, m := Tail(g, k), 2 + |Decimal(g)|;
    assert t[|s|] == Tail(g', k')[0] == ':';
    assert t[1] == 'g' && forall i :: 2 <= i < m ==> t[i] == Decimal(g)[i - 2];
    assert |s| >= m;
    assert s == t[..|s|] && t[..m] == ":g" + Decimal(g) && t[m] == ':';
    var r := s[m..];
    assert EmptyOrColon(r) by {
      assert r != [] ==> r[0] == t[m];
    }
    assert s == ":g" + Decimal(g) + r;
  }

  lemma CollideIffNestedOneWay(f: string, f': string)
    requires f <= f' && f != f'
    ensures Collide(f, f') <==> Nested(f, f')
  {
    var s := f'[|f|..];
    assert f' == f + s;
    if Nested(f, f') {
      SuffixAbsorbs(s);
      var g, k, g', k' :| Tail(g, k) == s + Tail(g', k');
      assert f + Tail(g, k) == f' + Tail(g', k');
      assert EntryKey(f, g, k) == EntryKey(f', g', k');
    }
    if Collide(f, f') {
      var g, k, g', k' :| EntryKey(f, g, k) == EntryKey(f', g', k');
      SamePrefix(Prefix, f + Tail(g, k), Prefix, f' + Tail(g', k'));
      assert f' + Tail(g', k') == f + (s + Tail(g', k'));
      SamePrefix(f, Tail(g, k), f, s + Tail(g', k'));
      AbsorbsSuffix(s, g, k, g', k');
    }
  }

  lemma CollidePrefix(f: string, f': string)
    requires Collide(f, f') && |f| <= |f'|
    ensures f <= f'
  {
    var g, k, g', k' :| EntryKey(f, g, k) == EntryKey(f', g', k');
    SamePrefix(Prefix, f + Tail(g, k), Prefix, f' + Tail(g', k'));
    assert (f + Tail(g, k))[..|f|] == f && (f' + Tail(g', k'))[..|f|] == f'[..|f|];
  }

  lemma CollideSymmetric(f: string, f': string)
    ensures Collide(f, f') <==> Collide(f', f)
  {
  }

  /** Two different families share an entry key exactly when one extends the other by a
      generation; families without a colon never do. */
  lemma CollideIffNested(f: string, f': string)
    requires f != f'
    ensures Collide(f, f') <==> Nested(f, f') || Nested(f', f)
  {
    CollideSymmetric(f, f');
    if f <= f' {
      CollideIffNestedOneWay(f, f');
    } else if f' <= f {
      CollideIffNestedOneWay(f', f);
    } else if Collide(f, f') {
      if |f| <= |f'| {
        CollidePrefix(f, f');
      } else {
        CollidePrefix(f', f);
      }
    }
  }
}
