/** The consumer chain: poison queue around retry around panic recovery around one circuit breaker
    shared by every copy of a handler. */
module Consumer {
  import opened Common
  import CacheKeys

  /** A handler's result; errors carry the marks that the chain looks for. */
  datatype Result = Ok | Err(permanent: bool, circuitOpen: bool)

  /** One run of the handler: what it returns, or that it panics, the clock before and after, and
      whether the message's context ends during the wait that would follow. */
  datatype Try = Try(panics: bool, result: Result, began: int, ended: int, cut: bool)

  datatype Config = Config(failures: int, openFor: int, maxRetries: int)

  datatype State = Closed(consecutive: nat) | Open(expiry: int) | HalfOpen

  const Refused: Result := Err(false, true)
  const Recovered: Result := Err(false, false)

  function OpenFor(c: Config): (r: int)
    ensures r > 0
  {
    if c.openFor <= 0 then 30_000_000_000 else c.openFor
  }

  function MaxRetries(c: Config): nat { if c.maxRetries < 0 then 0 else c.maxRetries }

  /** Permanent errors do not count as failures; a panic does. */
  predicate Successful(t: Try) { !t.panics && (t.result.Ok? || t.result.permanent) }

  /** What the handler's run looks like above the recoverer. */
  function Seen(t: Try): Result { if t.panics then Recovered else t.result }

  /** An open breaker lets one trial through once its time has passed. */
  function Current(s: State, now: int): State { if s.Open? && s.expiry < now then HalfOpen else s }

  /** The state after a run that the breaker let through. */
  function Counted(s: State, t: Try, c: Config): State
    requires !s.Open?
  {
    if Successful(t) then Closed(0)
    else if s.HalfOpen? || s.consecutive + 1 >= c.failures then Open(t.ended + OpenFor(c))
    else Closed(s.consecutive + 1)
  }

  predicate Admits(s: State, t: Try, c: Config) { c.failures < 1 || !Current(s, t.began).Open? }

  /** One call through recoverer and breaker. Failures below 1 disable the breaker. */
  function Call(s: State, t: Try, c: Config): (State, Result)
  {
    if c.failures < 1 then (s, Seen(t))
    else if Current(s, t.began).Open? then (s, Refused)
    else (Counted(Current(s, t.began), t, c), Seen(t))
  }

  predicate ShouldRetry(r: Result) { r.Err? && !r.permanent && !r.circuitOpen }

  datatype Fate = Acked | DeadLettered | Nacked

  /** Only an open circuit keeps a failed message out of the dead-letter topic; if that topic cannot
      be written the message is nacked. */
  function Verdict(r: Result, published: bool): Fate
  {
    if r.Ok? then Acked else if r.circuitOpen || !published then Nacked else DeadLettered
  }

  /** The wait for another try: the result asks for one, one is left, and the context lives. */
  predicate GoesOn(r: Result, t: Try, k: nat, c: Config) { ShouldRetry(r) && k < MaxRetries(c) && !t.cut }

  /** The retry loop from the k-th try on: the breaker afterwards, the last result and its number. */
  function Retried(s: State, tries: nat -> Try, k: nat, c: Config): (State, Result, nat)
    requires k <= MaxRetries(c)
    decreases MaxRetries(c) - k
  {
    var (t, r) := Call(s, tries(k), c);
    if GoesOn(r, tries(k), k, c) then Retried(t, tries, k + 1, c) else (t, r, k)
  }

  class CircuitBreaker {
    const c: Config
    var state: State

    constructor (c: Config)
      ensures this.c == c && state == Closed(0)
    {
      this.c, state := c, Closed(0);
    }

    method Execute(t: Try) returns (r: Result)
      modifies this
      ensures (state, r) == Call(old(state), t, c)
    {
      if c.failures < 1 {
        return Seen(t);
      }
      var now := Current(state, t.began);
      if now.Open? {
        return Refused;
      }
      if Successful(t) {
        state := Closed(0);
      } else if now.HalfOpen? || now.consecutive + 1 >= c.failures {
        state := Open(t.ended + OpenFor(c));
      } else {
        state := Closed(now.consecutive + 1);
      }
      r := Seen(t);
    }

    /** One delivery through the whole chain. */
    method Handle(tries: nat -> Try, published: bool) returns (fate: Fate, used: nat)
      modifies this
      ensures var (s, r, k) := Retried(old(state), tries, 0, c);
              state == s && fate == Verdict(r, published) && used == k + 1
    {
      var r := Execute(tries(0));
      used := 1;
      while ShouldRetry(r) && used <= MaxRetries(c) && !tries(used - 1).cut
        invariant 1 <= used <= MaxRetries(c) + 1
        invariant Retried(old(state), tries, 0, c) ==
                  if GoesOn(r, tries(used - 1), used - 1, c) then Retried(state, tries, used, c)
                  else (state, r, used - 1)
        decreases MaxRetries(c) + 1 - used
      {
        r := Execute(tries(used));
        used := used + 1;
      }
      fate := Verdict(r, published);
    }
  }

  // ---- One delivery -----------------------------------------------------------------

  /** Where the last call of a delivery started, and that the result is that call's. */
  lemma {:induction false} LastCall(s: State, tries: nat -> Try, k: nat, c: Config) returns (before: State)
    requires k <= MaxRetries(c)
    ensures var (t, r, n) := Retried(s, tries, k, c);
            && k <= n <= MaxRetries(c) && (t, r) == Call(before, tries(n), c)
            && !GoesOn(r, tries(n), n, c)
            && (n == k ==> before == s)
    decreases MaxRetries(c) - k
  {
    var (t, r) := Call(s, tries(k), c);
    before := s;
    if GoesOn(r, tries(k), k, c) {
      before := LastCall(t, tries, k + 1, c);
    }
  }

  /** A dead-lettered delivery ended on the handler's own error: permanent, or transient with every
      retry used or the wait for the next one cut short. A delivery the breaker refused last is nacked. */
  lemma DeadLetterMeansGivenUp(s: State, tries: nat -> Try, c: Config, published: bool) returns (before: State)
    ensures var (t, r, n) := Retried(s, tries, 0, c);
            && n <= MaxRetries(c)
            && (Verdict(r, published).DeadLettered? ==>
                  && Admits(before, tries(n), c) && Seen(tries(n)).Err?
                  && (Seen(tries(n)).permanent || n == MaxRetries(c) || tries(n).cut))
            && (!Admits(before, tries(n), c) ==> r == Refused && Verdict(r, published) == Nacked && t == before)
  {
    before := LastCall(s, tries, 0, c);
  }

  /** While the breaker stays open nothing runs, nothing is retried and nothing is dead-lettered. */
  lemma OpenRefuses(s: State, tries: nat -> Try, c: Config, published: bool)
    requires c.failures >= 1 && s.Open? && tries(0).began <= s.expiry
    ensures Retried(s, tries, 0, c) == (s, Refused, 0) && Verdict(Refused, published) == Nacked
  {
  }

  // ---- A run of deliveries ----------------------------------------------------------

  /** The breaker after n deliveries in turn, and how many of them were dead-lettered. */
  function Run(s: State, messages: nat -> nat -> Try, n: nat, c: Config): (State, nat)
  {
    if n == 0 then (s, 0)
    else
      var (t, dead) := Run(s, messages, n - 1, c);
      var (u, r, _) := Retried(t, messages(n - 1), 0, c);
      (u, dead + if Verdict(r, true).DeadLettered? then 1 else 0)
  }

  /** Every try of every message fails in a way that a retry might fix. */
  ghost predicate AllTransient(messages: nat -> nat -> Try)
  {
    forall m, k :: ShouldRetry(Seen(messages(m)(k)))
  }

  /** No wait for a retry is longer than gap; waits are cut short only where cuts allows it. */
  ghost predicate Waits(messages: nat -> nat -> Try, gap: int, cuts: bool, c: Config)
  {
    forall m: nat, k: nat :: k < MaxRetries(c) ==>
      && (messages(m)(k).cut ==> cuts)
      && messages(m)(k + 1).began <= messages(m)(k).ended + gap
  }

  ghost predicate NoCuts(messages: nat -> nat -> Try, c: Config)
  {
    forall m: nat, k: nat :: k < MaxRetries(c) ==> !messages(m)(k).cut
  }

  /** As long as the limit leaves room for all of a message's tries, they are all used, whatever the
      clock. */
  lemma {:induction false} TriesUnderLimit(n: nat, messages: nat -> nat -> Try, m: nat, k: nat, c: Config)
    requires k <= MaxRetries(c) && n + MaxRetries(c) + 1 - k <= c.failures
    requires AllTransient(messages) && NoCuts(messages, c)
    ensures var (t, r, last) := Retried(Closed(n), messages(m), k, c);
            var left := MaxRetries(c) + 1 - k;
            && ShouldRetry(r) && last == MaxRetries(c)
            && (if n + left < c.failures then t == Closed(n + left) else t.Open?)
    decreases MaxRetries(c) - k
  {
    assert ShouldRetry(Seen(messages(m)(k)));
    if k < MaxRetries(c) {
      TriesUnderLimit(n + 1, messages, m, k + 1, c);
    }
  }

  /** A message whose tries do not fit opens the breaker, and leaves it open whatever the clock. */
  lemma {:induction false} EndsOpen(s: State, messages: nat -> nat -> Try, m: nat, k: nat, c: Config)
    requires c.failures >= 1 && k <= MaxRetries(c) && AllTransient(messages) && NoCuts(messages, c)
    requires s.Open? || (s.Closed? && s.consecutive + MaxRetries(c) + 1 - k >= c.failures)
    ensures Retried(s, messages(m), k, c).0.Open?
    decreases MaxRetries(c) - k
  {
    var try := messages(m)(k);
    assert ShouldRetry(Seen(try));
    var (t, r) := Call(s, try, c);
    if GoesOn(r, try, k, c) {
      EndsOpen(t, messages, m, k + 1, c);
    }
  }

  lemma Room(n: nat, each: nat, f: nat)
    requires each > 0 && n <= f / each
    ensures n * each <= f
  {
  }

  /** Until the breaker opens no clock matters: the first floor(Failures / (MaxRetries + 1)) messages
      are dead-lettered, and it opens on the last try of the last of them or during the next. */
  lemma {:induction false} BeforeTheBreakerOpens(messages: nat -> nat -> Try, n: nat, c: Config)
    requires c.failures >= 1 && AllTransient(messages) && NoCuts(messages, c)
    requires n <= c.failures / (MaxRetries(c) + 1)
    ensures var (t, dead) := Run(Closed(0), messages, n, c);
            var each := MaxRetries(c) + 1;
            && dead == n && n * each <= c.failures
            && (if n * each < c.failures then t == Closed(n * each) else t.Open?)
    ensures n == c.failures / (MaxRetries(c) + 1) ==> Run(Closed(0), messages, n + 1, c).0.Open?
  {
    var each := MaxRetries(c) + 1;
    Quotients(n, each, c.failures);
    Room(n, each, c.failures);
    if n > 0 {
      BeforeTheBreakerOpens(messages, n - 1, c);
      assert n * each == (n - 1) * each + each;
      TriesUnderLimit((n - 1) * each, messages, n - 1, 0, c);
    }
    if n == c.failures / each {
      Overflows(n, each, c.failures);
      EndsOpen(Run(Closed(0), messages, n, c).0, messages, n, 0, c);
    }
  }

  lemma Overflows(n: nat, each: nat, f: nat)
    requires each > 0 && n == f / each
    ensures n * each + each > f
  {
  }

  // ---- When waits are no longer than the breaker stays open -------------------------

  /** An open breaker: the first try is refused, or is the trial and the wait after it ends while the
      breaker is open again. */
  lemma OpenNeverDeadLetters(s: State, messages: nat -> nat -> Try, m: nat, c: Config)
    requires c.failures >= 1 && s.Open? && MaxRetries(c) >= 1
    requires AllTransient(messages) && Waits(messages, OpenFor(c), false, c)
    ensures Retried(s, messages(m), 0, c).0.Open? && Retried(s, messages(m), 0, c).1 == Refused
  {
    var first := messages(m)(0);
    assert ShouldRetry(Seen(first));
    assert messages(m)(0 + 1).began <= first.ended + OpenFor(c);
    var (t, r) := Call(s, first, c);
    if r != Refused {
      assert Retried(t, messages(m), 1, c) == (t, Refused, 1);
    }
  }

  /** A message whose tries do not all fit is refused after the try that opened the breaker. */
  lemma {:induction false} OpensMidway(n: nat, messages: nat -> nat -> Try, m: nat, k: nat, c: Config)
    requires n < c.failures && k <= MaxRetries(c) && n + MaxRetries(c) + 1 - k > c.failures
    requires AllTransient(messages) && Waits(messages, OpenFor(c), false, c)
    ensures Retried(Closed(n), messages(m), k, c).0.Open? && Retried(Closed(n), messages(m), k, c).1 == Refused
    decreases MaxRetries(c) - k
  {
    var try := messages(m)(k);
    assert ShouldRetry(Seen(try)) && messages(m)(k + 1).began <= try.ended + OpenFor(c);
    if n + 1 < c.failures {
      OpensMidway(n + 1, messages, m, k + 1, c);
    } else {
      var t := Open(try.ended + OpenFor(c));
      assert Retried(t, messages(m), k + 1, c) == (t, Refused, k + 1);
    }
  }

  /** What an unbroken run of transient failures, however long, does to a closed breaker and its
      messages: one dead letter per full set of tries that fits in the failure limit, and none once
      the breaker has opened, trial calls included. */
  lemma {:induction false} TransientFailuresDeadLetterFew(messages: nat -> nat -> Try, n: nat, c: Config)
    requires c.failures >= 1 && MaxRetries(c) >= 1
    requires AllTransient(messages) && Waits(messages, OpenFor(c), false, c)
    ensures var (t, dead) := Run(Closed(0), messages, n, c);
            var each := MaxRetries(c) + 1;
            && dead == Min(n, c.failures / each)
            && (if n * each < c.failures then t == Closed(n * each) else t.Open?)
  {
    var each := MaxRetries(c) + 1;
    Quotients(n, each, c.failures);
    if n > 0 {
      TransientFailuresDeadLetterFew(messages, n - 1, c);
      assert n * each == (n - 1) * each + each;
      Quotients(n - 1, each, c.failures);
      if (n - 1) * each >= c.failures {
        OpenNeverDeadLetters(Run(Closed(0), messages, n - 1, c).0, messages, n - 1, c);
      } else if n * each <= c.failures {
        TriesUnderLimit((n - 1) * each, messages, n - 1, 0, c);
      } else {
        OpensMidway((n - 1) * each, messages, n - 1, 0, c);
      }
    }
  }

  // ---- The condition is exact -------------------------------------------------------

  /** Every run of transient failures with such waits stays within the bound. */
  ghost predicate AlwaysFew(gap: int, cuts: bool, c: Config)
  {
    forall messages: nat -> nat -> Try, n: nat ::
      AllTransient(messages) && Waits(messages, gap, cuts, c) ==>
        Run(Closed(0), messages, n, c).1 <= c.failures / (MaxRetries(c) + 1)
  }

  /** Every try, of all messages in turn, comes just after the breaker would let a trial through. */
  function SlowTry(c: Config, i: int): Try
  {
    var at := i * (OpenFor(c) + 1);
    Try(false, Recovered, at, at, false)
  }

  function Slow(c: Config): nat -> nat -> Try
  {
    (m: nat) => (k: nat) => SlowTry(c, m * (MaxRetries(c) + 1) + k)
  }

  /** The breaker before the i-th such try. */
  function SlowState(c: Config, i: nat): State
  {
    if i < c.failures then Closed(i) else Open((i - 1) * (OpenFor(c) + 1) + OpenFor(c))
  }

  lemma SlowCall(c: Config, i: nat)
    requires c.failures >= 1
    ensures Call(SlowState(c, i), SlowTry(c, i), c) == (SlowState(c, i + 1), Recovered)
  {
    assert i * (OpenFor(c) + 1) == (i - 1) * (OpenFor(c) + 1) + OpenFor(c) + 1;
  }

  lemma {:induction false} SlowTries(c: Config, m: nat, k: nat)
    requires c.failures >= 1 && k <= MaxRetries(c)
    ensures var each := MaxRetries(c) + 1;
            Retried(SlowState(c, m * each + k), Slow(c)(m), k, c) ==
                (SlowState(c, m * each + each), Recovered, MaxRetries(c))
    decreases MaxRetries(c) - k
  {
    SlowCall(c, m * (MaxRetries(c) + 1) + k);
    if k < MaxRetries(c) {
      SlowTries(c, m, k + 1);
    }
  }

  /** Waits just longer than the breaker stays open, or no retries at all: every message of the run
      is dead-lettered, whatever the failure limit. */
  lemma {:induction false} SlowRetriesDeadLetterAll(c: Config, n: nat)
    requires c.failures >= 1
    ensures Run(Closed(0), Slow(c), n, c) == (SlowState(c, n * (MaxRetries(c) + 1)), n)
  {
    if n > 0 {
      SlowRetriesDeadLetterAll(c, n - 1);
      SlowTries(c, n - 1, 0);
      assert n * (MaxRetries(c) + 1) == (n - 1) * (MaxRetries(c) + 1) + (MaxRetries(c) + 1);
    }
  }

  lemma SlowWaits(c: Config, gap: int, cuts: bool)
    requires gap > OpenFor(c) || MaxRetries(c) == 0
    ensures AllTransient(Slow(c)) && Waits(Slow(c), gap, cuts, c)
  {
    forall m: nat, k: nat ensures ShouldRetry(Seen(Slow(c)(m)(k))) {
      assert Slow(c)(m)(k) == SlowTry(c, m * (MaxRetries(c) + 1) + k);
    }
    forall m: nat, k: nat | k < MaxRetries(c)
      ensures !Slow(c)(m)(k).cut && Slow(c)(m)(k + 1).began <= Slow(c)(m)(k).ended + gap
    {
      var i := m * (MaxRetries(c) + 1) + k;
      assert Slow(c)(m)(k) == SlowTry(c, i) && Slow(c)(m)(k + 1) == SlowTry(c, i + 1);
      assert (i + 1) * (OpenFor(c) + 1) == i * (OpenFor(c) + 1) + (OpenFor(c) + 1);
    }
  }

  /** Every wait is cut short after the first try. */
  function Cut(gap: int): nat -> nat -> Try
  {
    (m: nat) => (k: nat) => Try(false, Recovered, k * gap, k * gap, true)
  }

  /** Cut waits cost one failure a message: as many as the failure limit are dead-lettered. */
  lemma {:induction false} CutRetriesDeadLetterMore(c: Config, gap: int, n: nat)
    requires n <= c.failures
    ensures var (t, dead) := Run(Closed(0), Cut(gap), n, c);
            dead == n && (if n < c.failures || n == 0 then t == Closed(n) else t.Open?)
  {
    if n > 0 {
      CutRetriesDeadLetterMore(c, gap, n - 1);
      var try := Cut(gap)(n - 1)(0);
      assert try.began == 0 && Seen(try) == Recovered && try.cut;
    }
  }

  lemma CutWaits(c: Config, gap: int)
    ensures AllTransient(Cut(gap)) && Waits(Cut(gap), gap, true, c)
  {
    forall m: nat, k: nat | k < MaxRetries(c)
      ensures Cut(gap)(m)(k + 1).began <= Cut(gap)(m)(k).ended + gap
    {
      assert (k + 1) * gap == k * gap + gap;
    }
  }

  /** Runs of transient failures with waits up to gap dead-letter at most
      floor(Failures / (MaxRetries + 1)) messages exactly when no wait outlasts the open time, there
      is at least one retry, and no wait is cut short. */
  lemma FewIffPromptRetries(gap: int, cuts: bool, c: Config)
    requires c.failures >= 1
    ensures AlwaysFew(gap, cuts, c) <==> gap <= OpenFor(c) && MaxRetries(c) >= 1 && !cuts
  {
    var each := MaxRetries(c) + 1;
    var few := c.failures / each;
    if gap <= OpenFor(c) && MaxRetries(c) >= 1 && !cuts {
      forall messages: nat -> nat -> Try, n: nat | AllTransient(messages) && Waits(messages, gap, cuts, c)
        ensures Run(Closed(0), messages, n, c).1 <= few
      {
        WaitsWithin(messages, gap, c);
        TransientFailuresDeadLetterFew(messages, n, c);
      }
    } else if gap > OpenFor(c) || MaxRetries(c) == 0 {
      SlowWaits(c, gap, cuts);
      SlowRetriesDeadLetterAll(c, few + 1);
      assert Run(Closed(0), Slow(c), few + 1, c).1 > few;
    } else {
      CutWaits(c, gap);
      Halved(few, each, c.failures);
      CutRetriesDeadLetterMore(c, gap, few + 1);
      assert Run(Closed(0), Cut(gap), few + 1, c).1 > few;
    }
  }

  lemma WaitsWithin(messages: nat -> nat -> Try, gap: int, c: Config)
    requires Waits(messages, gap, false, c) && gap <= OpenFor(c)
    ensures Waits(messages, OpenFor(c), false, c)
  {
    forall m: nat, k: nat | k < MaxRetries(c)
      ensures !messages(m)(k).cut && messages(m)(k + 1).began <= messages(m)(k).ended + OpenFor(c)
    {
      assert messages(m)(k + 1).began <= messages(m)(k).ended + gap;
    }
  }

  lemma Halved(q: nat, each: nat, f: nat)
    requires each >= 2 && f >= 1 && q == f / each
    ensures q < f
  {
  }

  /** Without a breaker every message of such a run is dead-lettered. */
  lemma {:induction false} DisabledBreakerDeadLettersAll(s: State, messages: nat -> nat -> Try, n: nat, c: Config)
    requires c.failures < 1 && AllTransient(messages)
    ensures Run(s, messages, n, c) == (s, n)
  {
    if n > 0 {
      DisabledBreakerDeadLettersAll(s, messages, n - 1, c);
      DisabledTries(s, messages, n - 1, 0, c);
    }
  }

  lemma {:induction false} DisabledTries(s: State, messages: nat -> nat -> Try, m: nat, k: nat, c: Config)
    requires c.failures < 1 && AllTransient(messages) && k <= MaxRetries(c)
    ensures var (t, r, n) := Retried(s, messages(m), k, c);
            t == s && ShouldRetry(r)
    decreases MaxRetries(c) - k
  {
    assert ShouldRetry(Seen(messages(m)(k)));
    if k < MaxRetries(c) {
      DisabledTries(s, messages, m, k + 1, c);
    }
  }

  // ---- Registration -----------------------------------------------------------------

  /** A registered handler copy: its own name, and the breaker and dedupe name it shares. */
  datatype Registered = Registered(name: string, breaker: CircuitBreaker, dedupe: string)

  lemma CopyNamesDiffer(name: string, i: int, j: int)
    requires i != j
    ensures name + "-" + CacheKeys.Decimal(i) != name + "-" + CacheKeys.Decimal(j)
  {
    var a, b := name + "-" + CacheKeys.Decimal(i), name + "-" + CacheKeys.Decimal(j);
    CacheKeys.DecimalReadsBack(i);
    CacheKeys.DecimalReadsBack(j);
    assert a[|name| + 1..] == CacheKeys.Decimal(i) && b[|name| + 1..] == CacheKeys.Decimal(j);
  }

  /** One handler copy per unit of concurrency: distinct names, one new breaker for all of them, and
      the consumer's own name as the dedupe key of each. */
  method AddConsumer(name: string, concurrency: int, c: Config)
    returns (copies: seq<Registered>, shared: CircuitBreaker)
    ensures fresh(shared) && shared.c == c && shared.state == Closed(0)
    ensures |copies| == if concurrency < 0 then 0 else concurrency
    ensures forall i :: 0 <= i < |copies| ==> copies[i].breaker == shared && copies[i].dedupe == name
    ensures forall i, j :: 0 <= i < j < |copies| ==> copies[i].name != copies[j].name
    ensures |copies| == 1 ==> copies[0].name == name
  {
    shared := new CircuitBreaker(c);
    copies := [];
    var i := 0;
    while i < concurrency
      invariant i == |copies| && i <= (if concurrency < 0 then 0 else concurrency) && shared.state == Closed(0)
      invariant forall k :: 0 <= k < i ==> copies[k].breaker == shared && copies[k].dedupe == name
      invariant forall k :: 0 <= k < i ==>
                  copies[k].name == if concurrency > 1 then name + "-" + CacheKeys.Decimal(k + 1) else name
    {
      var handlerName := name;
      if concurrency > 1 {
        handlerName := name + "-" + CacheKeys.Decimal(i + 1);
      }
      copies := copies + [Registered(handlerName, shared, name)];
      i := i + 1;
    }
    forall i, j | 0 <= i < j < |copies|
      ensures copies[i].name != copies[j].name
    {
      CopyNamesDiffer(name, i + 1, j + 1);
    }
  }
}
