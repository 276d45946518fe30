/** An idempotent handler behind the retry chain. Each try is one call of Once: a transaction that
    claims the message and runs the handler in it. The handler is given the message with the
    transaction's context, and the retry loop hands the same message to the next try. */
module Handling {
  import opened Consumer

  /** The dedupe insert: it fails, finds the message handled, or claims it. */
  datatype Claim = ClaimFails | AlreadyHandled | Claimed

  /** What a try meets when its transaction opens: the claim, the handler's run and the commit. */
  datatype Attempt = Attempt(
    claim: Claim, panics: bool, result: Result, commits: bool, began: int, ended: int, cut: bool)

  const DatabaseError: Result := Err(false, false)

  /** The handler runs, so the message now carries this transaction's context. */
  predicate Runs(a: Attempt) { a.claim.Claimed? }

  /** Once, in a transaction of its own. */
  function Once(a: Attempt): Try
  {
    var committed := if a.commits then Ok else DatabaseError;
    match a.claim
    case ClaimFails => Try(false, DatabaseError, a.began, a.ended, a.cut)
    case AlreadyHandled => Try(false, committed, a.began, a.ended, a.cut)
    case Claimed => Try(a.panics, if a.result.Ok? then committed else a.result, a.began, a.ended, a.cut)
  }

  /** An earlier try ran the handler: the message carries the context of a finished transaction. */
  predicate Spent(attempts: nat -> Attempt, k: nat) { exists j: nat :: j < k && Runs(attempts(j)) }

  /** The tries of one delivery. On a finished transaction the savepoint of Once is refused, before
      the claim and before the handler. */
  function Tries(attempts: nat -> Attempt): nat -> Try
  {
    (k: nat) =>
      if Spent(attempts, k) then Try(false, DatabaseError, attempts(k).began, attempts(k).ended, attempts(k).cut)
      else Once(attempts(k))
  }

  /** A delivery is acked exactly when its last try was let through, succeeded, and no try before it
      had run the handler. So a retry succeeds only after tries that never reached the handler, and
      the handler runs at most once in a delivery. */
  lemma AckedIffFirstRunSucceeds(s: State, attempts: nat -> Attempt, c: Config, published: bool) returns (before: State)
    ensures var (t, r, n) := Retried(s, Tries(attempts), 0, c);
            && (t, r) == Call(before, Tries(attempts)(n), c)
            && (Verdict(r, published).Acked? <==>
                  && Admits(before, Tries(attempts)(n), c) && Seen(Once(attempts(n))).Ok?
                  && forall j: nat :: j < n ==> !Runs(attempts(j)))
  {
    var tries := Tries(attempts);
    before := LastCall(s, tries, 0, c);
    var n := Retried(s, tries, 0, c).2;
    if Spent(attempts, n) {
      var j: nat :| j < n && Runs(attempts(j));
    }
  }

  /** Every later try of a delivery whose handler ran and failed is refused by the finished
      transaction, whatever the handler would have answered. */
  lemma RetriesNeverRunAgain(attempts: nat -> Attempt, j: nat, k: nat)
    requires Runs(attempts(j)) && j < k
    ensures Seen(Tries(attempts)(k)) == DatabaseError
  {
    assert Spent(attempts, k);
  }

  /** A handler that fails once in a way a retry could fix loses its message: from a breaker with
      room for the tries, the delivery uses every retry and is dead-lettered, even where each retry
      would have succeeded. */
  lemma OneTransientFailureIsFatal(n: nat, attempts: nat -> Attempt, c: Config)
    requires Runs(attempts(0)) && ShouldRetry(Seen(Once(attempts(0)))) && n + MaxRetries(c) + 1 <= c.failures
    requires forall k: nat :: k < MaxRetries(c) ==> !attempts(k).cut
    ensures var (_, r, last) := Retried(Closed(n), Tries(attempts), 0, c);
            last == MaxRetries(c) && Verdict(r, true) == DeadLettered
  {
    var messages := (m: nat) => Tries(attempts);
    forall k: nat ensures ShouldRetry(Seen(Tries(attempts)(k))) && Tries(attempts)(k).cut == attempts(k).cut {
      if k > 0 {
        RetriesNeverRunAgain(attempts, 0, k);
      }
    }
    assert AllTransient(messages) && NoCuts(messages, c);
    TriesUnderLimit(n, messages, 0, 0, c);
    assert messages(0) == Tries(attempts);
  }

  /** With the breaker disabled it is the same for every delivery. */
  lemma OneTransientFailureIsFatalUnguarded(s: State, attempts: nat -> Attempt, c: Config)
    requires Runs(attempts(0)) && ShouldRetry(Seen(Once(attempts(0)))) && c.failures < 1
    ensures Verdict(Retried(s, Tries(attempts), 0, c).1, true) == DeadLettered
  {
    var before := AckedIffFirstRunSucceeds(s, attempts, c, true);
    var (t, r, n) := Retried(s, Tries(attempts), 0, c);
    if n > 0 {
      RetriesNeverRunAgain(attempts, 0, n);
    }
  }
}
