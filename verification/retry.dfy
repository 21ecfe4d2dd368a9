/**
 * The bounded 429 retry policy that run.mjs writes out three times (`fetchWith429Retry`,
 * `claimTask`, `claimGiftCode`): at most five attempts, and after each rate-limited attempt a
 * sleep of `1000 + Math.floor(Math.random() * 2000)` ms whose window does not grow.
 * Requests are not sent: the reply to each attempt comes from a `Channel`.
 */
module RateLimit {
  import opened Wrappers
  import opened Random

  const MaxAttempts: nat := 5
  const BackoffBaseMs: nat := 1000
  const BackoffJitterMs: nat := 2000

  /** A response axios resolved with (every status is accepted: `validateStatus: () => true`). */
  datatype Response<B> = Response(status: int, body: B)

  /** What one attempt comes back with. */
  datatype Attempt<B> =
    | Replied(response: Response<B>)  // the request resolved
    | ErrWithResponse(status: int)    // the request threw an error carrying `err.response`
    | NetworkErr                      // the request threw an error without a response
  {
    /** A 429 status, or a thrown error whose `response.status` is 429. */
    predicate IsRateLimited() {
      (Replied? && response.status == 429) || (ErrWithResponse? && status == 429)
    }
  }

  /**
   * The replies the remote API gives to the successive attempts of one request, and the
   * `Math.random()` values drawn for the successive backoff sleeps.
   */
  datatype Channel<B> = Channel(replies: seq<Attempt<B>>, draws: seq<UnitDraw>) {
    predicate Ready() {
      |replies| >= MaxAttempts && |draws| >= MaxAttempts
    }
  }

  /** A channel with replies and draws for all five attempts. */
  type ReadyChannel<B> = ch: Channel<B> | ch.Ready()
    witness Channel([NetworkErr, NetworkErr, NetworkErr, NetworkErr, NetworkErr],
                    [Draw(0, 1), Draw(0, 1), Draw(0, 1), Draw(0, 1), Draw(0, 1)])

  /** How the retry loop ends: with the first attempt that is not rate-limited, or exhausted. */
  datatype RetryOutcome<B> = Settled(last: Attempt<B>) | Exhausted

  /** The sleep after a rate-limited attempt; it depends on the draw only, never on the attempt number. */
  function Backoff(r: UnitDraw): (ms: nat)
    ensures BackoffBaseMs <= ms < BackoffBaseMs + BackoffJitterMs
  {
    BackoffBaseMs + Scale(r, BackoffJitterMs)
  }

  /** The number of rate-limited replies that open `replies`, counting no further than `limit`. */
  function LeadingRateLimited<B>(replies: seq<Attempt<B>>, limit: nat): (n: nat)
    ensures n <= limit && n <= |replies|
    ensures forall i :: 0 <= i < n ==> replies[i].IsRateLimited()
    ensures n < limit && n < |replies| ==> !replies[n].IsRateLimited()
  {
    if limit == 0 || |replies| == 0 || !replies[0].IsRateLimited() then 0
    else 1 + LeadingRateLimited(replies[1..], limit - 1)
  }

  /** The outcome the retry policy reaches on `ch`. */
  function RetryResult<B>(ch: Channel<B>): RetryOutcome<B>
    requires ch.Ready()
  {
    var n := LeadingRateLimited(ch.replies, MaxAttempts);
    if n == MaxAttempts then Exhausted else Settled(ch.replies[n])
  }

  /** The number of requests the retry policy sends on `ch`. */
  function AttemptsMade<B>(ch: Channel<B>): nat
    requires ch.Ready()
  {
    var n := LeadingRateLimited(ch.replies, MaxAttempts);
    if n == MaxAttempts then MaxAttempts else n + 1
  }

  /** The sleeps the retry policy takes on `ch`: one per rate-limited attempt, the last one included. */
  function SleepsTaken<B>(ch: Channel<B>): seq<nat>
    requires ch.Ready()
  {
    var n := LeadingRateLimited(ch.replies, MaxAttempts);
    seq(n, i requires 0 <= i < n => Backoff(ch.draws[i]))
  }

  /**
   * One request under the retry policy (run.mjs:60-96, and the loops of 186-254 and 267-337).
   * Every rate-limited attempt sleeps and tries again, up to five attempts in all; the first
   * attempt that is not rate-limited ends the loop with no further request; five rate-limited
   * attempts end it with `Exhausted`, a value rather than an exception.
   */
  method SendWithRetry<B>(ch: Channel<B>) returns (outcome: RetryOutcome<B>, attempts: nat, sleeps: seq<nat>)
    requires ch.Ready()
    ensures 1 <= attempts <= MaxAttempts
    ensures forall i :: 0 <= i < attempts - 1 ==> ch.replies[i].IsRateLimited()
    ensures outcome.Settled? ==> outcome.last == ch.replies[attempts - 1] && !outcome.last.IsRateLimited()
    ensures outcome.Exhausted? <==> forall i :: 0 <= i < MaxAttempts ==> ch.replies[i].IsRateLimited()
    ensures outcome.Exhausted? ==> attempts == MaxAttempts
    ensures |sleeps| == (if outcome.Exhausted? then attempts else attempts - 1)
    ensures forall i :: 0 <= i < |sleeps| ==> sleeps[i] == Backoff(ch.draws[i])
    ensures outcome == RetryResult(ch) && attempts == AttemptsMade(ch) && sleeps == SleepsTaken(ch)
  {
    attempts := 0;
    sleeps := [];
    while attempts < MaxAttempts
      invariant 0 <= attempts <= MaxAttempts
      invariant forall i :: 0 <= i < attempts ==> ch.replies[i].IsRateLimited()
      invariant |sleeps| == attempts
      invariant forall i :: 0 <= i < attempts ==> sleeps[i] == Backoff(ch.draws[i])
    {
      var reply := ch.replies[attempts];
      attempts := attempts + 1;
      if reply.IsRateLimited() {
        sleeps := sleeps + [Backoff(ch.draws[attempts - 1])];
        continue;
      }
      outcome := Settled(reply);
      return;
    }
    outcome := Exhausted;
  }

  /** What `fetchWith429Retry` hands back: the response, or `null`. */
  function ResponseOf<B>(outcome: RetryOutcome<B>): Option<Response<B>> {
    match outcome
    case Settled(Replied(res)) => Some(res)
    case _ => None
  }

  /** The result of the GET helper on `ch`. */
  function Fetched<B>(ch: Channel<B>): Option<Response<B>>
    requires ch.Ready()
  {
    ResponseOf(RetryResult(ch))
  }

  /**
   * `fetchWith429Retry` (run.mjs:60-96): the first response that is not a 429 is returned as it
   * is, whatever its status; a thrown error that is not a 429 gives `null` at once, and so do
   * five rate-limited attempts.
   */
  method FetchWith429Retry<B>(ch: Channel<B>) returns (res: Option<Response<B>>, attempts: nat, sleeps: seq<nat>)
    requires ch.Ready()
    ensures 1 <= attempts <= MaxAttempts
    ensures res.Some? <==> exists k :: 0 <= k < attempts && ch.replies[k].Replied? && !ch.replies[k].IsRateLimited()
    ensures res.Some? ==> ch.replies[attempts - 1] == Replied(res.value) && res.value.status != 429
    ensures res == Fetched(ch) && attempts == AttemptsMade(ch) && sleeps == SleepsTaken(ch)
  {
    var outcome;
    outcome, attempts, sleeps := SendWithRetry(ch);
    res := ResponseOf(outcome);
  }

  /**
   * The retry policy reads nothing past the attempt that ends it: two channels that agree on the
   * replies up to that attempt reach the same outcome, send as many requests and sleep alike.
   */
  lemma {:induction false} RetryIgnoresLaterReplies<B>(ch: Channel<B>, other: Channel<B>)
    requires ch.Ready() && other.Ready()
    requires other.replies[..AttemptsMade(ch)] == ch.replies[..AttemptsMade(ch)]
    requires other.draws[..MaxAttempts] == ch.draws[..MaxAttempts]
    ensures RetryResult(other) == RetryResult(ch)
    ensures AttemptsMade(other) == AttemptsMade(ch)
    ensures SleepsTaken(other) == SleepsTaken(ch)
  {
    var n := LeadingRateLimited(ch.replies, MaxAttempts);
    var m := LeadingRateLimited(other.replies, MaxAttempts);
    var k := AttemptsMade(ch);
    forall i | 0 <= i < k
      ensures other.replies[i] == ch.replies[i]
    {
      assert other.replies[..k][i] == ch.replies[..k][i];
    }
    forall i | 0 <= i < n
      ensures other.draws[i] == ch.draws[i]
    {
      assert other.draws[..MaxAttempts][i] == ch.draws[..MaxAttempts][i];
    }
  }

  /** Exhaustion takes five requests and five sleeps, each within [1000, 2999] ms. */
  lemma ExhaustionCost<B>(ch: Channel<B>)
    requires ch.Ready() && RetryResult(ch).Exhausted?
    ensures AttemptsMade(ch) == MaxAttempts
    ensures |SleepsTaken(ch)| == MaxAttempts
    ensures forall i :: 0 <= i < MaxAttempts ==> 1000 <= SleepsTaken(ch)[i] <= 2999
  {
  }
}
