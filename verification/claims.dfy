/**
 * `claimTask` and `claimGiftCode` (run.mjs:175-338): a dry run issues no request; otherwise a
 * POST under the 429 retry policy whose outcome is classified by the HTTP status alone.
 */
module Claims {
  import opened Wrappers
  import opened RateLimit

  /**
   * The body of a claim response. `NotAnObject` stands for a falsy or non-object `res.data`;
   * `reward` and `newBalance` are `None` when missing or null, `message` when it is not a string.
   */
  datatype ClaimBody =
    | NotAnObject
    | Fields(success: bool, reward: Option<string>, newBalance: Option<string>, message: Option<string>)

  /** Why a claim failed without a usable response. */
  datatype ClaimError = ErrorResponse | NetworkFailure | TooManyRetries

  /** What a claim returns. */
  datatype ClaimResult =
    | DryRunSkipped                          // { ok: true, dryRun: true }
    | Answered(status: int, data: ClaimBody) // { ok, status, data: body }
    | Failed(status: int, error: ClaimError) // { ok: false, status, error }
  {
    /** The `ok` field. */
    predicate Ok() {
      DryRunSkipped? || (Answered? && 200 <= status < 300)
    }
  }

  /** A POST payload. */
  datatype ClaimRequest =
    | TaskRequest(userId: string, taskType: string, taskName: string)
    | GiftRequest(userId: string, code: string)

  /** The values a claim logs for reward, new balance and message. */
  datatype ClaimSummary = ClaimSummary(reward: string, newBalance: string, message: string)

  /** `(res.data && typeof res.data === 'object') ? res.data : {}`. */
  function NormalizedBody(b: ClaimBody): (r: ClaimBody)
    ensures r.Fields?
    ensures b.Fields? ==> r == b
    ensures b.NotAnObject? ==> r.reward.None? && r.newBalance.None? && r.message.None?
  {
    match b
    case NotAnObject => Fields(false, None, None, None)
    case Fields(_, _, _, _) => b
  }

  /**
   * The logged fields (run.mjs:214-217, 295-298): a missing reward or balance shows as "?", a
   * message that is not a string as "".
   */
  function Summary(b: ClaimBody): (s: ClaimSummary)
    ensures s.reward == (if b.Fields? && b.reward.Some? then b.reward.value else "?")
    ensures s.newBalance == (if b.Fields? && b.newBalance.Some? then b.newBalance.value else "?")
    ensures s.message == (if b.Fields? && b.message.Some? then b.message.value else "")
  {
    var body := NormalizedBody(b);
    ClaimSummary(body.reward.GetOr("?"), body.newBalance.GetOr("?"), body.message.GetOr(""))
  }

  /**
   * The result a claim reaches once its retry loop has ended (run.mjs:214-254, 295-337).
   */
  function ClaimOutcome(outcome: RetryOutcome<ClaimBody>): (r: ClaimResult)
    ensures !r.DryRunSkipped?
    ensures r.Ok() <==> outcome.Settled? && outcome.last.Replied? && 200 <= outcome.last.response.status < 300
    ensures outcome.Exhausted? ==> r == Failed(429, TooManyRetries)
    ensures outcome.Settled? && outcome.last.Replied? ==> r.Answered? && r.status == outcome.last.response.status
    ensures outcome.Settled? && outcome.last.ErrWithResponse? ==> r == Failed(outcome.last.status, ErrorResponse)
    ensures outcome.Settled? && outcome.last.NetworkErr? ==> r == Failed(0, NetworkFailure)
  {
    match outcome
    case Exhausted => Failed(429, TooManyRetries)
    case Settled(Replied(res)) => Answered(res.status, NormalizedBody(res.body))
    case Settled(ErrWithResponse(status)) => Failed(status, ErrorResponse)
    case Settled(NetworkErr) => Failed(0, NetworkFailure)
  }

  /** The result of one claim: a dry-run skip, or the classified outcome of the retry policy on `ch`. */
  function ExpectedClaim(dryRun: bool, ch: Channel<ClaimBody>): ClaimResult
    requires !dryRun ==> ch.Ready()
  {
    if dryRun then DryRunSkipped else ClaimOutcome(RetryResult(ch))
  }

  /** The POST loop shared by both claims: the same payload on every attempt. */
  method PostWithRetry(request: ClaimRequest, ch: Channel<ClaimBody>)
    returns (result: ClaimResult, sent: seq<ClaimRequest>, sleeps: seq<nat>)
    requires ch.Ready()
    ensures 1 <= |sent| <= MaxAttempts && |sent| == AttemptsMade(ch)
    ensures forall k :: 0 <= k < |sent| ==> sent[k] == request
    ensures result == ClaimOutcome(RetryResult(ch)) && sleeps == SleepsTaken(ch)
  {
    var outcome, attempts;
    outcome, attempts, sleeps := SendWithRetry(ch);
    sent := seq(attempts, _ => request);
    result := ClaimOutcome(outcome);
  }

  /**
   * `claimTask` (run.mjs:175-255): in a dry run nothing is sent and the result is
   * `{ ok: true, dryRun: true }`; otherwise one to five POSTs of the same payload.
   */
  method ClaimTask(dryRun: bool, userId: string, taskType: string, taskName: string, ch: Channel<ClaimBody>)
    returns (result: ClaimResult, sent: seq<ClaimRequest>, sleeps: seq<nat>)
    requires !dryRun ==> ch.Ready()
    ensures dryRun ==> result == DryRunSkipped && sent == [] && sleeps == []
    ensures !dryRun ==> 1 <= |sent| <= MaxAttempts && |sent| == AttemptsMade(ch) && sleeps == SleepsTaken(ch)
    ensures forall k :: 0 <= k < |sent| ==> sent[k] == TaskRequest(userId, taskType, taskName)
    ensures result == ExpectedClaim(dryRun, ch)
  {
    if dryRun {
      return DryRunSkipped, [], [];
    }
    result, sent, sleeps := PostWithRetry(TaskRequest(userId, taskType, taskName), ch);
  }

  /**
   * `claimGiftCode` (run.mjs:258-338): the same policy as `claimTask` with the payload
   * `{ userId, code }`.
   */
  method ClaimGiftCode(dryRun: bool, userId: string, code: string, ch: Channel<ClaimBody>)
    returns (result: ClaimResult, sent: seq<ClaimRequest>, sleeps: seq<nat>)
    requires !dryRun ==> ch.Ready()
    ensures dryRun ==> result == DryRunSkipped && sent == [] && sleeps == []
    ensures !dryRun ==> 1 <= |sent| <= MaxAttempts && |sent| == AttemptsMade(ch) && sleeps == SleepsTaken(ch)
    ensures forall k :: 0 <= k < |sent| ==> sent[k] == GiftRequest(userId, code)
    ensures result == ExpectedClaim(dryRun, ch)
  {
    if dryRun {
      return DryRunSkipped, [], [];
    }
    result, sent, sleeps := PostWithRetry(GiftRequest(userId, code), ch);
  }

  /**
   * A claim succeeds exactly when, within five attempts, the first reply that is not a 429 is a
   * response with a 2xx status.
   */
  lemma {:induction false} ClaimOkIff(ch: Channel<ClaimBody>)
    requires ch.Ready()
    ensures ClaimOutcome(RetryResult(ch)).Ok() <==>
      exists k :: 0 <= k < MaxAttempts && (forall i :: 0 <= i < k ==> ch.replies[i].IsRateLimited())
        && ch.replies[k].Replied? && 200 <= ch.replies[k].response.status < 300
  {
    var n := LeadingRateLimited(ch.replies, MaxAttempts);
    if ClaimOutcome(RetryResult(ch)).Ok() {
      assert n < MaxAttempts && ch.replies[n].Replied?;
    } else {
      forall k | 0 <= k < MaxAttempts && (forall i :: 0 <= i < k ==> ch.replies[i].IsRateLimited())
        ensures !(ch.replies[k].Replied? && 200 <= ch.replies[k].response.status < 300)
      {
        if k < n {
          assert ch.replies[k].IsRateLimited();
        }
      }
    }
  }

  /**
   * Only the HTTP status decides `ok`: the body's `success` flag is never consulted, so a 2xx
   * response with `success: false` still counts as claimed.
   */
  lemma {:induction false} OkIgnoresSuccessFlag(status: int, b: ClaimBody, flag: bool)
    requires b.Fields?
    ensures ClaimOutcome(Settled(Replied(Response(status, b)))).Ok() ==
            ClaimOutcome(Settled(Replied(Response(status, b.(success := flag))))).Ok()
  {
  }
}
