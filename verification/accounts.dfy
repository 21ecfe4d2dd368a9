/**
 * `processUser` (run.mjs:354-419): fetch the profile and the completed-task history, group the
 * history by task type, then claim step by step what the plan of `Reconcile` says is missing.
 */
module Accounts {
  import opened Wrappers
  import opened RateLimit
  import opened Api
  import opened Claims
  import opened Reconcile

  /**
   * What the remote API answers to one account's requests, and the clock reading `new Date()`
   * gives while the account is processed. `claims(k)` answers the k-th claim the account makes.
   */
  datatype AccountInputs = AccountInputs(
    user: ReadyChannel<UserBody>,
    tasks: ReadyChannel<ListBody<CompletedTask>>,
    now: int,
    claims: nat -> ReadyChannel<ClaimBody>)

  /** The profile `fetchUser` yields for the account. */
  function ProfileOf(acct: AccountInputs): Option<Profile> {
    ProfileFrom(Fetched(acct.user))
  }

  /** The completed-task history `fetchUserTasks` yields for the account. */
  function HistoryOf(acct: AccountInputs): seq<CompletedTask> {
    ListFrom(Fetched(acct.tasks))
  }

  /** The claims `processUser` makes for the account. */
  function PlanFor(acct: AccountInputs, catalog: seq<TaskDef>, codes: seq<string>): (plan: seq<ClaimAction>)
    ensures |plan| <= 1 + |catalog| + |codes|
  {
    Plan(catalog, HistoryOf(acct), ProfileOf(acct), codes, acct.now)
  }

  /**
   * The `completedByType` map (run.mjs:362-366): a key per task type that has completed entries,
   * holding those entries in history order.
   */
  method GroupByType(userTasks: seq<CompletedTask>) returns (byType: map<string, seq<CompletedTask>>)
    ensures forall ty :: ty in byType <==> HasCompleted(userTasks, ty)
    ensures forall ty :: ty in byType ==> byType[ty] == EntriesOfType(userTasks, ty)
  {
    byType := map[];
    for i := 0 to |userTasks|
      invariant forall ty :: ty in byType <==> HasCompleted(userTasks[..i], ty)
      invariant forall ty :: ty in byType ==> byType[ty] == EntriesOfType(userTasks[..i], ty)
    {
      var t := userTasks[i];
      ghost var seen := userTasks[..i];
      assert userTasks[..i + 1] == seen + [t];
      forall ty
        ensures EntriesOfType(seen + [t], ty) == EntriesOfType(seen, ty) + (if t.taskType == ty then [t] else [])
        ensures HasCompleted(seen + [t], ty) <==> HasCompleted(seen, ty) || t.taskType == ty
      {
        EntriesOfTypeSnoc(seen, t, ty);
      }
      if t.taskType !in byType {
        byType := byType[t.taskType := []];
      }
      byType := byType[t.taskType := byType[t.taskType] + [t]];
    }
    assert userTasks[..|userTasks|] == userTasks;
  }

  /**
   * The payload a claim of the account `userId` POSTs: `claimTask(userId, taskType, taskName)`
   * or `claimGiftCode(userId, code)` (run.mjs:386, 406, 416).
   */
  function RequestOf(userId: string, action: ClaimAction): ClaimRequest {
    match action
    case TaskClaim(taskType, taskName) => TaskRequest(userId, taskType, taskName)
    case GiftClaim(code) => GiftRequest(userId, code)
  }

  /** The payload names the claim: two claims of one account never share a payload. */
  lemma RequestOfNamesClaim(userId: string, a: ClaimAction, b: ClaimAction)
    requires RequestOf(userId, a) == RequestOf(userId, b)
    ensures a == b
  {
  }

  /** The POSTs one claim sends: none in a dry run, otherwise its payload once per attempt. */
  function ClaimPosts(dryRun: bool, userId: string, action: ClaimAction, ch: ReadyChannel<ClaimBody>): seq<ClaimRequest> {
    if dryRun then [] else seq(AttemptsMade(ch), _ => RequestOf(userId, action))
  }

  /** The POSTs the claims `issued` send, the k-th claim on the k-th claim channel, in order. */
  function PostsOf(dryRun: bool, userId: string, issued: seq<ClaimAction>, claims: nat -> ReadyChannel<ClaimBody>)
    : (posts: seq<ClaimRequest>)
    ensures dryRun ==> posts == []
    ensures !dryRun ==> |issued| <= |posts|
    ensures |posts| <= MaxAttempts * |issued|
    ensures forall k :: 0 <= k < |posts| ==> posts[k].userId == userId
  {
    if issued == [] then []
    else
      var n := |issued| - 1;
      PostsOf(dryRun, userId, issued[..n], claims) + ClaimPosts(dryRun, userId, issued[n], claims(n))
  }

  /** One more claim appends its own POSTs after those of the claims before it. */
  lemma PostsOfSnoc(dryRun: bool, userId: string, issued: seq<ClaimAction>, a: ClaimAction,
                    claims: nat -> ReadyChannel<ClaimBody>)
    ensures PostsOf(dryRun, userId, issued + [a], claims)
         == PostsOf(dryRun, userId, issued, claims) + ClaimPosts(dryRun, userId, a, claims(|issued|))
  {
    assert (issued + [a])[..|issued|] == issued;
  }

  /**
   * Outside a dry run every claim is POSTed, and every POST carries the payload of one of the
   * claims: nothing is sent that the claims do not name.
   */
  lemma {:induction false} PostsOfClaims(dryRun: bool, userId: string, issued: seq<ClaimAction>,
                                         claims: nat -> ReadyChannel<ClaimBody>)
    ensures !dryRun ==> forall k :: 0 <= k < |issued| ==> RequestOf(userId, issued[k]) in PostsOf(dryRun, userId, issued, claims)
    ensures forall r :: r in PostsOf(dryRun, userId, issued, claims) ==>
      exists k :: 0 <= k < |issued| && r == RequestOf(userId, issued[k])
  {
    if issued != [] {
      var n := |issued| - 1;
      var front := issued[..n];
      PostsOfClaims(dryRun, userId, front, claims);
      var last := ClaimPosts(dryRun, userId, issued[n], claims(n));
      assert PostsOf(dryRun, userId, issued, claims) == PostsOf(dryRun, userId, front, claims) + last;
      assert forall k :: 0 <= k < n ==> front[k] == issued[k];
      if !dryRun {
        assert last[0] == RequestOf(userId, issued[n]);
      }
    }
  }

  /** One claim, dispatched to `claimTask` or `claimGiftCode`. */
  method Execute(dryRun: bool, userId: string, action: ClaimAction, ch: ReadyChannel<ClaimBody>)
    returns (result: ClaimResult, sent: seq<ClaimRequest>)
    ensures result == ExpectedClaim(dryRun, ch)
    ensures sent == ClaimPosts(dryRun, userId, action, ch)
    ensures dryRun ==> sent == []
    ensures !dryRun ==> 1 <= |sent| <= MaxAttempts
    ensures forall k :: 0 <= k < |sent| ==> sent[k].userId == userId
  {
    match action
    case TaskClaim(taskType, taskName) =>
      var sleeps;
      result, sent, sleeps := ClaimTask(dryRun, userId, taskType, taskName, ch);
    case GiftClaim(code) =>
      var sleeps;
      result, sent, sleeps := ClaimGiftCode(dryRun, userId, code, ch);
  }

  /** The claims made so far for one account, their results and the POSTs they sent. */
  datatype Progress = Progress(issued: seq<ClaimAction>, results: seq<ClaimResult>, sent: seq<ClaimRequest>)

  /**
   * `p` is what making the claims `p.issued` produced: the k-th result belongs to the k-th claim
   * channel, and the POSTs are those of the claims, in order.
   */
  predicate Tracks(p: Progress, dryRun: bool, userId: string, claims: nat -> ReadyChannel<ClaimBody>) {
    |p.results| == |p.issued|
    && (forall k :: 0 <= k < |p.issued| ==> p.results[k] == ExpectedClaim(dryRun, claims(k)))
    && p.sent == PostsOf(dryRun, userId, p.issued, claims)
  }

  /** Make one more claim, on the next claim channel. */
  method Issue(dryRun: bool, userId: string, action: ClaimAction, claims: nat -> ReadyChannel<ClaimBody>, p: Progress)
    returns (q: Progress)
    requires Tracks(p, dryRun, userId, claims)
    ensures q.issued == p.issued + [action]
    ensures Tracks(q, dryRun, userId, claims)
  {
    var r, s := Execute(dryRun, userId, action, claims(|p.issued|));
    PostsOfSnoc(dryRun, userId, p.issued, action, claims);
    q := Progress(p.issued + [action], p.results + [r], p.sent + s);
  }

  /** The daily check-in step (run.mjs:368-387). */
  method ClaimDailyStep(dryRun: bool, userId: string, byType: map<string, seq<CompletedTask>>,
                        ghost userTasks: seq<CompletedTask>, now: int, claims: nat -> ReadyChannel<ClaimBody>)
    returns (p: Progress)
    requires forall ty :: ty in byType <==> HasCompleted(userTasks, ty)
    requires forall ty :: ty in byType ==> byType[ty] == EntriesOfType(userTasks, ty)
    ensures p.issued == DailyPart(userTasks, now)
    ensures Tracks(p, dryRun, userId, claims)
  {
    var dailyArr := if DailyCheckin in byType then byType[DailyCheckin] else [];
    var alreadyDailyToday := false;
    if |dailyArr| > 0 {
      var latest := Latest(dailyArr);
      if IsSameUtcDate(latest.completedAt, now) {
        alreadyDailyToday := true;
      }
    }
    assert alreadyDailyToday == ClaimedToday(userTasks, now);
    p := Progress([], [], []);
    if !alreadyDailyToday {
      p := Issue(dryRun, userId, DailyClaim, claims, p);
    }
  }

  /**
   * The i-th catalog task (run.mjs:391-406): claimed unless it is the daily check-in or already
   * completed, so that the claims issued since `p0` are the catalog part of the first `i + 1` tasks.
   */
  method ClaimTaskStep(dryRun: bool, userId: string, activeTasks: seq<TaskDef>, i: nat,
                       byType: map<string, seq<CompletedTask>>, ghost userTasks: seq<CompletedTask>,
                       claims: nat -> ReadyChannel<ClaimBody>, ghost p0: Progress, p: Progress)
    returns (q: Progress)
    requires i < |activeTasks|
    requires forall ty :: ty in byType <==> HasCompleted(userTasks, ty)
    requires p.issued == p0.issued + TaskPart(activeTasks[..i], userTasks)
    requires Tracks(p, dryRun, userId, claims)
    ensures q.issued == p0.issued + TaskPart(activeTasks[..i + 1], userTasks)
    ensures Tracks(q, dryRun, userId, claims)
  {
    var t := activeTasks[i];
    var taskName := DisplayName(t);
    TaskPartSnoc(activeTasks, i, userTasks);
    if t.taskType != DailyCheckin && t.taskType !in byType {
      q := Issue(dryRun, userId, TaskClaim(t.taskType, taskName), claims, p);
    } else {
      q := p;
    }
  }

  /** The loop over the catalog (run.mjs:390-407). */
  method ClaimTasksStep(dryRun: bool, userId: string, activeTasks: seq<TaskDef>,
                        byType: map<string, seq<CompletedTask>>, ghost userTasks: seq<CompletedTask>,
                        claims: nat -> ReadyChannel<ClaimBody>, p0: Progress)
    returns (p: Progress)
    requires forall ty :: ty in byType <==> HasCompleted(userTasks, ty)
    requires Tracks(p0, dryRun, userId, claims)
    ensures p.issued == p0.issued + TaskPart(activeTasks, userTasks)
    ensures Tracks(p, dryRun, userId, claims)
  {
    p := p0;
    for i := 0 to |activeTasks|
      invariant p.issued == p0.issued + TaskPart(activeTasks[..i], userTasks)
      invariant Tracks(p, dryRun, userId, claims)
    {
      p := ClaimTaskStep(dryRun, userId, activeTasks, i, byType, userTasks, claims, p0, p);
    }
    assert activeTasks[..|activeTasks|] == activeTasks;
  }

  /**
   * The j-th gift code (run.mjs:412-417): claimed unless the profile already records it, so that
   * the claims issued since `p0` are the gift part of the first `j + 1` codes.
   */
  method ClaimGiftStep(dryRun: bool, userId: string, giftCodes: seq<string>, j: nat, userInfo: Option<Profile>,
                       claims: nat -> ReadyChannel<ClaimBody>, ghost p0: Progress, p: Progress)
    returns (q: Progress)
    requires j < |giftCodes|
    requires p.issued == p0.issued + GiftPart(giftCodes[..j], userInfo)
    requires Tracks(p, dryRun, userId, claims)
    ensures q.issued == p0.issued + GiftPart(giftCodes[..j + 1], userInfo)
    ensures Tracks(q, dryRun, userId, claims)
  {
    var code := giftCodes[j];
    GiftPartSnoc(giftCodes, j, userInfo);
    if !HasClaimedGiftCode(userInfo, code) {
      q := Issue(dryRun, userId, GiftClaim(code), claims, p);
    } else {
      q := p;
    }
  }

  /** The loop over the configured gift codes (run.mjs:410-419). */
  method ClaimGiftsStep(dryRun: bool, userId: string, giftCodes: seq<string>, userInfo: Option<Profile>,
                        claims: nat -> ReadyChannel<ClaimBody>, p0: Progress)
    returns (p: Progress)
    requires Tracks(p0, dryRun, userId, claims)
    ensures p.issued == p0.issued + GiftPart(giftCodes, userInfo)
    ensures Tracks(p, dryRun, userId, claims)
  {
    p := p0;
    for j := 0 to |giftCodes|
      invariant p.issued == p0.issued + GiftPart(giftCodes[..j], userInfo)
      invariant Tracks(p, dryRun, userId, claims)
    {
      p := ClaimGiftStep(dryRun, userId, giftCodes, j, userInfo, claims, p0, p);
    }
    assert giftCodes[..|giftCodes|] == giftCodes;
  }

  /**
   * `processUser` (run.mjs:354-419) up to the post-claim summary: the claims it makes are those
   * of the plan, in the plan's order; the k-th claim's result is what the retry policy makes of
   * the k-th claim channel (or a dry-run skip); the POSTs are those of the plan's claims, each
   * claim's own payload once per attempt, and a dry run sends none.
   */
  method ProcessUser(dryRun: bool, userId: string, activeTasks: seq<TaskDef>, giftCodes: seq<string>, acct: AccountInputs)
    returns (issued: seq<ClaimAction>, results: seq<ClaimResult>, sent: seq<ClaimRequest>)
    ensures issued == PlanFor(acct, activeTasks, giftCodes)
    ensures |results| == |issued| && forall k :: 0 <= k < |issued| ==> results[k] == ExpectedClaim(dryRun, acct.claims(k))
    ensures sent == PostsOf(dryRun, userId, issued, acct.claims)
    ensures dryRun ==> sent == []
    ensures !dryRun ==> |issued| <= |sent|
    ensures |sent| <= MaxAttempts * |issued|
    ensures forall k :: 0 <= k < |sent| ==> sent[k].userId == userId
  {
    var userRes, userAttempts, userSleeps := FetchWith429Retry(acct.user);
    var userInfoBefore := ProfileFrom(userRes);
    var tasksRes, tasksAttempts, tasksSleeps := FetchWith429Retry(acct.tasks);
    var userTasks := ListFrom(tasksRes);
    var completedByType := GroupByType(userTasks);

    var p := ClaimDailyStep(dryRun, userId, completedByType, userTasks, acct.now, acct.claims);
    p := ClaimTasksStep(dryRun, userId, activeTasks, completedByType, userTasks, acct.claims, p);
    p := ClaimGiftsStep(dryRun, userId, giftCodes, userInfoBefore, acct.claims, p);
    issued, results, sent := p.issued, p.results, p.sent;
  }
}
