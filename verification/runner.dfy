/**
 * One full run over every account (`runOnce`, run.mjs:435-488) and the repeating loop around it
 * (`mainLoop`, run.mjs:492-514), for a bounded number of runs.
 */
module Runner {
  import opened Wrappers
  import opened Random
  import opened RateLimit
  import opened Api
  import opened Claims
  import opened Reconcile
  import opened Accounts
  import Text

  /** The settings run.mjs reads from its environment (run.mjs:10-16). */
  datatype Config = Config(
    baseSleepMs: nat,     // BASE_SLEEP_MS
    jitterMs: nat,        // JITTER_MS
    dryRun: bool,         // DRY_RUN == '1'
    loopIntervalMs: nat,  // LOOP_INTERVAL_MS
    codeSetting: string)  // CODE

  /** The cooldown between two accounts: `BASE_SLEEP_MS + Math.floor(Math.random() * JITTER_MS)`. */
  function Cooldown(cfg: Config, r: UnitDraw): (ms: nat)
    ensures cfg.baseSleepMs <= ms
    ensures cfg.jitterMs == 0 ==> ms == cfg.baseSleepMs
    ensures cfg.jitterMs > 0 ==> ms < cfg.baseSleepMs + cfg.jitterMs
  {
    cfg.baseSleepMs + Scale(r, cfg.jitterMs)
  }

  /** The catalog entry run.mjs adds when the active catalog has no daily check-in (run.mjs:447-455). */
  const ManualDaily: TaskDef :=
    TaskDef("manual-daily", DailyCheckin, "Daily Check-in", "", "Daily check-in reward", 5, "Internal", true)

  /** `activeTasks.some((t) => t.taskType === 'daily_checkin')`. */
  predicate HasDailyEntry(tasks: seq<TaskDef>) {
    exists t :: t in tasks && t.taskType == DailyCheckin
  }

  /**
   * The catalog after run.mjs:445-456: it holds a daily check-in; the fetched entries are all
   * still there, unchanged and in order, after at most one entry put in front, which is added
   * exactly when the fetched catalog had no daily check-in.
   */
  function WithDailyCheckin(tasks: seq<TaskDef>): (effective: seq<TaskDef>)
    ensures HasDailyEntry(effective)
    ensures |tasks| <= |effective| <= |tasks| + 1
    ensures effective[|effective| - |tasks|..] == tasks
    ensures |effective| == |tasks| <==> HasDailyEntry(tasks)
  {
    if HasDailyEntry(tasks) then tasks
    else
      assert ManualDaily in [ManualDaily] + tasks;
      [ManualDaily] + tasks
  }

  /**
   * The synthesized entry never changes what is claimed: `processUser` skips catalog entries of
   * type `daily_checkin` and decides the daily check-in on its own.
   */
  lemma {:induction false} SynthesisNeverChangesPlan(catalog: seq<TaskDef>, completed: seq<CompletedTask>,
                                                     profile: Option<Profile>, codes: seq<string>, now: int)
    ensures Plan(WithDailyCheckin(catalog), completed, profile, codes, now) == Plan(catalog, completed, profile, codes, now)
  {
    if !HasDailyEntry(catalog) {
      TaskPartAppend([ManualDaily], catalog, completed);
      assert TaskPart([ManualDaily], completed) == [];
      assert TaskPart(WithDailyCheckin(catalog), completed) == TaskPart(catalog, completed);
    }
  }

  /**
   * What one run reads: the replies to the catalog request, the lines of the users file (`None`
   * when it cannot be read), what the API answers for the k-th account, and the k-th cooldown's
   * draw.
   */
  datatype PassInputs = PassInputs(
    catalog: ReadyChannel<ListBody<TaskDef>>,
    usersFile: Option<seq<string>>,
    accounts: nat -> AccountInputs,
    cooldownDraws: nat -> UnitDraw)

  /** The account identifiers of the run; none when the users file cannot be read. */
  function AccountIds(input: PassInputs): seq<string> {
    if input.usersFile.None? then [] else Text.UserIdsFrom(input.usersFile.value)
  }

  /** The catalog every account of the run is checked against. */
  function CatalogOf(input: PassInputs): seq<TaskDef> {
    WithDailyCheckin(ListFrom(Fetched(input.catalog)))
  }

  /** What processing one account did: its claims, their results and the POSTs it sent. */
  datatype AccountRun = AccountRun(userId: string, claims: seq<ClaimAction>, results: seq<ClaimResult>,
                                   posts: seq<ClaimRequest>)

  /** The results of the first `n` claims, each on its own claim channel. */
  function ResultsOf(dryRun: bool, claims: nat -> ReadyChannel<ClaimBody>, n: nat): (results: seq<ClaimResult>)
    ensures |results| == n
  {
    if n == 0 then [] else ResultsOf(dryRun, claims, n - 1) + [ExpectedClaim(dryRun, claims(n - 1))]
  }

  /** The k-th result is what the k-th claim channel yields. */
  lemma {:induction false} ResultsOfAt(dryRun: bool, claims: nat -> ReadyChannel<ClaimBody>, n: nat, k: nat)
    requires k < n
    ensures ResultsOf(dryRun, claims, n)[k] == ExpectedClaim(dryRun, claims(k))
  {
    if k < n - 1 {
      ResultsOfAt(dryRun, claims, n - 1, k);
    }
  }

  /** A list of results whose k-th entry is what the k-th claim channel yields is `ResultsOf`. */
  lemma ResultsOfUnique(dryRun: bool, claims: nat -> ReadyChannel<ClaimBody>, results: seq<ClaimResult>)
    requires forall k :: 0 <= k < |results| ==> results[k] == ExpectedClaim(dryRun, claims(k))
    ensures results == ResultsOf(dryRun, claims, |results|)
  {
    forall k | 0 <= k < |results|
      ensures results[k] == ResultsOf(dryRun, claims, |results|)[k]
    {
      ResultsOfAt(dryRun, claims, |results|, k);
    }
  }

  /** What `processUser` does for one account, against a catalog and a list of gift codes. */
  function AccountOutcome(dryRun: bool, userId: string, acct: AccountInputs, catalog: seq<TaskDef>, codes: seq<string>)
    : (run: AccountRun)
    ensures run.userId == userId && |run.results| == |run.claims|
    ensures dryRun ==> run.posts == []
  {
    var plan := PlanFor(acct, catalog, codes);
    AccountRun(userId, plan, ResultsOf(dryRun, acct.claims, |plan|), PostsOf(dryRun, userId, plan, acct.claims))
  }

  /**
   * `runs` is what one run over `input` produces: one entry per account of the users file, in
   * file order, the k-th being `processUser` on the k-th account's inputs, against the run's
   * catalog and the configured gift codes.
   */
  predicate IsPassOf(cfg: Config, input: PassInputs, runs: seq<AccountRun>) {
    var ids := AccountIds(input);
    |runs| == |ids|
    && forall k :: 0 <= k < |runs| ==>
         runs[k] == AccountOutcome(cfg.dryRun, ids[k], input.accounts(k), CatalogOf(input), Text.GiftCodesFrom(cfg.codeSetting))
  }

  /**
   * The catalog step of `runOnce` (run.mjs:437-456): fetch the active catalog and, when it has no
   * daily check-in, put the manual entry in front of it.
   */
  method LoadCatalog(input: PassInputs) returns (activeTasks: seq<TaskDef>)
    ensures activeTasks == CatalogOf(input)
  {
    var catalogRes, catalogAttempts, catalogSleeps := FetchWith429Retry(input.catalog);
    activeTasks := ListFrom(catalogRes);
    if !HasDailyEntry(activeTasks) {
      activeTasks := [ManualDaily] + activeTasks;
    }
  }

  /** Process one account: `processUser` and what it yields. */
  method ProcessAccount(dryRun: bool, userId: string, acct: AccountInputs, catalog: seq<TaskDef>, codes: seq<string>)
    returns (run: AccountRun)
    ensures run == AccountOutcome(dryRun, userId, acct, catalog, codes)
  {
    var issued, results, sent := ProcessUser(dryRun, userId, catalog, codes, acct);
    ResultsOfUnique(dryRun, acct.claims, results);
    run := AccountRun(userId, issued, results, sent);
  }

  /** Process the i-th account after the first `i` (run.mjs:475-476). */
  method ProcessAccountStep(dryRun: bool, userIds: seq<string>, accounts: nat -> AccountInputs, catalog: seq<TaskDef>,
                            codes: seq<string>, i: nat, runs: seq<AccountRun>)
    returns (runs': seq<AccountRun>)
    requires i < |userIds| && |runs| == i
    requires forall k :: 0 <= k < i ==> runs[k] == AccountOutcome(dryRun, userIds[k], accounts(k), catalog, codes)
    ensures |runs'| == i + 1
    ensures forall k :: 0 <= k < i + 1 ==> runs'[k] == AccountOutcome(dryRun, userIds[k], accounts(k), catalog, codes)
  {
    var run := ProcessAccount(dryRun, userIds[i], accounts(i), catalog, codes);
    runs' := runs + [run];
    forall k | 0 <= k < i + 1
      ensures runs'[k] == AccountOutcome(dryRun, userIds[k], accounts(k), catalog, codes)
    {
      if k < i {
        assert runs'[k] == runs[k];
      }
    }
  }

  /**
   * The account loop of `runOnce` (run.mjs:473-485): account after account in file order, with
   * one cooldown between two accounts and none after the last.
   */
  method ProcessAccounts(cfg: Config, userIds: seq<string>, accounts: nat -> AccountInputs, catalog: seq<TaskDef>,
                         codes: seq<string>, draws: nat -> UnitDraw)
    returns (runs: seq<AccountRun>, cooldowns: seq<nat>)
    requires |userIds| > 0
    ensures |runs| == |userIds|
    ensures forall k :: 0 <= k < |runs| ==> runs[k] == AccountOutcome(cfg.dryRun, userIds[k], accounts(k), catalog, codes)
    ensures |cooldowns| == |userIds| - 1 && forall k :: 0 <= k < |cooldowns| ==> cooldowns[k] == Cooldown(cfg, draws(k))
  {
    var n := |userIds|;
    runs, cooldowns := [], [];
    for i := 0 to n
      invariant |runs| == i
      invariant forall k :: 0 <= k < i ==> runs[k] == AccountOutcome(cfg.dryRun, userIds[k], accounts(k), catalog, codes)
      invariant |cooldowns| == (if i == n then i - 1 else i)
      invariant forall k :: 0 <= k < |cooldowns| ==> cooldowns[k] == Cooldown(cfg, draws(k))
    {
      runs := ProcessAccountStep(cfg.dryRun, userIds, accounts, catalog, codes, i, runs);
      if i < n - 1 {
        cooldowns := cooldowns + [Cooldown(cfg, draws(i))];
      }
    }
  }

  /**
   * `runOnce` (run.mjs:435-488): accounts are processed one at a time in file order, each
   * against the same catalog; between two accounts, and never after the last, one cooldown.
   * A users file that cannot be read or names no account ends the run with nothing processed.
   */
  method RunOnce(cfg: Config, input: PassInputs)
    returns (runs: seq<AccountRun>, cooldowns: seq<nat>)
    ensures IsPassOf(cfg, input, runs)
    ensures |cooldowns| == if |AccountIds(input)| == 0 then 0 else |AccountIds(input)| - 1
    ensures forall k :: 0 <= k < |cooldowns| ==> cooldowns[k] == Cooldown(cfg, input.cooldownDraws(k))
  {
    var activeTasks := LoadCatalog(input);
    runs, cooldowns := [], [];
    if input.usersFile.None? {
      return;
    }
    var userIds := Text.UserIdsFrom(input.usersFile.value);
    assert userIds == AccountIds(input);
    if |userIds| == 0 {
      return;
    }
    var giftCodes := Text.GiftCodesFrom(cfg.codeSetting);
    runs, cooldowns := ProcessAccounts(cfg, userIds, input.accounts, activeTasks, giftCodes, input.cooldownDraws);
  }

  /** One iteration of `mainLoop` (run.mjs:501-512): the p-th run, after the first `p`. */
  method RunLoopStep(cfg: Config, passes: seq<PassInputs>, p: nat, passRuns: seq<seq<AccountRun>>)
    returns (passRuns': seq<seq<AccountRun>>)
    requires p < |passes| && |passRuns| == p
    requires forall q :: 0 <= q < p ==> IsPassOf(cfg, passes[q], passRuns[q])
    ensures |passRuns'| == p + 1 && forall q :: 0 <= q < p + 1 ==> IsPassOf(cfg, passes[q], passRuns'[q])
  {
    var runs, cooldowns := RunOnce(cfg, passes[p]);
    passRuns' := passRuns + [runs];
    forall q | 0 <= q < p + 1
      ensures IsPassOf(cfg, passes[q], passRuns'[q])
    {
      if q < p {
        assert passRuns'[q] == passRuns[q];
      }
    }
  }

  /**
   * `mainLoop` (run.mjs:492-514) for as many runs as `passes` describes: every run is carried
   * out in full and is followed by a sleep of `LOOP_INTERVAL_MS`.
   */
  method RunLoop(cfg: Config, passes: seq<PassInputs>)
    returns (passRuns: seq<seq<AccountRun>>, intervalSleeps: seq<nat>)
    ensures |passRuns| == |passes| && forall p :: 0 <= p < |passes| ==> IsPassOf(cfg, passes[p], passRuns[p])
    ensures |intervalSleeps| == |passes| && forall p :: 0 <= p < |passes| ==> intervalSleeps[p] == cfg.loopIntervalMs
  {
    passRuns, intervalSleeps := [], [];
    for p := 0 to |passes|
      invariant |passRuns| == p && forall q :: 0 <= q < p ==> IsPassOf(cfg, passes[q], passRuns[q])
      invariant |intervalSleeps| == p && forall q :: 0 <= q < p ==> intervalSleeps[q] == cfg.loopIntervalMs
    {
      passRuns := RunLoopStep(cfg, passes, p, passRuns);
      intervalSleeps := intervalSleeps + [cfg.loopIntervalMs];
    }
  }

  /**
   * The POSTs of a run are those its claims call for: outside a dry run every claim of every
   * account is POSTed with the account's identifier and the claim's own payload, and no account
   * POSTs anything its claims do not name.
   */
  lemma EveryClaimPosted(cfg: Config, input: PassInputs, runs: seq<AccountRun>, k: nat)
    requires IsPassOf(cfg, input, runs) && k < |runs|
    ensures !cfg.dryRun ==> forall j :: 0 <= j < |runs[k].claims| ==> RequestOf(runs[k].userId, runs[k].claims[j]) in runs[k].posts
    ensures forall r :: r in runs[k].posts ==>
      exists j :: 0 <= j < |runs[k].claims| && r == RequestOf(runs[k].userId, runs[k].claims[j])
  {
    var acct := input.accounts(k);
    PostsOfClaims(cfg.dryRun, runs[k].userId, runs[k].claims, acct.claims);
  }

  /** A dry run sends no POST for any account. */
  lemma DryRunPostsNothing(cfg: Config, input: PassInputs, runs: seq<AccountRun>, k: nat)
    requires cfg.dryRun && IsPassOf(cfg, input, runs) && k < |runs|
    ensures runs[k].posts == []
  {
  }

  /** In a dry run every claim of every account resolves to a dry-run skip. */
  lemma DryRunClaimsNothing(cfg: Config, input: PassInputs, runs: seq<AccountRun>, k: nat, j: nat)
    requires cfg.dryRun && IsPassOf(cfg, input, runs)
    requires k < |runs| && j < |runs[k].claims|
    ensures runs[k].results[j] == DryRunSkipped
  {
    var acct := input.accounts(k);
    ResultsOfAt(true, acct.claims, |runs[k].claims|, j);
  }

  /** With no jitter, `n` accounts are separated by exactly `n - 1` cooldowns of `BASE_SLEEP_MS`. */
  lemma {:induction false} FixedCooldowns(cfg: Config, input: PassInputs, cooldowns: seq<nat>)
    requires cfg.jitterMs == 0
    requires forall k :: 0 <= k < |cooldowns| ==> cooldowns[k] == Cooldown(cfg, input.cooldownDraws(k))
    ensures forall k :: 0 <= k < |cooldowns| ==> cooldowns[k] == cfg.baseSleepMs
  {
  }
}
