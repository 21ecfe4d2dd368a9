# Aithereum claim bot — a Dafny model

`run.mjs` is a bot that claims rewards on the Aithereum API for a list of accounts. One run does
the following:
- fetches the catalog of active tasks;
- adds a manual daily check-in entry to the catalog when it has none;
- reads the account identifiers from a users file;
- processes each account in turn, with a randomised cooldown between two accounts.

Processing one account has four steps:
1. Fetch its profile and its completed-task history.
2. Claim the daily check-in, unless the latest check-in falls on today's UTC date.
3. Claim every catalog task of a type with no completed entry.
4. Claim every configured gift code the profile does not list.

Every request goes through the same policy. There are at most five attempts. After a 429 (a
status, or a thrown error that carries one) the bot sleeps `1000 + floor(r * 2000)` ms and tries
again. Any other outcome ends the loop. A dry run sends no claim at all. The bot repeats the whole
run forever, sleeping `LOOP_INTERVAL_MS` between runs.

The model has one module per concern:

- `Random`: `Math.random()` as a fraction in [0, 1), and `floor(r * m)`.
- `RateLimit`: the retry policy, written once and used by the GET helper and by both claims.
  - The replies to the successive attempts and the random draws for the sleeps come in a
    `Channel`.
  - `SendWithRetry` is a `while` loop proved against the functions `RetryResult`,
    `AttemptsMade` and `SleepsTaken`.
- `Api`: the records the API returns, and how the three fetchers read the `{ success, data }`
  envelope.
- `Claims`: `claimTask` and `claimGiftCode`, covering the dry-run skip, the retry loop and how
  the HTTP status decides `ok`.
- `Text`: the two list pipelines.
  - The `CODE` setting is split on commas, trimmed, emptied entries dropped, and de-duplicated
    keeping the first occurrence.
  - The users-file lines are trimmed, and blank lines and `#` comments dropped.
- `Reconcile`: the decisions of `processUser` as a pure plan of claims, in order: daily
  check-in, then catalog order, then gift-code order.
- `Accounts`: `processUser` as the source runs it.
  - A `for` loop fills the map from task type to completed entries.
  - Three steps issue the claims one by one. Each claim uses the next claim channel.
  - `ProcessUser` is proved to issue exactly the plan. Its POSTs are exactly those the plan's
    claims call for: each claim's own payload, once per attempt, in plan order.
- `Runner`: `runOnce` (catalog synthesis and the account loop with its cooldowns) and a bounded
  number of iterations of `mainLoop`.

Timestamps are whole milliseconds since the epoch. `isSameUtcDate` is therefore equality of
`ms / 86400000`, where Dafny's division is floor division for a positive divisor. A text field
that the source only tests for truthiness (`title`, `taskName`, `description`) is `""` when it is
missing or falsy.

On exhaustion, the source sleeps after the fifth 429 too, before it gives up. A request that
exhausts its attempts therefore takes five sleeps, not four, and `SleepsTaken` records all five.

## Model

| member | source | states |
|---|---|---|
| Random.Scale | run.mjs:206 | `floor(r * m)` for `r` in [0, 1) is below `m` when `m > 0`, and 0 when `m` is 0 |
| Random.ScaleBelow | run.mjs:206 | for a fraction below 1, `floor(num * m / den)` is below `m`, or 0 when `m` is 0 |
| RateLimit.Backoff | run.mjs:73-78 | the sleep after a rate-limited attempt lies in [1000, 2999] ms and depends on the draw only, never on the attempt number |
| RateLimit.LeadingRateLimited | run.mjs:64-92 | counts the rate-limited replies that open the sequence, up to the limit; the first reply after them is not rate-limited |
| RateLimit.SendWithRetry | run.mjs:186-254 | one to five attempts; every attempt before the last was rate-limited; a non-429 outcome ends the loop and is returned as it is; exhaustion happens exactly when all five replies are rate-limited, and then yields a value; one sleep per rate-limited attempt, each `Backoff` of its draw |
| RateLimit.FetchWith429Retry | run.mjs:60-96 | the first reply that is not a 429 is returned whatever its status; a thrown error and five 429s both give `null`; the result is `Some` exactly when some attempt was a response that is not a 429 |
| RateLimit.RetryIgnoresLaterReplies | run.mjs:64-92 | two channels that agree up to the attempt that ends the loop have the same outcome, attempt count and sleeps: nothing after that attempt is requested |
| RateLimit.ExhaustionCost | run.mjs:64-95 | exhaustion costs five requests and five sleeps, each in [1000, 2999] ms |
| Api.ListFrom | run.mjs:110-121 | a non-empty list only comes from a response whose envelope reports success, and it is that envelope's array; a delivered array is returned unchanged; everything else gives `[]` |
| Api.ProfileFrom | run.mjs:161-170 | a profile exactly when the response exists, its envelope reports success and `data` is present; the profile is that `data` |
| Api.ListIgnoresStatus | run.mjs:136-147 | the fetchers read only the envelope: two responses that differ only in HTTP status give the same list |
| Claims.NormalizedBody | run.mjs:214 | a non-object body becomes `{}` (all fields absent); an object body is kept unchanged |
| Claims.Summary | run.mjs:214-217 | a missing `reward` or `newBalance` shows as `'?'`, a non-string `message` as `''`; present values are kept |
| Claims.ClaimOutcome | run.mjs:219-254 | `ok` exactly when the loop settled on a response with a 2xx status; other responses keep their status; an error with a response keeps that status; a network error gives status 0; exhaustion gives status 429 and "too many retries" |
| Claims.PostWithRetry | run.mjs:186-254 | one to five POSTs of the same payload; the result is the classified outcome of the retry policy; the sleeps are those of the policy |
| Claims.ClaimTask | run.mjs:175-255 | a dry run returns `{ ok: true, dryRun: true }` and sends nothing; otherwise it sends one to five POSTs of `{ userId, taskType, taskName }`, and the result is the classified outcome of the retry policy |
| Claims.ClaimGiftCode | run.mjs:258-338 | as `ClaimTask`, with the payload `{ userId, code }` |
| Claims.ClaimOkIff | run.mjs:189-229 | a claim succeeds exactly when, within five attempts, the first reply that is not rate-limited is a response with a 2xx status |
| Claims.OkIgnoresSuccessFlag | run.mjs:219 | `ok` does not depend on the body's `success` flag |
| Text.LeadingSpaces | run.mjs:21 | counts the whitespace that opens the string: everything before is whitespace and the next character is not |
| Text.TrailingSpaces | run.mjs:21 | counts the whitespace that closes the string: everything after is whitespace and the character before is not |
| Text.Trim | run.mjs:21 | the result has no whitespace at either end, is empty exactly when the input is all whitespace, and is the slice of the input between its leading and its trailing whitespace |
| Text.TrimOfTrimmed | run.mjs:21 | a string with no whitespace at either end is its own trim |
| Text.TrimIdempotent | run.mjs:21 | trimming twice is trimming once |
| Text.Split | run.mjs:20 | splitting on a separator gives at least one piece, and no piece contains the separator |
| Text.JoinSplit | run.mjs:20 | joining the pieces of a split with the separator gives back the string |
| Text.SplitJoin | run.mjs:20 | splitting a join of separator-free pieces gives back the pieces |
| Text.SplitPiece | run.mjs:20 | splitting `p + sep + t` for a separator-free `p` gives `p` followed by the pieces of `t` |
| Text.SplitAppend | run.mjs:20 | splitting `a + sep + b` gives the pieces of `a` followed by the pieces of `b` |
| Text.Map | run.mjs:21 | `xs.map(f)`: same length, the k-th element is `f` of the k-th |
| Text.MapAppend | run.mjs:21 | the map keeps order: mapping two blocks gives the two mapped blocks |
| Text.TrimAll | run.mjs:21 | element-wise trim, same length |
| Text.TrimAllAppend | run.mjs:21 | the trimming map keeps order over two blocks |
| Text.TrimAllTrimmed | run.mjs:21 | every element of a trimmed list is its own trim |
| Text.NonEmpty | run.mjs:22 | `filter(Boolean)` keeps exactly the non-empty strings and never lengthens the list |
| Text.NonEmptyAppend | run.mjs:22 | the filter keeps order: the survivors of two blocks follow each other |
| Text.Dedup | run.mjs:17-18 | no duplicates, same members, never longer |
| Text.DedupPrefix | run.mjs:17-18 | values already placed keep their place whatever follows: the first occurrence wins |
| Text.DedupOfDistinct | run.mjs:17-18 | a list without duplicates is unchanged |
| Text.GiftCodesFrom | run.mjs:16-24 | the gift-code list has no duplicates |
| Text.GiftCodesOfSetting | run.mjs:16-24 | the gift codes are exactly the non-empty trimmed comma-separated pieces of the setting, each trimmed and non-empty |
| Text.GiftCodesKeepOrder | run.mjs:16-24 | the codes follow the setting: those of a leading part of `CODE` come first, in the same order, whatever follows |
| Text.UserIdsFrom | run.mjs:41-44 | never more identifiers than lines |
| Text.UserIdsAreClean | run.mjs:41-44 | every identifier is trimmed, non-empty and does not start with `#` |
| Text.UserIdsOfLines | run.mjs:41-44 | the identifiers are exactly the trimmed lines that are neither blank nor `#` comments |
| Text.UserIdsKeepOrder | run.mjs:41-44 | the filter keeps file order: the identifiers of two blocks of lines are concatenated |
| Reconcile.UtcDayWindow | run.mjs:49-57 | a timestamp lies in the 24-hour window of a UTC day exactly when that is its day number |
| Reconcile.SameUtcDateIff | run.mjs:49-57 | two timestamps are on the same UTC date exactly when one UTC day holds both |
| Reconcile.LatestFrom | run.mjs:374-376 | the `reduce` step returns the accumulator or an element, no earlier than any of them |
| Reconcile.Latest | run.mjs:374-376 | the selected entry is one of the entries and has the greatest `completedAt` |
| Reconcile.LatestIgnoresOrder | run.mjs:374-376 | the greatest `completedAt` does not depend on the order of the entries |
| Reconcile.EntriesOfType | run.mjs:362-366 | the group of a type holds exactly the entries of that type, and is non-empty exactly when such an entry exists |
| Reconcile.EntriesOfTypeSnoc | run.mjs:362-366 | one more history entry extends the group of its own type by itself, at the end, and leaves every other group as it was |
| Reconcile.ClaimedTodayIff | run.mjs:371-380 | the check-in counts as done today exactly when a daily entry with the greatest timestamp lies on today's UTC date |
| Reconcile.DisplayName | run.mjs:392 | the claim name is `title`, else `taskName`, else `description`, else the task type, taking the first that is not empty |
| Reconcile.HasClaimedGiftCode | run.mjs:341-350 | true exactly when the profile exists, `claimedGiftCodes` is an array, and some entry records the code as a string or as an object's `code` field |
| Reconcile.AnyMatches | run.mjs:344-349 | `.some` is true exactly when some entry matches |
| Reconcile.BothShapesRecordACode | run.mjs:346-347 | both a bare string and an object with a `code` field mark a code as claimed |
| Reconcile.TaskPart | run.mjs:390-407 | at most one claim per catalog task |
| Reconcile.TaskClaimedIff | run.mjs:390-407 | a catalog task is claimed exactly when it is not the daily check-in and no completed entry of its type exists; it is claimed under its display name |
| Reconcile.TaskPartAppend | run.mjs:390-407 | the catalog claims follow catalog order |
| Reconcile.TaskPartSnoc | run.mjs:390-407 | one more catalog task adds its own claim, if any, after the claims of the tasks before it |
| Reconcile.TaskPartDependsOnTypesOnly | run.mjs:396-401 | only which task types have completed entries matters, not how many or how old |
| Reconcile.GiftPart | run.mjs:410-419 | at most one claim per gift code |
| Reconcile.GiftClaimedIff | run.mjs:410-419 | a gift code is claimed exactly when it is configured and the profile does not record it |
| Reconcile.GiftPartOnlyGifts | run.mjs:410-419 | the gift part claims only configured codes |
| Reconcile.GiftPartAppend | run.mjs:410-419 | the gift claims follow the configured order |
| Reconcile.GiftPartSnoc | run.mjs:410-419 | one more gift code adds its own claim, if any, after the claims of the codes before it |
| Reconcile.DailyClaimsAppend | run.mjs:382-419 | daily claims of a concatenation add up |
| Reconcile.NoDailyClaimWithout | run.mjs:394 | a list with no daily check-in claim counts none |
| Reconcile.DailyClaimedOnce | run.mjs:371-387 | a plan holds exactly one daily check-in claim, in first place, when it was not claimed today, and none otherwise |
| Reconcile.PlanExample | run.mjs:354-419 | with a task done yesterday and no check-in yet, only the daily check-in is claimed |
| Reconcile.GiftExample | run.mjs:410-419 | a configured code missing from the profile is claimed |
| Accounts.PlanFor | run.mjs:354-419 | an account makes at most one claim for the check-in, one per catalog task and one per gift code |
| Accounts.GroupByType | run.mjs:362-366 | the map has a key exactly for each type with completed entries, holding those entries in history order |
| Accounts.RequestOfNamesClaim | run.mjs:382-419 | two claims of one account never share a payload: the POST names its claim |
| Accounts.PostsOf | run.mjs:382-419 | the POSTs of a list of claims: none in a dry run, otherwise at least one and at most five per claim, all for the account |
| Accounts.PostsOfSnoc | run.mjs:382-419 | one more claim appends its own POSTs after those of the claims before it |
| Accounts.PostsOfClaims | run.mjs:382-419 | outside a dry run every claim is POSTed with its own payload, and every POST carries the payload of one of the claims |
| Accounts.Execute | run.mjs:382-419 | a claim gives the result of the retry policy on its own channel, and its POSTs are its own payload (`claimTask(userId, taskType, taskName)` or `claimGiftCode(userId, code)`) once per attempt, none in a dry run |
| Accounts.Issue | run.mjs:382-419 | issuing one more claim appends it and keeps the results and the POSTs those of the claims, in order |
| Accounts.ClaimDailyStep | run.mjs:368-387 | the daily step issues the daily part of the plan |
| Accounts.ClaimTaskStep | run.mjs:391-406 | the i-th catalog task extends the issued claims by its own claim of the plan, on the next claim channel, keeping results and POSTs in step |
| Accounts.ClaimTasksStep | run.mjs:390-407 | the catalog loop issues the catalog part of the plan |
| Accounts.ClaimGiftStep | run.mjs:411-418 | the j-th gift code extends the issued claims by its own claim of the plan, on the next claim channel, keeping results and POSTs in step |
| Accounts.ClaimGiftsStep | run.mjs:410-419 | the gift loop issues the gift part of the plan |
| Accounts.ProcessUser | run.mjs:354-419 | the claims issued are exactly the plan, in order; the k-th result is the retry outcome of the k-th claim channel; the POSTs sent are exactly those of the plan's claims, in order; a dry run sends nothing; every POST is for this account |
| Runner.Cooldown | run.mjs:478-482 | the cooldown is at least `BASE_SLEEP_MS`, below `BASE_SLEEP_MS + JITTER_MS`, and exactly `BASE_SLEEP_MS` with no jitter |
| Runner.WithDailyCheckin | run.mjs:445-456 | the catalog holds a daily check-in; the fetched entries are still there, unchanged and in order; one entry is added in front exactly when none existed |
| Runner.SynthesisNeverChangesPlan | run.mjs:394 | the synthesized daily entry never changes the claims of any account |
| Runner.LoadCatalog | run.mjs:443-456 | the catalog of the run is the fetched catalog with the daily entry added when missing |
| Runner.AccountOutcome | run.mjs:354-419 | the run of one account carries its identifier, one result per claim, and no POST in a dry run |
| Runner.ResultsOf | run.mjs:382-419 | one result per claim |
| Runner.ResultsOfAt | run.mjs:382-419 | the k-th result is the outcome of the k-th claim channel |
| Runner.ResultsOfUnique | run.mjs:382-419 | results whose k-th entry is the outcome of the k-th claim channel are exactly `ResultsOf` |
| Runner.ProcessAccount | run.mjs:476 | one account's run is what `processUser` does for it |
| Runner.ProcessAccountStep | run.mjs:475-476 | processing the next account appends its run after those of the accounts before it |
| Runner.ProcessAccounts | run.mjs:473-485 | accounts in file order, each processed against the same catalog and codes; `n - 1` cooldowns, each `BASE_SLEEP_MS + floor(r * JITTER_MS)`, none after the last account |
| Runner.RunOnce | run.mjs:435-488 | one run processes every account of the users file, in file order, against the run's catalog and gift codes; an unreadable or empty users file processes nothing; `n` accounts are separated by `n - 1` cooldowns |
| Runner.RunLoopStep | run.mjs:501-512 | one iteration appends a run carried out in full over its own inputs |
| Runner.RunLoop | run.mjs:500-513 | every run is carried out in full over its own inputs and followed by a `LOOP_INTERVAL_MS` sleep |
| Runner.EveryClaimPosted | run.mjs:382-419 | outside a dry run every claim of every account of a run is POSTed with the account's identifier and the claim's payload, and no account POSTs anything its claims do not name |
| Runner.DryRunPostsNothing | run.mjs:179-184 | a dry run sends no POST for any account |
| Runner.DryRunClaimsNothing | run.mjs:179-184 | in a dry run every claim of every account of a run is a dry-run skip |
| Runner.FixedCooldowns | run.mjs:478-482 | with no jitter every cooldown is exactly `BASE_SLEEP_MS` |

## Left out

- The requests themselves (axios, URLs, headers, the 30 s timeout) are not modelled. Each
  attempt's outcome is an input in a `Channel`, and a request that never resolves is not
  modelled.
- A thrown error whose response has status 429 is `ErrWithResponse(429)`. It is rate-limited
  exactly like a 429 response.
- Random.Scale: takes `Math.random()` as an exact fraction. Floating-point rounding of
  `r * m` is not modelled.
- `wait`/`setTimeout` are not modelled. Sleeps are recorded as durations in milliseconds; no
  time passes.
- Retry sleeps and attempt counts are stated per request (`FetchWith429Retry`, `ClaimTask`,
  `ClaimGiftCode`: the sleeps are `SleepsTaken` of the request's channel). They are not gathered
  into an account's or a run's record, because nothing in the source reads them after the request.
- Logging (`log`, `console.error`) is not modelled, because it only produces output.
- Reading the environment (run.mjs:7-28) is not modelled. `Runner.Config` takes the parsed
  settings as values. The defaults are not modelled. Neither is a `Number(...)` that gives
  `NaN`, a negative number or a fraction: the three durations are whole non-negative
  milliseconds.
- Reading the users file (run.mjs:35-40) is not modelled. The model takes its lines, with
  `None` for a file that cannot be read. The `/\r?\n/` split is not modelled.
- Parsing dates is not modelled. `completedAt` and the current time are whole ms since the
  epoch, and invalid (`NaN`) dates are not modelled. The clock reading of each account is an
  input.
- Records are typed. A catalog or history entry without a `taskType`, a non-string `code` in
  `claimedGiftCodes`, and a profile `data` that is a truthy non-object are not modelled.
- `reward` and `newBalance` are strings or absent. Numeric values are shown as their text.
- The post-claim summary fetch of `processUser` (run.mjs:421-430) is not modelled, because it
  is reporting only.
- Runner.RunLoop: models a finite number of iterations of the infinite `mainLoop`. It does not
  model the `try`/`catch` around `runOnce` (run.mjs:502-506) or the final `process.exit`
  (run.mjs:516-519). Nothing in the model throws.
- The API's answers are inputs given in advance. `AccountInputs.claims(k)` answers the k-th claim
  of the account, and `PassInputs.accounts(k)` the k-th account of the run. Every channel holds
  at least five replies and five draws, as many as one request can use.
