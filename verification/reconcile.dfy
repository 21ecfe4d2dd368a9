/**
 * The decisions `processUser` takes for one account (run.mjs:341-419), as a pure plan: the daily
 * check-in unless the latest one falls on today's UTC date, every other catalog task of which no
 * completed entry exists, and every configured gift code the profile does not list.
 */
module Reconcile {
  import opened Wrappers
  import opened Api

  const MsPerDay: int := 86400000

  /** The UTC day number (days since 1970-01-01) of a timestamp in ms; floor division. */
  function UtcDay(ms: int): int {
    ms / MsPerDay
  }

  /** `ms` falls within the 24 hours of UTC day number `day`. */
  predicate InUtcDay(ms: int, day: int) {
    day * MsPerDay <= ms < (day + 1) * MsPerDay
  }

  /**
   * `isSameUtcDate` (run.mjs:49-57). A UTC year/month/day names exactly one day number, so
   * comparing the three fields is comparing day numbers.
   */
  predicate IsSameUtcDate(a: int, b: int) {
    UtcDay(a) == UtcDay(b)
  }

  lemma UtcDayWindow(ms: int, day: int)
    ensures InUtcDay(ms, day) <==> UtcDay(ms) == day
  {
    var d := UtcDay(ms);
    assert d * MsPerDay <= ms < (d + 1) * MsPerDay;
  }

  /** Two timestamps are on the same UTC date exactly when one 24-hour UTC day holds both. */
  lemma SameUtcDateIff(a: int, b: int)
    ensures IsSameUtcDate(a, b) <==> exists day :: InUtcDay(a, day) && InUtcDay(b, day)
  {
    UtcDayWindow(a, UtcDay(a));
    UtcDayWindow(b, UtcDay(a));
    forall day | InUtcDay(a, day) && InUtcDay(b, day)
      ensures IsSameUtcDate(a, b)
    {
      UtcDayWindow(a, day);
      UtcDayWindow(b, day);
    }
  }

  /** The step of `reduce((a, b) => new Date(a.completedAt) > new Date(b.completedAt) ? a : b)`. */
  function LatestFrom(acc: CompletedTask, rest: seq<CompletedTask>): (t: CompletedTask)
    ensures t == acc || t in rest
    ensures acc.completedAt <= t.completedAt
    ensures forall e :: e in rest ==> e.completedAt <= t.completedAt
    decreases |rest|
  {
    if rest == [] then acc
    else
      var t := LatestFrom(if acc.completedAt > rest[0].completedAt then acc else rest[0], rest[1..]);
      assert forall e :: e in rest ==> e == rest[0] || e in rest[1..];
      t
  }

  /** The entry the `reduce` of run.mjs:374-376 selects: one with the greatest `completedAt`. */
  function Latest(entries: seq<CompletedTask>): (t: CompletedTask)
    requires |entries| > 0
    ensures t in entries
    ensures forall e :: e in entries ==> e.completedAt <= t.completedAt
  {
    assert forall e :: e in entries ==> e == entries[0] || e in entries[1..];
    LatestFrom(entries[0], entries[1..])
  }

  /** The greatest timestamp does not depend on the order of the entries. */
  lemma {:induction false} LatestIgnoresOrder(s: seq<CompletedTask>, t: seq<CompletedTask>)
    requires |s| > 0 && multiset(s) == multiset(t)
    ensures |t| > 0 && Latest(s).completedAt == Latest(t).completedAt
  {
    assert s[0] in multiset(t);
    var a := Latest(s);
    assert a in multiset(s);
    assert a in t;
    var b := Latest(t);
    assert b in multiset(t);
    assert b in s;
  }

  /** Some entry of `completed` has type `ty` (`completedByType.has(ty)`). */
  predicate HasCompleted(completed: seq<CompletedTask>, ty: string) {
    exists e :: e in completed && e.taskType == ty
  }

  /** The entries of type `ty`, in history order (`completedByType.get(ty)`). */
  function EntriesOfType(completed: seq<CompletedTask>, ty: string): (group: seq<CompletedTask>)
    ensures forall e :: e in group <==> e in completed && e.taskType == ty
    ensures |group| > 0 <==> HasCompleted(completed, ty)
  {
    if completed == [] then []
    else
      var front := completed[..|completed| - 1];
      var last := completed[|completed| - 1];
      assert forall e :: e in completed <==> e in front || e == last;
      EntriesOfType(front, ty) + (if last.taskType == ty then [last] else [])
  }

  /** Appending one entry to the history adds it to the group of its own type and to no other. */
  lemma {:induction false} EntriesOfTypeSnoc(completed: seq<CompletedTask>, t: CompletedTask, ty: string)
    ensures EntriesOfType(completed + [t], ty) == EntriesOfType(completed, ty) + (if t.taskType == ty then [t] else [])
    ensures HasCompleted(completed + [t], ty) <==> HasCompleted(completed, ty) || t.taskType == ty
  {
    var all := completed + [t];
    assert all[..|all| - 1] == completed && all[|all| - 1] == t;
    assert forall e :: e in all <==> e in completed || e == t;
  }

  /** The daily check-in was already claimed on the UTC date of `now` (run.mjs:371-380). */
  predicate ClaimedToday(completed: seq<CompletedTask>, now: int) {
    var daily := EntriesOfType(completed, DailyCheckin);
    |daily| > 0 && IsSameUtcDate(Latest(daily).completedAt, now)
  }

  /**
   * The daily check-in counts as claimed today exactly when a daily entry with the greatest
   * timestamp among the daily entries lies on today's UTC date, whatever their order.
   */
  lemma ClaimedTodayIff(completed: seq<CompletedTask>, now: int)
    ensures ClaimedToday(completed, now) <==>
      exists e :: e in completed && e.taskType == DailyCheckin && IsSameUtcDate(e.completedAt, now)
        && forall f :: f in completed && f.taskType == DailyCheckin ==> f.completedAt <= e.completedAt
  {
    var daily := EntriesOfType(completed, DailyCheckin);
    if |daily| > 0 {
      var l := Latest(daily);
      assert l in completed && l.taskType == DailyCheckin;
    }
  }

  /** The name a task is claimed under: `t.title || t.taskName || t.description || taskType`. */
  function DisplayName(t: TaskDef): (name: string)
    ensures name in [t.title, t.taskName, t.description, t.taskType]
    ensures name == "" <==> t.title == "" && t.taskName == "" && t.description == "" && t.taskType == ""
    ensures t.title != "" ==> name == t.title
    ensures t.title == "" && t.taskName != "" ==> name == t.taskName
    ensures t.title == "" && t.taskName == "" && t.description != "" ==> name == t.description
    ensures t.title == "" && t.taskName == "" && t.description == "" ==> name == t.taskType
  {
    if t.title != "" then t.title
    else if t.taskName != "" then t.taskName
    else if t.description != "" then t.description
    else t.taskType
  }

  /** One entry of `claimedGiftCodes` records `code` (the callback of run.mjs:344-349). */
  predicate GiftMatches(entry: GiftEntry, code: string) {
    match entry
    case Bare(c) => c != "" && c == code  // an empty string is falsy and matches nothing
    case Keyed(c) => c == code
    case Other => false
  }

  /** `hasClaimedGiftCode` (run.mjs:341-350). */
  function HasClaimedGiftCode(profile: Option<Profile>, code: string): (claimed: bool)
    ensures claimed <==> (profile.Some? && profile.value.claimedGiftCodes.Some?
      && exists e :: e in profile.value.claimedGiftCodes.value && GiftMatches(e, code))
  {
    if profile.None? || profile.value.claimedGiftCodes.None? then false
    else AnyMatches(profile.value.claimedGiftCodes.value, code)
  }

  /** `entries.some((entry) => GiftMatches(entry, code))`. */
  function AnyMatches(entries: seq<GiftEntry>, code: string): (found: bool)
    ensures found <==> exists e :: e in entries && GiftMatches(e, code)
  {
    if entries == [] then false
    else
      assert forall e :: e in entries ==> e == entries[0] || e in entries[1..];
      GiftMatches(entries[0], code) || AnyMatches(entries[1..], code)
  }

  /** Both accepted shapes record a code: the bare string and the object with a `code` field. */
  lemma BothShapesRecordACode(code: string, before: seq<GiftEntry>, after: seq<GiftEntry>)
    requires code != ""
    ensures HasClaimedGiftCode(Some(Profile(Some(before + [Bare(code)] + after))), code)
    ensures HasClaimedGiftCode(Some(Profile(Some(before + [Keyed(code)] + after))), code)
  {
    assert Bare(code) in before + [Bare(code)] + after;
    assert Keyed(code) in before + [Keyed(code)] + after;
  }

  /** A claim `processUser` issues. */
  datatype ClaimAction = TaskClaim(taskType: string, taskName: string) | GiftClaim(code: string)

  const DailyClaim: ClaimAction := TaskClaim(DailyCheckin, "Daily Check-in")

  /** The daily check-in claim, unless it was claimed today (run.mjs:382-387). */
  function DailyPart(completed: seq<CompletedTask>, now: int): seq<ClaimAction> {
    if ClaimedToday(completed, now) then [] else [DailyClaim]
  }

  /** The claim for one catalog task (run.mjs:390-407); the daily check-in is decided apart. */
  function TaskStep(t: TaskDef, completed: seq<CompletedTask>): seq<ClaimAction> {
    if t.taskType == DailyCheckin || HasCompleted(completed, t.taskType) then []
    else [TaskClaim(t.taskType, DisplayName(t))]
  }

  /** The claims for the catalog tasks, in catalog order. */
  function TaskPart(catalog: seq<TaskDef>, completed: seq<CompletedTask>): (claims: seq<ClaimAction>)
    ensures |claims| <= |catalog|
  {
    if catalog == [] then []
    else TaskStep(catalog[0], completed) + TaskPart(catalog[1..], completed)
  }

  /**
   * A catalog task is claimed exactly when it is not the daily check-in and no completed entry
   * of its type exists; it is claimed under its display name.
   */
  lemma {:induction false} TaskClaimedIff(catalog: seq<TaskDef>, completed: seq<CompletedTask>, a: ClaimAction)
    ensures a in TaskPart(catalog, completed) <==>
      (exists t :: t in catalog && t.taskType != DailyCheckin && !HasCompleted(completed, t.taskType)
        && a == TaskClaim(t.taskType, DisplayName(t)))
  {
    if catalog != [] {
      TaskClaimedIff(catalog[1..], completed, a);
      assert forall t :: t in catalog <==> t == catalog[0] || t in catalog[1..];
    }
  }

  /** The claim for one gift code (run.mjs:411-418). */
  function GiftStep(code: string, profile: Option<Profile>): seq<ClaimAction> {
    if HasClaimedGiftCode(profile, code) then [] else [GiftClaim(code)]
  }

  /** The claims for the configured gift codes, in configured order. */
  function GiftPart(codes: seq<string>, profile: Option<Profile>): (claims: seq<ClaimAction>)
    ensures |claims| <= |codes|
  {
    if codes == [] then []
    else GiftStep(codes[0], profile) + GiftPart(codes[1..], profile)
  }

  /** A configured gift code is claimed exactly when the profile does not record it. */
  lemma {:induction false} GiftClaimedIff(codes: seq<string>, profile: Option<Profile>, code: string)
    ensures GiftClaim(code) in GiftPart(codes, profile) <==> code in codes && !HasClaimedGiftCode(profile, code)
  {
    if codes != [] {
      GiftClaimedIff(codes[1..], profile, code);
    }
  }

  /** Gift-code claims are the only gift claims of a plan: nothing else claims a code. */
  lemma {:induction false} GiftPartOnlyGifts(codes: seq<string>, profile: Option<Profile>, a: ClaimAction)
    requires a in GiftPart(codes, profile)
    ensures a.GiftClaim? && a.code in codes
  {
    if !(a in GiftStep(codes[0], profile)) {
      GiftPartOnlyGifts(codes[1..], profile, a);
    }
  }

  /** The claims `processUser` issues, in order: daily check-in, catalog tasks, gift codes. */
  function Plan(catalog: seq<TaskDef>, completed: seq<CompletedTask>, profile: Option<Profile>,
                codes: seq<string>, now: int): seq<ClaimAction>
  {
    DailyPart(completed, now) + TaskPart(catalog, completed) + GiftPart(codes, profile)
  }

  lemma {:induction false} TaskPartAppend(a: seq<TaskDef>, b: seq<TaskDef>, completed: seq<CompletedTask>)
    ensures TaskPart(a + b, completed) == TaskPart(a, completed) + TaskPart(b, completed)
  {
    if a == [] {
      assert a + b == b;
    } else {
      var ab := a + b;
      assert ab[0] == a[0] && ab[1..] == a[1..] + b;
      var step := TaskStep(a[0], completed);
      TaskPartAppend(a[1..], b, completed);
      calc {
        TaskPart(ab, completed);
        step + TaskPart(a[1..] + b, completed);
        step + (TaskPart(a[1..], completed) + TaskPart(b, completed));
        (step + TaskPart(a[1..], completed)) + TaskPart(b, completed);
      }
    }
  }

  lemma {:induction false} GiftPartAppend(a: seq<string>, b: seq<string>, profile: Option<Profile>)
    ensures GiftPart(a + b, profile) == GiftPart(a, profile) + GiftPart(b, profile)
  {
    if a == [] {
      assert a + b == b;
    } else {
      var ab := a + b;
      assert ab[0] == a[0] && ab[1..] == a[1..] + b;
      var step := GiftStep(a[0], profile);
      GiftPartAppend(a[1..], b, profile);
      calc {
        GiftPart(ab, profile);
        step + GiftPart(a[1..] + b, profile);
        step + (GiftPart(a[1..], profile) + GiftPart(b, profile));
        (step + GiftPart(a[1..], profile)) + GiftPart(b, profile);
      }
    }
  }

  /** One more catalog task adds its own step at the end. */
  lemma TaskPartSnoc(catalog: seq<TaskDef>, i: nat, completed: seq<CompletedTask>)
    requires i < |catalog|
    ensures TaskPart(catalog[..i + 1], completed) == TaskPart(catalog[..i], completed) + TaskStep(catalog[i], completed)
  {
    var t := catalog[i];
    assert catalog[..i + 1] == catalog[..i] + [t];
    TaskPartAppend(catalog[..i], [t], completed);
    assert TaskPart([t], completed) == TaskStep(t, completed) + TaskPart([], completed);
  }

  /** One more gift code adds its own step at the end. */
  lemma GiftPartSnoc(codes: seq<string>, j: nat, profile: Option<Profile>)
    requires j < |codes|
    ensures GiftPart(codes[..j + 1], profile) == GiftPart(codes[..j], profile) + GiftStep(codes[j], profile)
  {
    var code := codes[j];
    assert codes[..j + 1] == codes[..j] + [code];
    GiftPartAppend(codes[..j], [code], profile);
    assert GiftPart([code], profile) == GiftStep(code, profile) + GiftPart([], profile);
  }

  /** The number of daily check-in claims in `claims`. */
  function DailyClaims(claims: seq<ClaimAction>): nat {
    if claims == [] then 0
    else (if claims[0].TaskClaim? && claims[0].taskType == DailyCheckin then 1 else 0) + DailyClaims(claims[1..])
  }

  lemma {:induction false} DailyClaimsAppend(a: seq<ClaimAction>, b: seq<ClaimAction>)
    ensures DailyClaims(a + b) == DailyClaims(a) + DailyClaims(b)
  {
    if a == [] {
      assert a + b == b;
    } else {
      DailyClaimsAppend(a[1..], b);
      assert (a + b)[1..] == a[1..] + b;
    }
  }

  lemma {:induction false} NoDailyClaimWithout(claims: seq<ClaimAction>)
    requires forall a :: a in claims ==> !(a.TaskClaim? && a.taskType == DailyCheckin)
    ensures DailyClaims(claims) == 0
  {
    if claims != [] {
      assert claims[0] in claims;
      assert forall a :: a in claims[1..] ==> a in claims;
      NoDailyClaimWithout(claims[1..]);
    }
  }

  /**
   * A plan holds exactly one daily check-in claim, in first place, when the check-in was not
   * claimed today, and none otherwise; catalog entries of type `daily_checkin` never add one.
   */
  lemma DailyClaimedOnce(catalog: seq<TaskDef>, completed: seq<CompletedTask>, profile: Option<Profile>,
                         codes: seq<string>, now: int)
    ensures DailyClaims(Plan(catalog, completed, profile, codes, now)) == if ClaimedToday(completed, now) then 0 else 1
    ensures !ClaimedToday(completed, now) ==> Plan(catalog, completed, profile, codes, now)[0] == DailyClaim
  {
    var tasks := TaskPart(catalog, completed);
    var gifts := GiftPart(codes, profile);
    forall a | a in tasks
      ensures !(a.TaskClaim? && a.taskType == DailyCheckin)
    {
      TaskClaimedIff(catalog, completed, a);
    }
    forall a | a in gifts
      ensures !(a.TaskClaim? && a.taskType == DailyCheckin)
    {
      GiftPartOnlyGifts(codes, profile, a);
    }
    NoDailyClaimWithout(tasks);
    NoDailyClaimWithout(gifts);
    DailyClaimsAppend(DailyPart(completed, now), tasks);
    DailyClaimsAppend(DailyPart(completed, now) + tasks, gifts);
  }

  /**
   * Whether a non-daily task is claimed depends only on which task types have completed
   * entries: neither how many entries a type has nor how old they are matters.
   */
  lemma {:induction false} TaskPartDependsOnTypesOnly(catalog: seq<TaskDef>, c1: seq<CompletedTask>, c2: seq<CompletedTask>)
    requires forall ty :: HasCompleted(c1, ty) <==> HasCompleted(c2, ty)
    ensures TaskPart(catalog, c1) == TaskPart(catalog, c2)
  {
    if catalog != [] {
      TaskPartDependsOnTypesOnly(catalog[1..], c1, c2);
      assert TaskStep(catalog[0], c1) == TaskStep(catalog[0], c2);
    }
  }

  /** Worked example: only the daily check-in is left when the other task was done yesterday. */
  lemma PlanExample(now: int)
    requires now >= MsPerDay
    ensures
      var daily := TaskDef("1", DailyCheckin, "", "", "", 5, "Internal", true);
      var follow := TaskDef("2", "social_follow", "Follow X", "", "", 10, "X", true);
      Plan([daily, follow], [CompletedTask("social_follow", now - MsPerDay)], None, [], now) == [DailyClaim]
  {
    var daily := TaskDef("1", DailyCheckin, "", "", "", 5, "Internal", true);
    var follow := TaskDef("2", "social_follow", "Follow X", "", "", 10, "X", true);
    var done := [CompletedTask("social_follow", now - MsPerDay)];
    assert done[0] in done;
    assert HasCompleted(done, follow.taskType);
    assert EntriesOfType(done, DailyCheckin) == [];
    assert [daily, follow][1..] == [follow];
    assert TaskPart([daily, follow], done) == [];
  }

  /** Worked example: a configured code missing from the profile is claimed. */
  lemma GiftExample()
    ensures GiftPart(["WELCOME10"], Some(Profile(Some([])))) == [GiftClaim("WELCOME10")]
  {
  }
}
