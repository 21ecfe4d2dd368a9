/**
 * The records the remote API returns, and how run.mjs reads its GET envelopes
 * `{ success, data }` (`fetchActiveTasks`, `fetchUserTasks`, `fetchUser`): a missing response, a
 * missing body, or a missing or false `success` is a soft failure, never an exception.
 */
module Api {
  import opened Wrappers
  import opened RateLimit

  /** The task type of the daily check-in. */
  const DailyCheckin: string := "daily_checkin"

  /**
   * An entry of the active-task catalog. Text fields that are missing, null or empty are "":
   * run.mjs only tests them for truthiness.
   */
  datatype TaskDef = TaskDef(
    id: string,
    taskType: string,
    title: string,
    taskName: string,
    description: string,
    reward: int,
    platform: string,
    isActive: bool)

  /** An entry of an account's completed-task history; `completedAt` in ms since the epoch (UTC). */
  datatype CompletedTask = CompletedTask(taskType: string, completedAt: int)

  /**
   * An entry of `claimedGiftCodes`: a bare string, an object carrying a `code` field, or
   * anything else (null, a number, an object without `code`).
   */
  datatype GiftEntry = Bare(code: string) | Keyed(code: string) | Other

  /** An account profile; `claimedGiftCodes` is `None` when that field is not an array. */
  datatype Profile = Profile(claimedGiftCodes: Option<seq<GiftEntry>>)

  /** The GET envelope `{ success, data }`; `success` is the truthiness of that field. */
  datatype Envelope<D> = Envelope(success: bool, data: D)

  /** A GET body: `None` when `res.data` is falsy. */
  type Body<D> = Option<Envelope<D>>

  /** The body of the list endpoints; `data` is `None` when it is not an array. */
  type ListBody<T> = Body<Option<seq<T>>>

  /** The body of `/users/:id`; `data` is `None` when it is missing or falsy. */
  type UserBody = Body<Option<Profile>>

  /** The response was received and its envelope reports success. */
  predicate Accepted<D>(res: Option<Response<Body<D>>>) {
    res.Some? && res.value.body.Some? && res.value.body.value.success
  }

  /**
   * What `fetchActiveTasks` and `fetchUserTasks` make of the GET helper's result: the delivered
   * array, or `[]` for a `null` result, a rejected envelope or a `data` that is not an array.
   */
  function ListFrom<T>(res: Option<Response<ListBody<T>>>): (items: seq<T>)
    ensures items != [] ==> Accepted(res) && res.value.body.value.data == Some(items)
    ensures Accepted(res) && res.value.body.value.data.Some? ==> items == res.value.body.value.data.value
  {
    if res.None? then []
    else if res.value.body.None? || !res.value.body.value.success then []
    else res.value.body.value.data.GetOr([])
  }

  /**
   * What `fetchUser` makes of the GET helper's result: the delivered profile, or `null` for a
   * `null` result, a rejected envelope or a missing `data`.
   */
  function ProfileFrom(res: Option<Response<UserBody>>): (profile: Option<Profile>)
    ensures profile.Some? <==> Accepted(res) && res.value.body.value.data.Some?
    ensures profile.Some? ==> profile == res.value.body.value.data
  {
    if res.None? then None
    else if res.value.body.None? || !res.value.body.value.success then None
    else res.value.body.value.data
  }

  /**
   * The fetchers never look at the HTTP status: a response of any status is read by its envelope
   * alone, so a non-2xx response that carries `success: true` is taken as delivered.
   */
  lemma {:induction false} ListIgnoresStatus<T>(status: int, other: int, body: ListBody<T>)
    ensures ListFrom(Some(Response(status, body))) == ListFrom(Some(Response(other, body)))
  {
  }
}
