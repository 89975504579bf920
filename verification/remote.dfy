/**
  What the pages get back from the remote API, and what they show the user.
  The network itself is not modelled: each handler receives the settled
  outcome of its `fetch` followed by `response.json()` as a value.
 */
module Remote {
  import opened Wrappers

  /** `Threw`: the fetch rejected or the body was not JSON — the handler's
      `catch` block runs. `Answered`: the response's `ok` flag and its decoded body. */
  datatype Reply<B> = Threw | Answered(ok: bool, body: B)

  /** One `toast(...)` call: title, description and whether it is the destructive variant. */
  datatype Notice = Notice(title: string, description: string, destructive: bool)

  /** JavaScript's `v || fallback` on an optional string field: a missing or
      empty value gives way to the fallback. */
  function OrElse(v: Option<string>, fallback: string): (r: string)
    ensures v.Some? && v.value != "" ==> r == v.value
    ensures v.None? || v.value == "" ==> r == fallback
  {
    if v.Some? && v.value != "" then v.value else fallback
  }
}
