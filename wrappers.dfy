/** Optional values and the outcome of a call into the HTTP layer, with the
    two ways the components turn a failure into a message. */
module Wrappers {

  /** A value that may be absent: TypeScript's `undefined` or `null`. */
  datatype Option<+T> = None | Some(value: T)

  /** What a rejected HTTP promise carries: `e.response.data.message` and
      `e.message`, each possibly absent. */
  datatype Failure = Failure(respMsg: Option<string>, msg: Option<string>)

  /** The settled result of an awaited service call. */
  datatype Outcome<+T> = Ok(value: T) | Err(failure: Failure)

  /** `e?.response?.data?.message ?? e?.message ?? fallback`: the first
      message that is present wins, even an empty one. */
  function NullishMessage(f: Failure, fallback: string): (r: string)
    ensures f.respMsg.Some? ==> r == f.respMsg.value
    ensures f.respMsg.None? && f.msg.Some? ==> r == f.msg.value
    ensures f.respMsg.None? && f.msg.None? ==> r == fallback
  {
    match f.respMsg
    case Some(m) => m
    case None => if f.msg.Some? then f.msg.value else fallback
  }

  /** `e?.message || fallback`: an absent or empty message falls back. */
  function FalsyMessage(f: Failure, fallback: string): (r: string)
    ensures r == fallback <==> (f.msg.None? || f.msg.value == "" || f.msg.value == fallback)
    ensures r != fallback ==> f.msg == Some(r)
  {
    if f.msg.Some? && f.msg.value != "" then f.msg.value else fallback
  }

  /** JavaScript truthiness of an optional string: present and non-empty. */
  predicate Truthy(s: Option<string>) {
    s.Some? && s.value != ""
  }

  /** `s || fallback` on an optional string. */
  function StringOr(s: Option<string>, fallback: string): (r: string)
    ensures Truthy(s) ==> r == s.value
    ensures !Truthy(s) ==> r == fallback
  {
    if Truthy(s) then s.value else fallback
  }

  /** `s ?? fallback` on an optional value. */
  function Nullish<T>(s: Option<T>, fallback: T): (r: T)
    ensures s.Some? ==> r == s.value
    ensures s.None? ==> r == fallback
  {
    if s.Some? then s.value else fallback
  }
}
