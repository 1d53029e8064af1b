/**
 * Response shutdown and escalating process termination
 * (`closeResponse` and `killProcess` in src/modules/stream/types.js).
 */
module Lifecycle {
  import opened Wrappers
  import opened Text

  /** A JSON reply: a status code and a flat JSON object. */
  datatype Reply = Reply(status: int, body: map<string, string>)

  /** `{ status: "error", text: "Internal Server Error" }` with 500. */
  const InternalError := Reply(500, map["status" := "error", "text" := "Internal Server Error"])

  /**
   * The observable state of an HTTP response: whether headers have gone out,
   * the status codes this model has sent on it, and whether it is destroyed.
   */
  datatype Response = Response(headersSent: bool, statuses: seq<int>, destroyed: bool)

  /** A response nobody has written to yet. */
  const Unsent := Response(false, [], false)

  /**
   * `closeResponse`: send a bare 500 only if no headers went out yet, then
   * destroy the response.
   */
  function CloseResponse(r: Response): (r': Response)
    ensures r'.destroyed && r'.headersSent
    ensures r.statuses <= r'.statuses && |r'.statuses| <= |r.statuses| + 1
    ensures r'.statuses != r.statuses <==> !r.headersSent
    ensures r'.statuses != r.statuses ==> Last(r'.statuses) == 500
  {
    if r.headersSent then r.(destroyed := true)
    else Response(true, r.statuses + [500], true)
  }

  /** A second `closeResponse` sends nothing and changes nothing. */
  lemma CloseResponseIdempotent(r: Response)
    ensures CloseResponse(CloseResponse(r)) == CloseResponse(r)
  {
  }

  /** However many times shutdown runs, a fresh response gets exactly one 500. */
  lemma {:induction false} RepeatedCloseSendsOnce(n: nat)
    requires n >= 1
    ensures CloseRepeatedly(Unsent, n).statuses == [500]
  {
    if n > 1 {
      RepeatedCloseSendsOnce(n - 1);
    }
  }

  function CloseRepeatedly(r: Response, n: nat): Response
  {
    if n == 0 then r else CloseResponse(CloseRepeatedly(r, n - 1))
  }

  datatype Signal = SIGTERM | SIGKILL

  /** A process handle, identified by its pid. */
  type Pid = nat

  /**
   * `killProcess(p)`: the signals sent to `p`. `exitCodeAtDeadline` is
   * `p.exitCode` when the 5-second timer fires (`None` is JavaScript's
   * `null`: still running, or ended by a signal). An undefined process
   * receives nothing.
   */
  function KillProcess(p: Option<Pid>, exitCodeAtDeadline: Option<int>): (signals: seq<Signal>)
    ensures p.None? ==> signals == []
    ensures p.Some? ==> |signals| >= 1 && signals[0] == SIGTERM
    ensures SIGKILL in signals <==> p.Some? && exitCodeAtDeadline.None?
    ensures multiset(signals)[SIGTERM] == if p.Some? then 1 else 0
    ensures multiset(signals)[SIGKILL] <= 1 && |signals| <= 2
  {
    if p.None? then []
    else [SIGTERM] + (if exitCodeAtDeadline.None? then [SIGKILL] else [])
  }
}
