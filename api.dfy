/**
 * Request classification in src/core/api.js: the `/api/:type` switch,
 * the `/api/download` guard and the body check of `/api/json`.
 */
module Api {
  import opened Wrappers
  import opened Descriptor
  import opened Lifecycle

  /** A parsed query string; each parameter is taken as one string. */
  type Query = map<string, string>

  /** A truthy `req.query[key]`: present and not empty. */
  predicate Present(q: Query, key: string)
  {
    key in q && q[key] != ""
  }

  /** The answer of the stream-token verifier, which is not part of this model. */
  datatype VerifyOutcome = Rejected(status: int, error: string) | Verified(info: StreamInfo)

  /** `verifyStream(t, h, e)`. */
  type Verifier = (string, string, string) -> VerifyOutcome

  /** What `/api/:type` does with a request. */
  datatype ApiAction =
    | CallStream(info: StreamInfo)            // `stream(res, info, req)`
    | VerifierError(status: int, text: string)
    | Continue                                // 200 `{ status: "continue" }`
    | ApiError(text: string)                  // `apiJSON(0, { t: text })`
    | ServerInfo                              // 200 with version, commit, branch, ...

  const MissingTokenText := "stream token, hmac, or expiry timestamp is missing"
  const UnknownTypeText := "unknown response type"

  /**
   * JavaScript's `length` of a string: the number of UTF-16 code units, so
   * a character beyond U+FFFF (a surrogate pair) counts twice.
   */
  function JsLength(s: string): (n: nat)
    ensures |s| <= n <= 2 * |s|
    ensures n == |s| <==> forall i :: 0 <= i < |s| ==> s[i] as int <= 0xFFFF
  {
    if s == [] then 0
    else
      assert forall i :: 0 < i < |s| ==> s[i] == s[1..][i - 1];
      (if s[0] as int <= 0xFFFF then 1 else 2) + JsLength(s[1..])
  }

  /** `t`, `h` and `e` present with `toString().length` 21, 64 and 13. */
  predicate TokenShape(q: Query)
  {
    Present(q, "t") && Present(q, "h") && Present(q, "e")
    && JsLength(q["t"]) == 21 && JsLength(q["h"]) == 64 && JsLength(q["e"]) == 13
  }

  function Verify(q: Query, verify: Verifier): VerifyOutcome
    requires TokenShape(q)
  {
    verify(q["t"], q["h"], q["e"])
  }

  /** Lines 310-328, the `stream` case. */
  function StreamBranch(q: Query, verify: Verifier): (r: ApiAction)
    ensures !TokenShape(q) <==> r == ApiError(MissingTokenText)
    ensures TokenShape(q) && Verify(q, verify).Rejected? ==>
      r == VerifierError(Verify(q, verify).status, Verify(q, verify).error)
    ensures r == Continue <==> TokenShape(q) && Verify(q, verify).Verified? && Present(q, "p")
    ensures r.CallStream? <==> TokenShape(q) && Verify(q, verify).Verified? && !Present(q, "p")
    ensures r.CallStream? ==> r.info == Verify(q, verify).info
  {
    if !TokenShape(q) then ApiError(MissingTokenText)
    else match Verify(q, verify)
      case Rejected(status, error) => VerifierError(status, error)
      case Verified(info) => if Present(q, "p") then Continue else CallStream(info)
  }

  /** Lines 305-344: the switch on `req.params.type`; `pool` has no `break`. */
  function ClassifyApi(kind: string, q: Query, verify: Verifier): (r: ApiAction)
    ensures kind == "pool" && Present(q, "bid") && Present(q, "filename") ==>
      r == CallStream(PoolRequest(q["bid"], q["filename"]))
    ensures kind == "serverInfo" <==> r == ServerInfo
    ensures kind !in {"pool", "stream", "serverInfo"} <==> r == ApiError(UnknownTypeText)
    ensures r == Continue ==> kind in {"pool", "stream"} && Present(q, "p")
    ensures kind == "stream" || (kind == "pool" && !(Present(q, "bid") && Present(q, "filename"))) ==>
      r == StreamBranch(q, verify)
  {
    match kind
    case "pool" =>
      if Present(q, "bid") && Present(q, "filename") then CallStream(PoolRequest(q["bid"], q["filename"]))
      else StreamBranch(q, verify)
    case "stream" => StreamBranch(q, verify)
    case "serverInfo" => ServerInfo
    case _ => ApiError(UnknownTypeText)
  }

  /** A pool request without `bid` or `filename` is handled exactly as a stream request. */
  lemma PoolFallsThroughToStream(q: Query, verify: Verifier)
    requires !(Present(q, "bid") && Present(q, "filename"))
    ensures ClassifyApi("pool", q, verify) == ClassifyApi("stream", q, verify)
  {
  }

  /** A pool request carrying a stream token is forwarded to the verifier's stream, not the pool. */
  lemma PoolWithTokenStreams(q: Query, verify: Verifier)
    requires !Present(q, "bid") && TokenShape(q) && Verify(q, verify).Verified? && !Present(q, "p")
    ensures ClassifyApi("pool", q, verify) == CallStream(Verify(q, verify).info)
  {
  }

  // ---------------------------------------------------------------------
  // /api/download

  datatype DownloadAction = CallDownload(url: string, filename: string) | NoResponse

  /** Lines 122-133: `downloadVideo` runs only with a truthy `url` and `filename`; otherwise nothing answers. */
  function DownloadGuard(q: Query): (r: DownloadAction)
    ensures r.CallDownload? <==> Present(q, "url") && Present(q, "filename")
    ensures r.CallDownload? ==> r.url == q["url"] && r.filename == q["filename"]
  {
    if Present(q, "url") && Present(q, "filename") then CallDownload(q["url"], q["filename"])
    else NoResponse
  }

  // ---------------------------------------------------------------------
  // /api/json

  /** `String(req.header('Accept'))`: a missing header reads "undefined". */
  function AcceptText(accept: Option<string>): string
  {
    if accept.Some? then accept.value else "undefined"
  }

  /**
   * Lines 69-77, the `verify` hook of the JSON body parser: it accepts a
   * body of at most 720 bytes that parses (`parses` is what `JSON.parse`
   * decides), and only with the Accept header exactly "application/json".
   */
  function JsonBodyAccepted(accept: Option<string>, body: seq<bv8>, parses: bool): (ok: bool)
    ensures ok <==> accept == Some("application/json") && |body| <= 720 && parses
  {
    if AcceptText(accept) == "application/json" then |body| <= 720 && parses else false
  }

  /** JSON whitespace as the body parser's strict check skips it: space, tab, line feed, carriage return. */
  predicate IsJsonSpace(b: bv8)
  {
    b == 0x20 || b == 0x09 || b == 0x0A || b == 0x0D
  }

  /**
   * The strict mode of the JSON body parser: the first byte after leading
   * whitespace must open an object `{` or an array `[`; a scalar such as
   * `123` is refused even though `JSON.parse` accepts it.
   */
  predicate StrictStart(body: seq<bv8>)
  {
    exists k :: 0 <= k < |body| && (forall j :: 0 <= j < k ==> IsJsonSpace(body[j]))
      && (body[k] == 0x7B || body[k] == 0x5B)
  }

  /**
   * Lines 68-93. `hookRuns` says whether `express.json` reads the body at
   * all: it does so only for a request with a body and a JSON Content-Type
   * (the body parser decides this); otherwise no error reaches the handler
   * and the request passes on. A body the hook refuses, or one the strict
   * parse refuses after it, gets 400, explaining the Accept header when
   * that is what was wrong, the body otherwise.
   */
  function JsonGate(accept: Option<string>, hookRuns: bool, body: seq<bv8>, parses: bool): (r: Option<Reply>)
    ensures r.None? <==> !hookRuns || (JsonBodyAccepted(accept, body, parses) && StrictStart(body))
    ensures r.Some? ==> r.value.status == 400 && r.value.body.Keys == {"status", "text"}
    ensures r.Some? ==> r.value.body["status"] == "error"
    ensures r.Some? ==>
      (r.value.body["text"] == "invalid accept header" <==> accept != Some("application/json"))
    ensures r.Some? ==> r.value.body["text"] in {"invalid accept header", "invalid json body"}
  {
    if !hookRuns || (JsonBodyAccepted(accept, body, parses) && StrictStart(body)) then None
    else
      var text := if AcceptText(accept) != "application/json" then "invalid accept header" else "invalid json body";
      Some(Reply(400, map["status" := "error", "text" := text]))
  }

  /** A JSON scalar passes the hook but not the strict parse: `123` with the right Accept header gets 400. */
  lemma ScalarBodyRefused(body: seq<bv8>)
    requires |body| > 0 && (forall j :: 0 <= j < |body| ==> 0x30 <= body[j] <= 0x39)
    ensures JsonGate(Some("application/json"), true, body, true)
      == Some(Reply(400, map["status" := "error", "text" := "invalid json body"]))
  {
  }

  /** A character beyond U+FFFF counts as two units: a 20-character `t` can have JavaScript length 21. */
  lemma AstralCharacterCountsTwice(s: string, ch: char)
    requires ch as int > 0xFFFF && JsLength(s) == |s|
    ensures JsLength(s + [ch]) == |s| + 2
  {
    JsLengthAppend(s, ch);
  }

  lemma {:induction false} JsLengthAppend(s: string, ch: char)
    ensures JsLength(s + [ch]) == JsLength(s) + (if ch as int <= 0xFFFF then 1 else 2)
  {
    if s != [] {
      assert (s + [ch])[1..] == s[1..] + [ch];
      JsLengthAppend(s[1..], ch);
    }
  }
}
