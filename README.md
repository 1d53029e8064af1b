# Stream delivery core of the cobalt media gateway, in Dafny

This project models the decision and argument-building logic of the
gateway's streaming layer:

- the stream dispatcher, which picks exactly one delivery strategy for a
  `streamInfo` record (`src/modules/stream/stream.js`);
- the ffmpeg argument lists of the audio-only remux, the video-only remux
  and the live two-track render, and the download file names
  (`src/modules/stream/types.js`);
- the early checks of the pooled-job endpoint: `isBidHex`,
  `validateFilePath` over a model of `path.resolve`, and the 25-second
  pending reply;
- the job registry, the two module-level maps `ongoingProcesses` and
  `ongoingSpawn`, as a class whose methods are the events that update
  them (spawn registered, process error, process exit, process close,
  read-stream close), together with the start of a live-render job;
- `closeResponse` as a transition on the response state, and `killProcess`
  as the SIGTERM-then-conditional-SIGKILL decision;
- request classification in `src/core/api.js`: the `/api/:type` switch
  (including the fall-through from `pool` into `stream`), the
  `/api/download` guard, the JSON body check of `/api/json`, and the
  Twitter media selection and guest-token headers.

Files: `wrappers.dfy` (Option), `text.dfy` (split, join, startsWith, the
text after the last dot), `descriptor.dfy` (the `streamInfo` record),
`dispatcher.dfy`, `lifecycle.dfy`, `pool_guard.dfy`, `transcode.dfy`,
`job_registry.dfy`, `api.dfy`, `twitter.dfy`.

Modelling choices that follow the code:

- `streamInfo.urls` is missing, one string, or an array (`Urls`). The
  render path tests `urls.length !== 2`, so a string of two characters
  (each within U+FFFF) passes and its two characters become the inputs; a
  missing `urls` throws and lands in the same shutdown.
- A value that is not a string but ends up in an argument list (an array
  of URLs, `undefined`) is modelled by its string conversion. A missing
  `ffmpegArgs[key]` is concatenated as one `undefined` element.
- The registry keeps the source's two value shapes: the record
  `{status}` and, after a zero exit, the bare string `'finished'`, which
  the pool poll's `.status === 'finished'` test does not recognise.
  The close that follows a zero exit replaces it with the record when
  headers were already sent. `ongoingSpawn` is never cleaned up: every
  event method keeps it unchanged.
- `validateFilePath` resolves `./tmp/<bid>.mp4` against `<cwd>/tmp`, so the
  path it checks is `<cwd>/tmp/tmp/<bid>.mp4`, not the `./tmp/<bid>.mp4`
  the job writes; the model keeps that.
- A render client that disconnects early kills the process and closes the
  response but leaves the registry entry and the file to the exit handler.
- The render job's 25-second timer answers 202 without testing
  `headersSent`, unlike the pool's timer.

## Model

| member | source | states |
|---|---|---|
| `Dispatcher.Dispatch` | src/modules/stream/stream.js:5-23 | audio-only wins over every type but "bridge"; "pool", "render", "videoM3U8"/"mute" and any other type select their strategies, each case stated in both directions |
| `Dispatcher.Serve` | src/modules/stream/stream.js:3-27 | exactly the dispatched strategy is invoked; if it throws, the reply is 500 with `{status:"error", text:"Internal Server Error"}` |
| `Dispatcher.BridgeIgnoresAudioFlag` | src/modules/stream/stream.js:5-8 | a "bridge" request goes to the default passthrough whether or not it is audio-only |
| `Dispatcher.PoolRequestReachesPool` | src/core/api.js:306-308 | the record built by the pool route is dispatched to `poolStream` |
| `Descriptor.PoolRequest` | src/core/api.js:308 | the pool record carries type "pool", the bid and the file name, and is not audio-only |
| `Lifecycle.CloseResponse` | src/modules/stream/types.js:19-22 | the response ends destroyed; a 500 is added exactly when headers were unsent, and nothing else is sent |
| `Lifecycle.CloseResponseIdempotent` | src/modules/stream/types.js:19-22 | a second close changes nothing |
| `Lifecycle.RepeatedCloseSendsOnce` | src/modules/stream/types.js:19-22 | any number of closes of a fresh response sends exactly one 500 |
| `Lifecycle.KillProcess` | src/modules/stream/types.js:24-32 | nothing for an undefined process; otherwise SIGTERM first and once, SIGKILL at most once and exactly when the exit code is still null at the deadline, and no more than these two signals |
| `Text.AfterLastDotIsSuffix` | src/modules/stream/types.js:375 | the format is the suffix of the file name after its last dot, or the whole name when it has no dot |
| `PoolGuard.IsBidHex` | src/modules/stream/types.js:94-97 | a bid accepted by the hex test is non-empty and holds no slash and no dot |
| `PoolGuard.Normalize` | src/modules/stream/types.js:99-101 | normalising proper segments with slash-free pieces yields proper segments only |
| `PoolGuard.BaseDir` | src/modules/stream/types.js:100 | the base directory is the working directory plus `tmp` |
| `PoolGuard.ValidateFilePath` | src/modules/stream/types.js:99-109 | the check as written (resolve against `<cwd>/tmp`, then a bare text prefix test) accepts every path that resolves inside the base |
| `PoolGuard.SiblingResolution` | src/modules/stream/types.js:101 | `../<sibling>/<file>` resolves from the base to `<cwd>/<sibling>/<file>` |
| `PoolGuard.SiblingDirectoryPasses` | src/modules/stream/types.js:104 | the bare prefix test accepts a sibling directory whose name starts with "tmp", although it lies outside the base |
| `PoolGuard.HexBidPathIsContained` | src/modules/stream/types.js:127-132 | for every hex bid the output path resolves inside the base, so both the written and the corrected check pass |
| `PoolGuard.RefusalReply` | src/modules/stream/types.js:114-132 | both early refusals answer 403 with the single field `error`: "Forbidden bid." for a non-hex bid, "Wrong path." for a failed path check |
| `PoolGuard.PoolGate` | src/modules/stream/types.js:111-132 | a non-hex bid is refused ("Forbidden bid.") before anything else; every hex bid passes `validateFilePath` as written and proceeds with output path `./tmp/<bid>.mp4`, which also lies inside the base |
| `PoolGuard.PoolTimeout` | src/modules/stream/types.js:185-190 | after 25 seconds, 202 `{status:"pending", bid}` exactly when no headers were sent |
| `Transcode.TableArgs` | src/modules/stream/types.js:223 | a format without a table entry contributes one `undefined` argument |
| `Transcode.CoverOrNoVideo` | src/modules/stream/types.js:324-333 | the cover part opens with `-vn` exactly when there is no cover art |
| `Transcode.AudioPreset` | src/modules/stream/types.js:335 | the table's "copy" entry for stream copy, its "audio" entry otherwise |
| `Transcode.FormatOverrides` | src/modules/stream/types.js:338 | the table's entry for the audio format when it has one, nothing otherwise |
| `Transcode.AudioOutputFormat` | src/modules/stream/types.js:339 | "m4a" is announced to ffmpeg as "ipod"; every other format as itself |
| `Transcode.BuildAudioOnlyArgs` | src/modules/stream/types.js:318-339 | the list grown step by step equals the audio-only layout |
| `Transcode.AudioOnlyArgsLayout` | src/modules/stream/types.js:318-339 | starts with loglevel, threads and the input; `-vn` follows exactly when there is no cover, and a cover adds a second input mapped `0:a`, `1:0`; then the metadata arguments (nothing without metadata), the copy or audio preset, and the table's overrides for the format, each in its own slot; ends `-f`, format, `pipe:3` |
| `Transcode.AudioOnlyFilename` | src/modules/stream/types.js:352 | the audio-only download name is the file name, a dot, and the audio format, in that order; a dot-free format becomes its extension |
| `Transcode.DefaultFilename` | src/modules/stream/types.js:76 | the passthrough name is the audio-only name exactly when the request is audio-only, else the file name unchanged |
| `Transcode.BuildVideoOnlyArgs` | src/modules/stream/types.js:366-377 | the list grown step by step equals the video-only layout |
| `Transcode.VideoOnlyArgsLayout` | src/modules/stream/types.js:366-377 | begins with loglevel, threads, input and `-c copy`; `-an` exactly when muted; the ADTS-to-ASC filter exactly for vimeo and rutube; `-movflags faststart+frag_keyframe+empty_moov` exactly for mp4; ends `-f`, format, `pipe:3` |
| `Transcode.BuildLiveRenderArgs` | src/modules/stream/types.js:213-225 | the list grown step by step equals the live-render layout |
| `Transcode.LiveRenderArgsLayout` | src/modules/stream/types.js:213-225 | two inputs mapped `0:v` and `1:a`, then the format's table entry, then metadata arguments only when metadata is present, ending `-f`, format, output path |
| `JobRegistry.PollEntryAsWritten` | src/modules/stream/types.js:144-145 | the poll as written throws exactly for a missing entry and reports finished exactly for the record `{status:'finished'}` |
| `JobRegistry.MissingEntryThrows` | src/modules/stream/types.js:144-145 | the poll as written throws for a bid without a registry entry |
| `JobRegistry.PollEntry` | src/modules/stream/types.js:144-145 | the corrected poll never throws, reports finished exactly for the record `{status:'finished'}`, and agrees with the source wherever it does not throw |
| `JobRegistry.Registry.constructor` | src/modules/stream/types.js:12-13 | both maps start empty |
| `JobRegistry.Registry.PollAsWritten` | src/modules/stream/types.js:144-145 | the poll of a job id as written throws exactly when the id has no entry, and is finished exactly when its entry is the finished record |
| `JobRegistry.Registry.Poll` | src/modules/stream/types.js:144-145 | the corrected poll never throws, is finished exactly when the entry is the finished record, and agrees with the poll as written for every id with an entry |
| `JobRegistry.Registry.RegisterSpawn` | src/modules/stream/types.js:234-235 | the process handle and `{status:'pending'}` are stored under the id; nothing else changes |
| `JobRegistry.Registry.ProcessErrored` | src/modules/stream/types.js:248-252 | a process fault deletes the status entry, keeps the handle and removes the file |
| `JobRegistry.Registry.ProcessExited` | src/modules/stream/types.js:254-266 | a non-zero or signal exit deletes the entry, answers 500 only if headers are unsent, and removes the file; a zero exit stores the bare string 'finished', which polls as not finished |
| `JobRegistry.Registry.ProcessClosed` | src/modules/stream/types.js:268-304 | with headers unsent the file is delivered and the registry unchanged; with headers sent `{status:'finished'}` is stored and polls as finished |
| `JobRegistry.Registry.ReadStreamClosed` | src/modules/stream/types.js:172-176 | the entry is deleted and the file removed, so the poll as written would throw on a later request for the same id |
| `JobRegistry.Registry.PoolClientClosed` | src/modules/stream/types.js:134-140 | with headers unsent the registered process (if any) gets exactly the signals of `killProcess` and the file is removed, and in a consistent registry every job with a status gets a signal; otherwise nothing happens |
| `JobRegistry.Registry.PoolTickAsWritten` | src/modules/stream/types.js:143-183 | a tick as written throws exactly when the bid has no entry, and delivers exactly when the entry is the finished record and the file exists |
| `JobRegistry.Registry.PoolTick` | src/modules/stream/types.js:143-183 | the tick on the corrected poll never throws, delivers exactly when the entry is the finished record and the file exists, and agrees with the tick as written for every bid with an entry |
| `JobRegistry.RenderJobLifecycle` | src/modules/stream/types.js:234-304 | a render job polls as not finished after spawn and after a zero exit, and as finished once it closes after headers were sent |
| `JobRegistry.StartLiveRender` | src/modules/stream/types.js:197-235 | no request gives a bare 500; anything but two tracks shuts down with one 500 and leaves the registry untouched; otherwise the render arguments are built for `./tmp/<id>.mp4` and the job is registered as pending |
| `JobRegistry.RenderTimeout` | src/modules/stream/types.js:244-246 | the render timer's reply is the pool's pending reply for the generated id |
| `JobRegistry.RenderClientClosed` | src/modules/stream/types.js:237-242 | when the response's headers are unsent, a render disconnect sends exactly the signals of `killProcess`: one SIGTERM, then one SIGKILL if still running at the deadline, and closes the response with one added 500; after headers nothing happens |
| `Api.JsLength` | src/core/api.js:311-312 | a string's JavaScript length lies between its character count and twice it, and equals the character count exactly when no character lies beyond U+FFFF |
| `Api.AstralCharacterCountsTwice` | src/core/api.js:311-312 | appending a character beyond U+FFFF adds two to the JavaScript length |
| `Api.StreamBranch` | src/core/api.js:310-328 | without `t`, `h`, `e` of JavaScript (UTF-16) lengths 21, 64, 13 the "missing" error; a verifier error is passed on; with `p` the reply is "continue" and nothing streams; otherwise the verified record is streamed |
| `Api.ClassifyApi` | src/core/api.js:305-344 | a pool request with bid and filename streams the pool record; "stream", and "pool" without both, take the stream branch; "serverInfo" exactly gives server information; any other type exactly gives "unknown response type"; "continue" only from pool or stream with `p` |
| `Api.PoolFallsThroughToStream` | src/core/api.js:306-310 | a pool request missing bid or filename is handled exactly as a stream request |
| `Api.PoolWithTokenStreams` | src/core/api.js:306-322 | a pool request without a bid but with a valid token streams the verifier's record |
| `Api.DownloadGuard` | src/core/api.js:122-133 | `downloadVideo` runs exactly when `url` and `filename` are both present, with those values; otherwise nothing answers |
| `Api.JsonBodyAccepted` | src/core/api.js:69-77 | a body is accepted exactly when the Accept header is "application/json", the body has at most 720 bytes and it parses |
| `Api.JsonGate` | src/core/api.js:68-93 | a request whose body the JSON parser does not read passes on; otherwise a body the hook or the strict parse refuses gets 400 with status "error", and the text names the Accept header exactly when that header is wrong, the JSON body otherwise |
| `Api.ScalarBodyRefused` | src/core/api.js:68-93 | a bare number passes the hook but the strict parse refuses it with 400 "invalid json body" |
| `Twitter.VideoMedia` | src/core/api.js:262 | only videos and animated GIFs remain, each exactly as often as in the input |
| `Twitter.VideoMediaAppend` | src/core/api.js:262 | filtering a concatenation concatenates the filtered parts, so the input order is kept |
| `Twitter.EntryFor` | src/core/api.js:266-271 | an entry keeps the item's type and duration, takes the best-quality URL, and links the thumbnail through the stream endpoint with the encoded image URL and `image.jpg` |
| `Twitter.SelectMedia` | src/core/api.js:261-300 | no video gives the error; several give one entry per video in order; one gives its entry, or empty data when no best URL is found |
| `Twitter.GuestHeaders` | src/core/api.js:226-230 | host, content type, guest token and cookie are set from the token; every other header is kept |

## Left out

- Spawning ffmpeg, its stdio pipes and the `pipe()` wiring between streams and the response: operating-system processes and event listeners.
- Outbound HTTP (`downloadVideo`, the body of `streamDefault`, the Instagram handler, the Twitter guest activation and tweet fetch, and the choice of `baseMedia` from the fetched tweet): network clients.
- File-system effects (`access`, `createReadStream`, `unlink`) and timers: a file's existence, the exit code at the kill deadline and whether headers were sent are inputs; read-stream errors are not modelled.
- Races between poll ticks, disconnects and process callbacks: each event is a separate method, and their interleavings are not explored.
- The render job id (a SHA-256 of random bytes and the file name) and the spawned process handle are opaque inputs.
- `ffmpegArgs`, `metadataManager`, `getThreads`, `verifyStream`, `bestQuality` and `encodeURIComponent` are parameters; `contentDisposition`, `apiJSON` (whose status for code 0 is not part of this model), `loc`, `checkJSONPost` and `getJSON` are not part of this model, so response headers and localised texts are left out.
- Express setup, CORS, rate limiters, the `/api/status`, favicon and catch-all routes, the server banner, and the post handler of `/api/json` after the body check.
- `PoolGuard.Normalize`: `path.resolve` is modelled on segment lists with the working directory given already normalised; Windows paths are out of scope.
- `Registry.Poll`: the corrected poll of the first Findings row, which answers "not finished" for a missing entry; the source's poll is `Registry.PollAsWritten`.
- `Registry.PoolTick`: the tick on that corrected poll, which waits where the source's tick throws; the source's tick is `Registry.PoolTickAsWritten`.
- `Api.JsonGate`: whether the body parser reads the body (a body present and a JSON Content-Type) is an input; its size limit, charset decoding and decompression are not modelled, and the strict check looks at the raw bytes.
- `StartLiveRender`: a string `urls` is measured and indexed by characters, not by UTF-16 units, so a string holding a character beyond U+FFFF is counted differently than `urls.length` counts it (Dafny strings cannot hold the lone surrogate halves that `urls[0]` and `urls[1]` would then give).
- `Api.JsLength`: Dafny strings hold no lone surrogates, so a query value carrying one is not modelled.
- Query parameters are single strings; repeated parameters (which Express turns into arrays) are not modelled.
- The `catch` blocks around argument building and the `/api/:type` switch are not modelled, apart from the dispatcher's and the shutdown a missing `urls` causes in the render path.

## Findings

| source | as written | input that shows it | evidently intended | confidence | as-written member | corrected member |
|---|---|---|---|---|---|---|
| src/modules/stream/types.js:144-145 | the poll reads `.status` of `ongoingProcesses.get(bid)` without checking that an entry exists | a pool request for any hex bid with no entry, such as one already delivered (its entry is deleted when the read stream closes): `get` returns `undefined` and the timer callback throws a TypeError | a missing entry should count as "not finished" and the request should end with the 202 pending reply | not executed; high that it throws, the process-wide effect depends on handlers not part of this model | `JobRegistry.PollEntryAsWritten` | `JobRegistry.PollEntry` |
| src/modules/stream/types.js:104 | containment is tested with `resolvedPath.startsWith(basePath)`, with no separator after the base | working directory `/srv`, file path `../tmpx/a`: it resolves to `/srv/tmpx/a`, which starts with `/srv/tmp` | the resolved path must lie inside the base directory | not executed; unreachable from `poolStream`, whose hex-only bid cannot contain `..` or `/` | `PoolGuard.SiblingDirectoryPasses` | `PoolGuard.HexBidPathIsContained` |
