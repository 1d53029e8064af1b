/**
 * The default export of src/modules/stream/stream.js: choose exactly one
 * delivery strategy for a `streamInfo` and answer 500 if it throws.
 */
module Dispatcher {
  import opened Descriptor
  import opened Lifecycle

  /** The five delivery strategies of src/modules/stream/types.js. */
  datatype Strategy =
    | AudioOnly    // streamAudioOnly
    | Pool         // poolStream
    | LiveRender   // streamLiveRender
    | VideoOnly    // streamVideoOnly
    | Default      // streamDefault

  /** The audio-only flag wins over every type except "bridge". */
  predicate AudioOverrides(info: StreamInfo)
  {
    info.isAudioOnly && info.kind != "bridge"
  }

  /** The strategy the dispatcher calls, each case stated both ways. */
  function Dispatch(info: StreamInfo): (s: Strategy)
    ensures s == AudioOnly <==> AudioOverrides(info)
    ensures s == Pool <==> !AudioOverrides(info) && info.kind == "pool"
    ensures s == LiveRender <==> !AudioOverrides(info) && info.kind == "render"
    ensures s == VideoOnly <==> !AudioOverrides(info) && (info.kind == "videoM3U8" || info.kind == "mute")
    ensures s == Default <==>
      !AudioOverrides(info) && info.kind !in {"pool", "render", "videoM3U8", "mute"}
  {
    if AudioOverrides(info) then AudioOnly
    else match info.kind
      case "pool" => Pool
      case "render" => LiveRender
      case "videoM3U8" => VideoOnly
      case "mute" => VideoOnly
      case _ => Default
  }

  /** The outcome of one dispatcher call. */
  datatype Served = Invoked(strategy: Strategy) | Failed(reply: Reply)

  /**
   * One call: `threw` says whether the chosen strategy threw (synchronously,
   * or as a rejected promise the dispatcher awaits); the catch answers 500.
   */
  function Serve(info: StreamInfo, threw: Strategy -> bool): (r: Served)
    ensures r.Invoked? <==> !threw(Dispatch(info))
    ensures r.Invoked? ==> r.strategy == Dispatch(info)
    ensures r.Failed? ==>
      r.reply.status == 500 && r.reply.body == map["status" := "error", "text" := "Internal Server Error"]
  {
    var s := Dispatch(info);
    if threw(s) then Failed(InternalError) else Invoked(s)
  }

  /** A pool request from the API reaches `poolStream`. */
  lemma PoolRequestReachesPool(bid: string, filename: string)
    ensures Dispatch(PoolRequest(bid, filename)) == Pool
  {
  }

  /** A bridge request keeps its type even when it is audio-only. */
  lemma BridgeIgnoresAudioFlag(info: StreamInfo)
    requires info.kind == "bridge"
    ensures Dispatch(info) == Default
    ensures Dispatch(info.(isAudioOnly := true)) == Dispatch(info.(isAudioOnly := false))
  {
  }
}
