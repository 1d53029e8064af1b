/**
 * The `streamInfo` record that the API layer hands to the stream
 * dispatcher. JavaScript leaves its fields loosely typed; the variants
 * below keep the shapes the strategies actually meet.
 */
module Descriptor {
  import opened Wrappers

  /**
   * `streamInfo.urls`: missing (a pool request carries none), one URL
   * string, or an array of URLs (a render request carries a video URL and
   * an audio URL).
   */
  datatype Urls = Absent | One(url: string) | Many(list: seq<string>)

  /**
   * `streamInfo.metadata`: tags handed to the metadata argument builder and
   * an optional cover-art reference (`undefined` or a string; the empty
   * string is falsy in the source).
   */
  datatype Metadata = Metadata(tags: map<string, string>, cover: Option<string>)

  datatype StreamInfo = StreamInfo(
    kind: string,                 // `type`
    urls: Urls,
    filename: string,
    isAudioOnly: bool,
    audioFormat: string,
    metadata: Option<Metadata>,
    service: string,
    mute: bool,
    copy: bool,
    bid: string)

  /**
   * The record the `/api/pool` route builds, `{ type: 'pool', bid, filename }`:
   * every other field is `undefined`, hence falsy.
   */
  function PoolRequest(bid: string, filename: string): (info: StreamInfo)
    ensures info.kind == "pool" && info.bid == bid && info.filename == filename
    ensures !info.isAudioOnly && info.urls == Absent && info.metadata == None
  {
    StreamInfo("pool", Absent, filename, false, "", None, "", false, false, bid)
  }

  /** A truthy `streamInfo.metadata.cover`. */
  predicate HasCover(metadata: Option<Metadata>)
  {
    metadata.Some? && metadata.value.cover.Some? && metadata.value.cover.value != ""
  }
}
