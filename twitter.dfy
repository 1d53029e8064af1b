/**
 * The `/api/twitter` handler of src/core/api.js after the tweet has been
 * fetched: the guest-token headers and the choice among zero, one or many
 * video items. `bestQuality` (from the Twitter service module) and
 * `encodeURIComponent` are parameters.
 */
module Twitter {

  /** One entry of `video_info.variants`. */
  datatype Variant = Variant(url: string, bitrate: int, contentType: string)

  /** One item of `extended_entities.media`. */
  datatype Media = Media(kind: string, mediaUrlHttps: string, durationMillis: int, variants: seq<Variant>)

  /** One item of the `data` list in a success reply. */
  datatype MediaEntry = MediaEntry(kind: string, thumb: string, durationMillis: int, bestUrl: string)

  /** The reply after media selection: a success with its `data`, or the "no video" error. */
  datatype TwitterReply = Success(data: seq<MediaEntry>) | NoVideo

  const NoVideoText := "Tidak menemukan video dalam tweet ini."

  predicate IsVideo(m: Media)
  {
    m.kind == "video" || m.kind == "animated_gif"
  }

  /**
   * Line 262: `media.filter(...)` keeping videos and animated GIFs, each as
   * often as it occurs; the order is kept (`VideoMediaAppend`).
   */
  function VideoMedia(media: seq<Media>): (r: seq<Media>)
    ensures |r| <= |media|
    ensures forall i :: 0 <= i < |r| ==> IsVideo(r[i])
    ensures forall m :: IsVideo(m) ==> multiset(r)[m] == multiset(media)[m]
  {
    if media == [] then []
    else
      var rest := VideoMedia(media[1..]);
      assert forall i :: 0 < i < |media| ==> media[i] == media[1..][i - 1];
      assert media == [media[0]] + media[1..];
      if IsVideo(media[0]) then [media[0]] + rest else rest
  }

  /**
   * The filter works piece by piece: filtering a concatenation concatenates
   * the filtered pieces. With `VideoMedia([m])` being `[m]` for a video and
   * `[]` otherwise, this fixes the result's order.
   */
  lemma {:induction false} VideoMediaAppend(a: seq<Media>, b: seq<Media>)
    ensures VideoMedia(a + b) == VideoMedia(a) + VideoMedia(b)
  {
    if a == [] {
      assert a + b == b;
    } else {
      assert (a + b)[1..] == a[1..] + b;
      VideoMediaAppend(a[1..], b);
    }
  }

  /** The thumbnail link: the stream endpoint with the encoded image URL. */
  function Thumb(mediaUrl: string, encode: string -> string): string
  {
    "/tools/api/stream?url=" + encode(mediaUrl) + "&filename=image.jpg"
  }

  /** The entry for one item (lines 266-271 and 284-289 build the same fields). */
  function EntryFor(m: Media, bestQuality: seq<Variant> -> string, encode: string -> string): (e: MediaEntry)
    ensures e.kind == m.kind && e.durationMillis == m.durationMillis
    ensures e.bestUrl == bestQuality(m.variants)
    ensures e.thumb == Thumb(m.mediaUrlHttps, encode)
  {
    MediaEntry(m.kind, Thumb(m.mediaUrlHttps, encode), m.durationMillis, bestQuality(m.variants))
  }

  /**
   * Lines 261-300. Several videos give one entry per video, in order; a
   * single video gives its entry when `bestQuality` finds a URL (an empty
   * answer is falsy and leaves the empty `multiple` list as the data); no
   * video gives the error.
   */
  method SelectMedia(media: seq<Media>, bestQuality: seq<Variant> -> string, encode: string -> string)
    returns (reply: TwitterReply)
    ensures var videos := VideoMedia(media);
      && (reply == NoVideo <==> |videos| == 0)
      && (|videos| > 1 ==>
            reply.Success? && |reply.data| == |videos|
            && forall i :: 0 <= i < |videos| ==> reply.data[i] == EntryFor(videos[i], bestQuality, encode))
      && (|videos| == 1 && bestQuality(videos[0].variants) != "" ==>
            reply == Success([EntryFor(videos[0], bestQuality, encode)]))
      && (|videos| == 1 && bestQuality(videos[0].variants) == "" ==> reply == Success([]))
  {
    var videos := VideoMedia(media);
    var multiple: seq<MediaEntry> := [];
    var single := "";
    if |videos| > 1 {
      for i := 0 to |videos|
        invariant |multiple| == i
        invariant forall j :: 0 <= j < i ==> multiple[j] == EntryFor(videos[j], bestQuality, encode)
      {
        multiple := multiple + [MediaEntry(videos[i].kind, Thumb(videos[i].mediaUrlHttps, encode),
                                           videos[i].durationMillis, bestQuality(videos[i].variants))];
      }
    } else if |videos| == 1 {
      single := bestQuality(videos[0].variants);
    } else {
      return NoVideo;
    }
    if single != "" {
      reply := Success([MediaEntry(videos[0].kind, Thumb(videos[0].mediaUrlHttps, encode),
                                   videos[0].durationMillis, single)]);
    } else {
      reply := Success(multiple);
    }
  }

  /**
   * Lines 226-230: after guest activation the request headers point at
   * twitter.com, declare JSON and carry the guest token, also as a cookie;
   * every other header is kept.
   */
  method GuestHeaders(headers: map<string, string>, guestToken: string) returns (h: map<string, string>)
    ensures h.Keys == headers.Keys + {"host", "content-type", "x-guest-token", "cookie"}
    ensures h["host"] == "twitter.com" && h["content-type"] == "application/json"
    ensures h["x-guest-token"] == guestToken && h["cookie"] == "guest_id=v1%3A" + guestToken
    ensures forall k :: k in headers && k !in {"host", "content-type", "x-guest-token", "cookie"} ==>
      h[k] == headers[k]
  {
    h := headers;
    h := h["host" := "twitter.com"];
    h := h["content-type" := "application/json"];
    h := h["x-guest-token" := guestToken];
    h := h["cookie" := "guest_id=v1%3A" + guestToken];
  }
}
