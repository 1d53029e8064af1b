/**
 * The ffmpeg argument lists of `streamAudioOnly`, `streamVideoOnly` and
 * `streamLiveRender`, and the download file names. The per-format table
 * (`ffmpegArgs`), the metadata argument builder (`metadataManager`) and
 * the thread count (`getThreads()`, as text) are parameters.
 *
 * Each list is specified by a function that lays it out segment by segment;
 * a method builds it step by step as the source does, and lemmas state
 * what the layout guarantees.
 */
module Transcode {
  import opened Wrappers
  import opened Text
  import opened Descriptor

  /** `ffmpegArgs`: argument bundles by name ("copy", "audio", a format name). */
  type ArgTable = map<string, seq<string>>

  /** `metadataManager`: the tag arguments for a metadata record. */
  type MetadataArgs = Metadata -> seq<string>

  /** The text a JavaScript `undefined` element becomes as a process argument. */
  const Undefined := "undefined"

  /** `args.concat(ffmpegArgs[key])`: a missing entry adds one `undefined` element. */
  function TableArgs(table: ArgTable, key: string): (r: seq<string>)
    ensures key in table ==> r == table[key]
    ensures key !in table ==> r == [Undefined]
  {
    if key in table then table[key] else [Undefined]
  }

  /** A value of `streamInfo.urls` as a process argument: its string conversion. */
  function UrlArg(urls: Urls): string
  {
    match urls
    case Absent => Undefined
    case One(u) => u
    case Many(l) => if l == [] then "" else JoinWith(l, ',')
  }

  /** The opening arguments every builder shares. */
  function Header(threads: string, input: string): (r: seq<string>)
    ensures |r| == 6
  {
    ["-loglevel", "-8", "-threads", threads, "-i", input]
  }

  // ---------------------------------------------------------------------
  // Audio-only remux

  /** The output format name: ffmpeg knows the m4a container as "ipod". */
  function AudioOutputFormat(audioFormat: string): (f: string)
    ensures audioFormat == "m4a" ==> f == "ipod"
    ensures audioFormat != "m4a" ==> f == audioFormat
  {
    if audioFormat == "m4a" then "ipod" else audioFormat
  }

  /** The cover art as a second input mapped beside the audio, or no video at all. */
  function CoverOrNoVideo(metadata: Option<Metadata>): (r: seq<string>)
    ensures |r| >= 1
    ensures r[0] == "-vn" <==> !HasCover(metadata)
  {
    if HasCover(metadata) then ["-i", metadata.value.cover.value, "-map", "0:a", "-map", "1:0"]
    else ["-vn"]
  }

  /** The encode preset: stream copy or re-encode. */
  function AudioPreset(table: ArgTable, copy: bool): (r: seq<string>)
    ensures copy ==> r == TableArgs(table, "copy")
    ensures !copy ==> r == TableArgs(table, "audio")
  {
    TableArgs(table, if copy then "copy" else "audio")
  }

  /** Format overrides exist only where the table has an entry for the format. */
  function FormatOverrides(table: ArgTable, format: string): (r: seq<string>)
    ensures format in table ==> r == table[format]
    ensures format !in table ==> r == []
  {
    if format in table then table[format] else []
  }

  function MetadataPart(metadata: Option<Metadata>, metaArgs: MetadataArgs): seq<string>
  {
    if metadata.Some? then metaArgs(metadata.value) else []
  }

  /** The layout of the audio-only argument list. */
  function AudioOnlyArgs(info: StreamInfo, threads: string, table: ArgTable, metaArgs: MetadataArgs): seq<string>
  {
    Header(threads, UrlArg(info.urls))
    + CoverOrNoVideo(info.metadata)
    + MetadataPart(info.metadata, metaArgs)
    + AudioPreset(table, info.copy)
    + FormatOverrides(table, info.audioFormat)
    + ["-f", AudioOutputFormat(info.audioFormat), "pipe:3"]
  }

  /** Lines 318-339: the list grown by `push` and `concat`, in the source's order. */
  method BuildAudioOnlyArgs(info: StreamInfo, threads: string, table: ArgTable, metaArgs: MetadataArgs)
    returns (args: seq<string>)
    ensures args == AudioOnlyArgs(info, threads, table, metaArgs)
  {
    args := ["-loglevel", "-8", "-threads", threads, "-i", UrlArg(info.urls)];
    if info.metadata.Some? {
      var m := info.metadata.value;
      if m.cover.Some? && m.cover.value != "" {
        args := args + ["-i", m.cover.value, "-map", "0:a", "-map", "1:0"];
      } else {
        args := args + ["-vn"];
      }
      args := args + metaArgs(m);
    } else {
      args := args + ["-vn"];
    }
    var preset := if info.copy then TableArgs(table, "copy") else TableArgs(table, "audio");
    args := args + preset;
    if info.audioFormat in table {
      args := args + table[info.audioFormat];
    }
    args := args + ["-f", if info.audioFormat == "m4a" then "ipod" else info.audioFormat, "pipe:3"];
  }

  /**
   * What the audio-only list guarantees: it reads the URL; `-vn` follows the
   * input exactly when there is no cover, and a cover adds a second input
   * mapped as `0:a` and `1:0`; then come the metadata arguments (only
   * with metadata), the preset, and the format overrides, each in its own
   * slot; the list ends with the output format and pipe 3.
   */
  lemma AudioOnlyArgsLayout(info: StreamInfo, threads: string, table: ArgTable, metaArgs: MetadataArgs)
    ensures var args := AudioOnlyArgs(info, threads, table, metaArgs);
      var preset := AudioPreset(table, info.copy);
      var overrides := FormatOverrides(table, info.audioFormat);
      && |args| >= 10
      && args[..6] == ["-loglevel", "-8", "-threads", threads, "-i", UrlArg(info.urls)]
      && (args[6] == "-vn" <==> !HasCover(info.metadata))
      && (HasCover(info.metadata) ==>
            args[6..12] == ["-i", info.metadata.value.cover.value, "-map", "0:a", "-map", "1:0"])
      && (!HasCover(info.metadata) ==> args[6..7] == ["-vn"])
      && 7 + (if HasCover(info.metadata) then 5 else 0) <= |args| - 3 - |overrides| - |preset|
      && args[7 + (if HasCover(info.metadata) then 5 else 0)..|args| - 3 - |overrides| - |preset|]
         == MetadataPart(info.metadata, metaArgs)
      && args[|args| - 3 - |overrides| - |preset|..|args| - 3 - |overrides|] == preset
      && args[|args| - 3 - |overrides|..|args| - 3] == overrides
      && args[|args| - 3..] == ["-f", AudioOutputFormat(info.audioFormat), "pipe:3"]
  {
    var head := Header(threads, UrlArg(info.urls));
    var cover := CoverOrNoVideo(info.metadata);
    var meta := MetadataPart(info.metadata, metaArgs);
    var preset := AudioPreset(table, info.copy);
    var overrides := FormatOverrides(table, info.audioFormat);
    var tail := ["-f", AudioOutputFormat(info.audioFormat), "pipe:3"];
    var args := AudioOnlyArgs(info, threads, table, metaArgs);
    assert args == (head + cover + meta) + preset + (overrides + tail);
    assert args[6..6 + |cover|] == cover;
  }

  /** The file name announced for audio-only output always carries the audio format. */
  function AudioOnlyFilename(info: StreamInfo): (name: string)
    ensures '.' !in info.audioFormat ==> AfterLastDot(name) == info.audioFormat
    ensures |name| == |info.filename| + 1 + |info.audioFormat|
    ensures name[..|info.filename|] == info.filename && name[|info.filename|] == '.'
    ensures name[|info.filename| + 1..] == info.audioFormat
  {
    AfterLastDotOfAppended(info.filename, info.audioFormat);
    info.filename + "." + info.audioFormat
  }

  /**
   * `streamDefault`'s download name (line 76): the audio-only name when the
   * request is audio-only, the plain file name otherwise.
   */
  function DefaultFilename(info: StreamInfo): (name: string)
    ensures info.isAudioOnly ==> name == AudioOnlyFilename(info)
    ensures !info.isAudioOnly ==> name == info.filename
  {
    if info.isAudioOnly then AudioOnlyFilename(info) else info.filename
  }

  // ---------------------------------------------------------------------
  // Video-only remux

  /** `streamInfo.filename.split('.')` last piece: the container format. */
  function FormatOf(filename: string): string
  {
    AfterLastDot(filename)
  }

  predicate NeedsAdtsFilter(service: string)
  {
    service == "vimeo" || service == "rutube"
  }

  /** The layout of the video-only argument list. */
  function VideoOnlyArgs(info: StreamInfo, threads: string): seq<string>
  {
    var format := FormatOf(info.filename);
    Header(threads, UrlArg(info.urls)) + ["-c", "copy"]
    + (if info.mute then ["-an"] else [])
    + (if NeedsAdtsFilter(info.service) then ["-bsf:a", "aac_adtstoasc"] else [])
    + (if format == "mp4" then ["-movflags", "faststart+frag_keyframe+empty_moov"] else [])
    + ["-f", format, "pipe:3"]
  }

  /** Lines 366-377, step by step. */
  method BuildVideoOnlyArgs(info: StreamInfo, threads: string) returns (args: seq<string>)
    ensures args == VideoOnlyArgs(info, threads)
  {
    args := ["-loglevel", "-8", "-threads", threads, "-i", UrlArg(info.urls), "-c", "copy"];
    if info.mute {
      args := args + ["-an"];
    }
    if info.service == "vimeo" || info.service == "rutube" {
      args := args + ["-bsf:a", "aac_adtstoasc"];
    }
    var pieces := Split(info.filename, '.');
    var format := pieces[|pieces| - 1];
    if format == "mp4" {
      args := args + ["-movflags", "faststart+frag_keyframe+empty_moov"];
    }
    args := args + ["-f", format, "pipe:3"];
  }

  /**
   * What the video-only list guarantees, each option in its place: `-an`
   * right after the stream copy exactly when muted; then the ADTS-to-ASC
   * filter exactly for vimeo and rutube; then the fast-start flags exactly
   * for mp4; and last the format taken from the file name, to pipe 3.
   */
  lemma VideoOnlyArgsLayout(info: StreamInfo, threads: string)
    ensures var args := VideoOnlyArgs(info, threads);
      var format := FormatOf(info.filename);
      var k := 8 + (if info.mute then 1 else 0);
      var m := k + (if NeedsAdtsFilter(info.service) then 2 else 0);
      && |args| == m + (if format == "mp4" then 2 else 0) + 3
      && args[..8] == ["-loglevel", "-8", "-threads", threads, "-i", UrlArg(info.urls), "-c", "copy"]
      && (args[8] == "-an" <==> info.mute)
      && (args[k] == "-bsf:a" <==> NeedsAdtsFilter(info.service))
      && (NeedsAdtsFilter(info.service) ==> args[k + 1] == "aac_adtstoasc")
      && (args[m] == "-movflags" <==> format == "mp4")
      && (format == "mp4" ==> args[m + 1] == "faststart+frag_keyframe+empty_moov")
      && args[|args| - 3..] == ["-f", format, "pipe:3"]
  {
  }

  // ---------------------------------------------------------------------
  // Live render

  /** `streamInfo.urls.length`: a string's length counts characters; a missing value throws. */
  function UrlsLength(urls: Urls): Option<nat>
  {
    match urls
    case Absent => None
    case One(u) => Some(|u|)
    case Many(l) => Some(|l|)
  }

  /** `streamInfo.urls[i]`: for a string, its i-th character. */
  function UrlAt(urls: Urls, i: nat): string
    requires UrlsLength(urls).Some? && i < UrlsLength(urls).value
  {
    match urls
    case One(u) => [u[i]]
    case Many(l) => l[i]
  }

  /** The layout of the live-render argument list for two tracks. */
  function LiveRenderArgs(info: StreamInfo, threads: string, table: ArgTable, metaArgs: MetadataArgs,
                          outputPath: string): seq<string>
    requires UrlsLength(info.urls) == Some(2)
  {
    var format := FormatOf(info.filename);
    Header(threads, UrlAt(info.urls, 0)) + ["-i", UrlAt(info.urls, 1), "-map", "0:v", "-map", "1:a"]
    + TableArgs(table, format)
    + MetadataPart(info.metadata, metaArgs)
    + ["-f", format, outputPath]
  }

  /** Lines 213-225, step by step. */
  method BuildLiveRenderArgs(info: StreamInfo, threads: string, table: ArgTable, metaArgs: MetadataArgs,
                             outputPath: string) returns (args: seq<string>)
    requires UrlsLength(info.urls) == Some(2)
    ensures args == LiveRenderArgs(info, threads, table, metaArgs, outputPath)
  {
    var pieces := Split(info.filename, '.');
    var format := pieces[|pieces| - 1];
    args := ["-loglevel", "-8", "-threads", threads, "-i", UrlAt(info.urls, 0), "-i", UrlAt(info.urls, 1),
             "-map", "0:v", "-map", "1:a"];
    args := args + TableArgs(table, format);
    if info.metadata.Some? {
      args := args + metaArgs(info.metadata.value);
    }
    args := args + ["-f", format, outputPath];
  }

  /**
   * What the live-render list guarantees: two inputs, the first one's video
   * mapped with the second one's audio, then the format's table entry, then
   * metadata arguments only when metadata is present, and last the format
   * and the output file.
   */
  lemma LiveRenderArgsLayout(info: StreamInfo, threads: string, table: ArgTable, metaArgs: MetadataArgs,
                             outputPath: string)
    requires UrlsLength(info.urls) == Some(2)
    ensures var args := LiveRenderArgs(info, threads, table, metaArgs, outputPath);
      var format := FormatOf(info.filename);
      var entry := TableArgs(table, format);
      && args[..12] == ["-loglevel", "-8", "-threads", threads, "-i", UrlAt(info.urls, 0),
                        "-i", UrlAt(info.urls, 1), "-map", "0:v", "-map", "1:a"]
      && args[12..12 + |entry|] == entry
      && (info.metadata.None? ==> |args| == 15 + |entry|)
      && (info.metadata.Some? ==>
            args[12 + |entry|..|args| - 3] == metaArgs(info.metadata.value))
      && args[|args| - 3..] == ["-f", format, outputPath]
  {
    var args := LiveRenderArgs(info, threads, table, metaArgs, outputPath);
    var head := Header(threads, UrlAt(info.urls, 0)) + ["-i", UrlAt(info.urls, 1), "-map", "0:v", "-map", "1:a"];
    var entry := TableArgs(table, FormatOf(info.filename));
    var meta := MetadataPart(info.metadata, metaArgs);
    assert args == head + entry + meta + ["-f", FormatOf(info.filename), outputPath];
    assert |head| == 12;
  }
}
