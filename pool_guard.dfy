/**
 * The checks `poolStream` makes before it touches the job registry, the
 * request listeners or the file system: `isBidHex`, `validateFilePath`
 * (over a model of `path.resolve`), and the 25-second pending reply.
 */
module PoolGuard {
  import opened Text
  import opened Lifecycle
  import opened Wrappers

  /** One character of the class `[0-9a-fA-F]`. */
  predicate IsHexDigit(ch: char)
  {
    ('0' <= ch <= '9') || ('a' <= ch <= 'f') || ('A' <= ch <= 'F')
  }

  /**
   * `/^[0-9a-fA-F]+$/.test(bid)`: non-empty and hexadecimal throughout. A
   * bid that passes holds no path syntax: no slash and no dot.
   */
  predicate IsBidHex(bid: string): (ok: bool)
    ensures ok ==> |bid| > 0 && '/' !in bid && '.' !in bid
  {
    |bid| > 0 && forall i :: 0 <= i < |bid| ==> IsHexDigit(bid[i])
  }

  // ---------------------------------------------------------------------
  // Paths. An absolute path is its list of segments ("/a/b" is ["a", "b"]);
  // the root is the empty list.

  /** A segment of a normalised path. */
  predicate IsSegment(seg: string)
  {
    seg != "" && seg != "." && seg != ".." && '/' !in seg
  }

  /**
   * The normalisation `path.resolve` applies: empty and `.` pieces vanish,
   * `..` drops the last segment (never above the root), any other piece is
   * appended.
   */
  function Normalize(acc: seq<string>, pieces: seq<string>): (r: seq<string>)
    ensures (forall i :: 0 <= i < |acc| ==> IsSegment(acc[i]))
         && (forall j :: 0 <= j < |pieces| ==> '/' !in pieces[j])
         ==> forall i :: 0 <= i < |r| ==> IsSegment(r[i])
    decreases |pieces|
  {
    if pieces == [] then acc
    else
      var p := pieces[0];
      if p == "" || p == "." then Normalize(acc, pieces[1..])
      else if p == ".." then Normalize(if acc == [] then [] else acc[..|acc| - 1], pieces[1..])
      else Normalize(acc + [p], pieces[1..])
  }

  /** `path.resolve(from, p)`: an absolute `p` starts again from the root. */
  function Resolve(from: seq<string>, p: string): seq<string>
  {
    var start := if |p| > 0 && p[0] == '/' then [] else from;
    Normalize(start, Split(p, '/'))
  }

  /** Every segment written after a slash. */
  function JoinSegments(segs: seq<string>): string
  {
    if segs == [] then "" else JoinSegments(segs[..|segs| - 1]) + "/" + Last(segs)
  }

  /** Pieces that are all proper segments are appended as they are. */
  lemma {:induction false} NormalizeSegments(acc: seq<string>, pieces: seq<string>)
    requires forall j :: 0 <= j < |pieces| ==> IsSegment(pieces[j])
    ensures Normalize(acc, pieces) == acc + pieces
    decreases |pieces|
  {
    if pieces != [] {
      NormalizeSegments(acc + [pieces[0]], pieces[1..]);
      assert acc + [pieces[0]] + pieces[1..] == acc + pieces;
    }
  }

  /** The string form of an absolute path; the root is "/". */
  function Render(segs: seq<string>): string
  {
    if segs == [] then "/" else JoinSegments(segs)
  }

  /** A longer path renders as an extension of the shorter one's text. */
  lemma {:induction false} JoinSegmentsPrefix(a: seq<string>, b: seq<string>)
    requires a <= b
    ensures StartsWith(JoinSegments(b), JoinSegments(a))
    decreases |b|
  {
    if |b| > |a| {
      var front := b[..|b| - 1];
      assert a <= front;
      JoinSegmentsPrefix(a, front);
      StartsWithAppend(JoinSegments(front), JoinSegments(a), "/" + Last(b));
      assert JoinSegments(b) == JoinSegments(front) + ("/" + Last(b));
    } else {
      assert a == b;
    }
  }

  /** `path.resolve('./tmp')`, the pool's base directory, from the process's working directory. */
  function BaseDir(cwd: seq<string>): (base: seq<string>)
    ensures base == cwd + ["tmp"]
  {
    assert "./tmp" == "." + ['/'] + "tmp";
    SplitAtFirst(".", '/', "tmp");
    SplitWithoutSeparator("tmp", '/');
    assert Split("./tmp", '/') == ["."] + ["tmp"];
    NormalizeSegments(cwd, ["tmp"]);
    Resolve(cwd, "./tmp")
  }

  /**
   * `validateFilePath` as written: resolve `filePath` against the base and
   * test the resolved text with a bare `startsWith` of the base's text. It
   * never refuses a path that resolves inside the base.
   */
  predicate ValidateFilePath(cwd: seq<string>, filePath: string): (ok: bool)
    ensures ValidateFilePathContained(cwd, filePath) ==> ok
  {
    var base := BaseDir(cwd);
    var resolved := Resolve(base, filePath);
    if Contained(base, resolved) then
      assert base <= resolved;
      JoinSegmentsPrefix(base, resolved);
      StartsWith(Render(resolved), Render(base))
    else
      StartsWith(Render(resolved), Render(base))
  }

  /** The containment the check means to establish: strictly below the base, segment by segment. */
  predicate Contained(base: seq<string>, resolved: seq<string>)
  {
    |base| < |resolved| && resolved[..|base|] == base
  }

  /** `validateFilePath` corrected: the resolved path lies inside the base directory. */
  predicate ValidateFilePathContained(cwd: seq<string>, filePath: string)
  {
    Contained(BaseDir(cwd), Resolve(BaseDir(cwd), filePath))
  }

  /** Appending one segment appends "/" and the segment to the text. */
  lemma RenderAppend(segs: seq<string>, seg: string)
    ensures Render(segs + [seg]) == JoinSegments(segs) + "/" + seg
  {
    assert (segs + [seg])[..|segs|] == segs;
  }

  /** `../<sibling>/<file>` is resolved from the base to `<cwd>/<sibling>/<file>`. */
  lemma SiblingResolution(cwd: seq<string>, sibling: string, file: string)
    requires IsSegment(sibling) && IsSegment(file)
    ensures Resolve(BaseDir(cwd), "../" + sibling + "/" + file) == cwd + [sibling, file]
  {
    var p := "../" + sibling + "/" + file;
    assert p == ".." + ['/'] + (sibling + ['/'] + file);
    SplitAtFirst("..", '/', sibling + ['/'] + file);
    SplitAtFirst(sibling, '/', file);
    SplitWithoutSeparator(file, '/');
    var pieces := Split(p, '/');
    assert pieces == [".."] + [sibling, file];
    var base := BaseDir(cwd);
    assert base[..|base| - 1] == cwd;
    assert Normalize(base, pieces) == Normalize(cwd, [sibling, file]);
    NormalizeSegments(cwd, [sibling, file]);
  }

  /**
   * The check as written lets a sibling directory through: a sibling of
   * `tmp` whose name starts with "tmp" (such as `tmpx`) passes, so
   * `../tmpx/a` is accepted although it resolves outside the base.
   */
  lemma SiblingDirectoryPasses(cwd: seq<string>, sibling: string, file: string)
    requires IsSegment(sibling) && IsSegment(file)
    requires StartsWith(sibling, "tmp") && sibling != "tmp"
    ensures ValidateFilePath(cwd, "../" + sibling + "/" + file)
    ensures !ValidateFilePathContained(cwd, "../" + sibling + "/" + file)
  {
    SiblingResolution(cwd, sibling, file);
    var base := BaseDir(cwd);
    var r := cwd + [sibling, file];
    assert r == (cwd + [sibling]) + [file];
    RenderAppend(cwd + [sibling], file);
    RenderAppend(cwd, sibling);
    RenderAppend(cwd, "tmp");
    var front := JoinSegments(cwd) + "/";
    assert Render(base) == front + "tmp";
    assert Render(r) == front + sibling + "/" + file;
    assert sibling[..3] == "tmp";
    assert Render(r)[..|Render(base)|] == front + sibling[..3];
    assert r[..|base|] == cwd + [sibling];
    assert r[|cwd|] != base[|cwd|];
  }

  /** The output path `poolStream` checks for a bid. */
  function PoolOutputPath(bid: string): string
  {
    "./tmp/" + bid + ".mp4"
  }

  /** The file name of a hex bid's output is one proper segment. */
  lemma HexBidFileIsSegment(bid: string)
    requires IsBidHex(bid)
    ensures IsSegment(bid + ".mp4")
  {
    var file := bid + ".mp4";
    forall i | 0 <= i < |file|
      ensures file[i] != '/'
    {
      if i >= |bid| {
        assert file[i] == ".mp4"[i - |bid|];
      }
    }
  }

  /** A hex bid's output path resolves from the base to `<base>/tmp/<bid>.mp4`. */
  lemma HexBidResolution(cwd: seq<string>, bid: string)
    requires IsBidHex(bid)
    ensures Resolve(BaseDir(cwd), PoolOutputPath(bid)) == BaseDir(cwd) + ["tmp", bid + ".mp4"]
  {
    var file := bid + ".mp4";
    HexBidFileIsSegment(bid);
    assert PoolOutputPath(bid) == "." + ['/'] + ("tmp" + ['/'] + file);
    SplitAtFirst(".", '/', "tmp" + ['/'] + file);
    SplitAtFirst("tmp", '/', file);
    SplitWithoutSeparator(file, '/');
    var base := BaseDir(cwd);
    var pieces := Split(PoolOutputPath(bid), '/');
    assert pieces == ["."] + ["tmp", file];
    assert Normalize(base, pieces) == Normalize(base, ["tmp", file]);
    NormalizeSegments(base, ["tmp", file]);
  }

  /** For a hex bid, the output path resolves inside the base: both checks pass. */
  lemma HexBidPathIsContained(cwd: seq<string>, bid: string)
    requires IsBidHex(bid)
    ensures Resolve(BaseDir(cwd), PoolOutputPath(bid)) == cwd + ["tmp", "tmp", bid + ".mp4"]
    ensures ValidateFilePathContained(cwd, PoolOutputPath(bid))
    ensures ValidateFilePath(cwd, PoolOutputPath(bid))
  {
    HexBidResolution(cwd, bid);
    var base := BaseDir(cwd);
    var r := base + ["tmp", bid + ".mp4"];
    assert r[..|base|] == base;
  }

  /** Where the early checks of `poolStream` leave a request. */
  datatype PoolStart = ForbiddenBid | WrongPath | Proceed(outputPath: string)

  /** The reply for each refusal. */
  function RefusalReply(s: PoolStart): (r: Reply)
    requires !s.Proceed?
    ensures r.status == 403
    ensures r.body.Keys == {"error"}
    ensures r.body["error"] == if s == ForbiddenBid then "Forbidden bid." else "Wrong path."
  {
    if s == ForbiddenBid then Reply(403, map["error" := "Forbidden bid."])
    else Reply(403, map["error" := "Wrong path."])
  }

  /**
   * The early exits of `poolStream`: a non-hex bid is refused before any
   * other step; every hex bid gets past the path check as written, and its
   * output path also lies inside the base directory.
   */
  function PoolGate(cwd: seq<string>, bid: string): (r: PoolStart)
    ensures r == ForbiddenBid <==> !IsBidHex(bid)
    ensures r.Proceed? <==> IsBidHex(bid)
    ensures r.Proceed? ==> r.outputPath == "./tmp/" + bid + ".mp4"
    ensures r.Proceed? ==> ValidateFilePathContained(cwd, r.outputPath)
  {
    if !IsBidHex(bid) then ForbiddenBid
    else
      HexBidPathIsContained(cwd, bid);
      if !ValidateFilePath(cwd, PoolOutputPath(bid)) then WrongPath
      else Proceed(PoolOutputPath(bid))
  }

  /** The 25-second timer: a 202 pending reply naming the bid, unless headers went out. */
  function PoolTimeout(headersSent: bool, bid: string): (r: Option<Reply>)
    ensures r.Some? <==> !headersSent
    ensures r.Some? ==>
      r.value.status == 202 && r.value.body == map["status" := "pending", "bid" := bid]
  {
    if headersSent then None else Some(Reply(202, map["status" := "pending", "bid" := bid]))
  }
}
