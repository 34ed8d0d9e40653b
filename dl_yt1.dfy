/** plugins/dl-yt1.js: the audio download command. What is modelled is the
    decision the handler takes before any external tool runs (is there a URL,
    is it a YouTube link), the `--cookies` option it passes to yt-dlp, and the
    file name it derives from the video title. */
module YtAudio {
  import opened Js
  import opened YoutubeUrl

  // ---------------------------------------------------------------------
  // sanitizeFileName (plugins/dl-yt1.js:38-43)

  /** The characters of the class `[<>:"/\\|?*]`. */
  predicate IsReserved(c: char) {
    c == '<' || c == '>' || c == ':' || c == '"' || c == '/' || c == '\\'
    || c == '|' || c == '?' || c == '*'
  }

  predicate NoReserved(s: string) {
    forall k :: 0 <= k < |s| ==> !IsReserved(s[k])
  }

  /** `title.replace(/[<>:"/\\|?*]+/g, '_')`: scanning left to right, each
      maximal run of reserved characters becomes one `_`. */
  function ReplaceReservedRuns(s: string): (r: string)
    decreases |s|
    ensures NoReserved(r)
    ensures |r| <= |s|
  {
    if s == [] then []
    else if IsReserved(s[0]) then
      var e := RunEnd(s, 0, IsReserved);
      "_" + ReplaceReservedRuns(s[e..])
    else [s[0]] + ReplaceReservedRuns(s[1..])
  }

  /** `sanitizeFileName(title)`: the runs replaced, then the first 100 code
      units (`substring(0, 100)`). */
  function SanitizeFileName(title: string): (r: string)
    ensures NoReserved(r)
    ensures |r| <= 100
    ensures |r| == if |ReplaceReservedRuns(title)| < 100 then |ReplaceReservedRuns(title)| else 100
    ensures r <= ReplaceReservedRuns(title)
  {
    var replaced := ReplaceReservedRuns(title);
    if |replaced| <= 100 then replaced else replaced[..100]
  }

  // A reference reading of the replacement, one input position at a time:
  // a kept character stays, the first character of a reserved run becomes
  // `_`, and the rest of the run disappears.

  function Piece(s: string, i: nat): string
    requires i < |s|
  {
    if !IsReserved(s[i]) then [s[i]]
    else if i > 0 && IsReserved(s[i - 1]) then []
    else "_"
  }

  function PiecesFrom(s: string, i: nat): string
    decreases |s| - i
  {
    if i >= |s| then [] else Piece(s, i) + PiecesFrom(s, i + 1)
  }

  /** The pieces of a suffix agree with those of the whole text from the
      point where the suffix starts, unless that point is in the middle of a
      reserved run. */
  lemma {:induction false} PiecesOfSuffix(s: string, k: nat, i: nat)
    requires k <= i <= |s|
    requires k == 0 || k == |s| || !IsReserved(s[k - 1]) || !IsReserved(s[k])
    ensures PiecesFrom(s, i) == PiecesFrom(s[k..], i - k)
    decreases |s| - i
  {
    if i < |s| {
      assert Piece(s, i) == Piece(s[k..], i - k);
      PiecesOfSuffix(s, k, i + 1);
    }
  }

  /** Inside a reserved run, every position after the first contributes
      nothing. */
  lemma {:induction false} PiecesInsideRun(s: string, i: nat, e: nat)
    requires 1 <= i <= e <= |s|
    requires forall k :: 0 <= k < e ==> IsReserved(s[k])
    ensures PiecesFrom(s, i) == PiecesFrom(s, e)
    decreases e - i
  {
    if i < e {
      assert Piece(s, i) == [];
      PiecesInsideRun(s, i + 1, e);
    }
  }

  /** The replacement is the position-by-position reading. */
  lemma {:induction false} ReplaceRunsPiecewise(s: string)
    ensures ReplaceReservedRuns(s) == PiecesFrom(s, 0)
    decreases |s|
  {
    if s != [] {
      if IsReserved(s[0]) {
        var e := RunEnd(s, 0, IsReserved);
        PiecesInsideRun(s, 1, e);
        PiecesOfSuffix(s, e, e);
        ReplaceRunsPiecewise(s[e..]);
      } else {
        PiecesOfSuffix(s, 1, 1);
        ReplaceRunsPiecewise(s[1..]);
      }
    }
  }

  /** Text without reserved characters is left as it is. */
  lemma {:induction false} ReplaceRunsOfClean(s: string)
    requires NoReserved(s)
    ensures ReplaceReservedRuns(s) == s
    decreases |s|
  {
    if s != [] {
      ReplaceRunsOfClean(s[1..]);
    }
  }

  /** Sanitizing a sanitized name changes nothing. */
  lemma {:induction false} SanitizeIdempotent(title: string)
    ensures SanitizeFileName(SanitizeFileName(title)) == SanitizeFileName(title)
  {
    ReplaceRunsOfClean(SanitizeFileName(title));
  }

  // ---------------------------------------------------------------------
  // The cookie option (plugins/dl-yt1.js:16, 28)

  /** `cookiesPath ? `--cookies "${cookiesPath}"` : ''`: no path, or the
      empty path (which JavaScript treats as false), gives no option. */
  function CookieOption(cookiesPath: Option<string>): (r: string)
    ensures r == [] <==> (cookiesPath.None? || cookiesPath.value == [])
    ensures r != [] ==> cookiesPath.Some? && |r| == |cookiesPath.value| + 12
                        && HasPrefix(r, "--cookies \"") && r[|r| - 1] == '"'
                        && r[11..|r| - 1] == cookiesPath.value
  {
    match cookiesPath
    case None => ""
    case Some(p) => if p == [] then "" else "--cookies \"" + p + "\""
  }

  // ---------------------------------------------------------------------
  // The handler's decisions (plugins/dl-yt1.js:45-98)

  /** What the command does with its arguments and the outcomes of the
      external steps: the title lookup (`None` when yt-dlp fails), the audio
      download and the upload. */
  datatype AudioResult =
    | AskForUrl                        // no argument: "Please provide a YouTube URL."
    | InvalidUrl                       // not a YouTube link: nothing is downloaded
    | Sent(url: string, fileName: string)
    | Failed(url: string)              // a step failed: the error is replied

  function Handler(args: seq<string>, title: Option<string>, downloaded: bool, sent: bool): (r: AudioResult)
    ensures r.AskForUrl? <==> args == []
    ensures r.InvalidUrl? <==> args != [] && !IsYoutubeUrl(Join(args, " "))
    ensures (r.Sent? || r.Failed?) ==> r.url == Join(args, " ") && IsYoutubeUrl(r.url)
    ensures r.Sent? <==> args != [] && IsYoutubeUrl(Join(args, " ")) && title.Some? && downloaded && sent
    ensures r.Sent? ==> r.fileName == SanitizeFileName(title.value) + ".mp3"
  {
    if args == [] then AskForUrl
    else
      var url := Join(args, " ");
      if !IsYoutubeUrl(url) then InvalidUrl
      else match title
        case None => Failed(url)
        case Some(t) =>
          if downloaded && sent then Sent(url, SanitizeFileName(t) + ".mp3") else Failed(url)
  }
}
