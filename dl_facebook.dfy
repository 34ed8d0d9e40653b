/** plugins/dl-facebook.js: the Facebook video command. Modelled: the link
    normalisation (`normalizeUrl`), the link pattern the normalised link must
    pass (`urlRegex`), the extraction of the downloaded file's path from
    yt-dlp's output, and the size above which the file goes out as a
    document. */
module Facebook {
  import opened Js
  import opened YoutubeUrl

  datatype Result<+T> = Ok(value: T) | Err(message: string)

  const InvalidUrlMessage := "\U{26A0}\U{FE0F} PLEASE GIVE A VALID URL."
  const SharePrefix := "https://www.facebook.com/share/v/"

  // ---------------------------------------------------------------------
  // normalizeUrl (plugins/dl-facebook.js:14-26)

  /** The length of the marker `videos/`, `share/v/` or `share/r/` that
      starts at `i`, or 0 when none does. The alternatives start with
      different text, so at most one of them can occur at `i`. */
  function MarkerAt(s: string, i: nat): (n: nat)
    ensures n == 0 <==> !OccursAt(s, "videos/", i) && !OccursAt(s, "share/v/", i) && !OccursAt(s, "share/r/", i)
    ensures n == 7 ==> OccursAt(s, "videos/", i)
    ensures n == 8 ==> OccursAt(s, "share/v/", i) || OccursAt(s, "share/r/", i)
    ensures n == 0 || n == 7 || n == 8
  {
    if OccursAt(s, "videos/", i) then 7
    else if OccursAt(s, "share/v/", i) || OccursAt(s, "share/r/", i) then 8
    else 0
  }

  /** `(?:videos|share\/(?:v|r))\/([a-zA-Z0-9]+)` matches at `i`: a marker,
      then at least one letter or digit. */
  predicate IdMatchAt(s: string, i: nat) {
    var n := MarkerAt(s, i);
    n > 0 && i + n < |s| && IsAlnum(s[i + n])
  }

  /** Where `videoIdRegex` first matches in `url`, if anywhere. */
  function FirstIdMatch(url: string): (r: Option<nat>)
    ensures r.Some? ==> IdMatchAt(url, r.value) && forall j: nat :: j < r.value ==> !IdMatchAt(url, j)
    ensures r.None? ==> forall i: nat :: i < |url| ==> !IdMatchAt(url, i)
  {
    var p := (i: nat) => IdMatchAt(url, i);
    var r := FirstIndex(0, |url|, p);
    assert r.None? ==> forall i: nat :: i < |url| ==> !IdMatchAt(url, i) by {
      forall i: nat | i < |url| && r.None? ensures !IdMatchAt(url, i) { assert !p(i); }
    }
    assert r.Some? ==> forall j: nat :: j < r.value ==> !IdMatchAt(url, j) by {
      if r.Some? {
        forall j: nat | j < r.value ensures !IdMatchAt(url, j) { assert !p(j); }
      }
    }
    r
  }

  /** `url.match(videoIdRegex)[1]`: the whole run of letters and digits
      after the marker of the leftmost match. */
  function VideoId(url: string): (r: Option<string>)
    ensures r.None? <==> forall i: nat :: i < |url| ==> !IdMatchAt(url, i)
    ensures r.Some? ==> |r.value| >= 1 && forall k :: 0 <= k < |r.value| ==> IsAlnum(r.value[k])
    ensures r.Some? ==> var i := FirstIdMatch(url).value;
                        var start := i + MarkerAt(url, i);
                        start + |r.value| <= |url| && url[start..start + |r.value|] == r.value
                        && (start + |r.value| == |url| || !IsAlnum(url[start + |r.value|]))
  {
    match FirstIdMatch(url)
    case None => None
    case Some(i) =>
      var start := i + MarkerAt(url, i);
      var end := RunEnd(url, start, IsAlnum);
      Some(url[start..end])
  }

  /** `normalizeUrl(url)`: the share link of the video id, or the thrown
      '⚠️ PLEASE GIVE A VALID URL.'. */
  function NormalizeUrl(url: string): (r: Result<string>)
    ensures r.Err? <==> VideoId(url).None?
    ensures r.Err? ==> r.message == InvalidUrlMessage
    ensures r.Ok? ==> r.value == SharePrefix + VideoId(url).value
  {
    match VideoId(url)
    case None => Err(InvalidUrlMessage)
    case Some(id) => Ok(SharePrefix + id)
  }

  /** No marker starts at a `v`-less position whose `s` is not followed by
      `h`. */
  lemma NoMarkerAt(s: string, i: nat)
    requires i + 1 < |s| && s[i] != 'v' && (s[i] == 's' ==> s[i + 1] != 'h')
    ensures MarkerAt(s, i) == 0
  {
    NotOccursAt(s, "videos/", i, 0);
    if s[i] != 's' {
      NotOccursAt(s, "share/v/", i, 0);
      NotOccursAt(s, "share/r/", i, 0);
    } else {
      NotOccursAt(s, "share/v/", i, 1);
      NotOccursAt(s, "share/r/", i, 1);
    }
  }

  /** No marker can start inside the share prefix before its `share/v/`. */
  lemma NoMarkerInPrefix(id: string, i: nat)
    requires i < 25
    ensures MarkerAt(SharePrefix + id, i) == 0
  {
    var s := SharePrefix + id;
    var c0, c1 := SharePrefix[i], SharePrefix[i + 1];
    assert s[i] == c0 && s[i + 1] == c1;
    assert c0 != 'v' && (c0 == 's' ==> c1 != 'h');
    NoMarkerAt(s, i);
  }

  /** The leftmost match in a normalised link is its own `share/v/`, and the
      id it captures is the whole id. */
  lemma {:induction false} VideoIdOfShareLink(id: string)
    requires |id| >= 1 && forall k :: 0 <= k < |id| ==> IsAlnum(id[k])
    ensures VideoId(SharePrefix + id) == Some(id)
  {
    var s := SharePrefix + id;
    assert s[25..33] == "share/v/";
    assert s[33..] == id;
    forall i: nat | i < 25 ensures !IdMatchAt(s, i) {
      NoMarkerInPrefix(id, i);
    }
    IdAtShareMarker(s, 25, 'v', id);
  }

  /** A `share/` marker with nothing matching before it, followed by an id
      that runs to the end, yields that id. */
  lemma IdAtShareMarker(s: string, at: nat, kind: char, id: string)
    requires kind == 'v' || kind == 'r'
    requires |id| >= 1 && forall k :: 0 <= k < |id| ==> IsAlnum(id[k])
    requires at + 8 <= |s| && s[at..at + 8] == "share/" + [kind] + "/" && s[at + 8..] == id
    requires forall i: nat :: i < at ==> !IdMatchAt(s, i)
    ensures VideoId(s) == Some(id)
  {
    MarkerOfShare(s, at, kind);
    assert s[at + 8] == id[0];
    assert IdMatchAt(s, at);
    assert FirstIdMatch(s) == Some(at);
    forall k | at + 8 <= k < |s| ensures IsAlnum(s[k]) {
      assert s[k] == id[k - at - 8];
    }
    RunEndOfAlnum(s, at + 8);
    assert MarkerAt(s, at) == 8;
    assert s[at + 8..|s|] == id;
  }

  /** At a `share/v/` or `share/r/` the marker is eight characters long. */
  lemma MarkerOfShare(s: string, i: nat, kind: char)
    requires kind == 'v' || kind == 'r'
    requires i + 8 <= |s| && s[i..i + 8] == "share/" + [kind] + "/"
    ensures MarkerAt(s, i) == 8
  {
    assert s[i..i + 8][0] == s[i];
    NotOccursAt(s, "videos/", i, 0);
  }

  lemma RunEndOfAlnum(s: string, start: nat)
    requires start <= |s| && forall k :: start <= k < |s| ==> IsAlnum(s[k])
    ensures RunEnd(s, start, IsAlnum) == |s|
    decreases |s| - start
  {
    if start < |s| {
      RunEndOfAlnum(s, start + 1);
    }
  }

  /** Normalising a normalised link gives it back. */
  lemma {:induction false} NormalizeIdempotent(url: string)
    requires NormalizeUrl(url).Ok?
    ensures NormalizeUrl(NormalizeUrl(url).value) == NormalizeUrl(url)
  {
    VideoIdOfShareLink(VideoId(url).value);
  }

  /** A `share/r/` (reel) link becomes the `share/v/` link of the same id,
      when nothing before its marker matches. */
  lemma {:induction false} ReelLinkRewritten(host: string, id: string)
    requires |id| >= 1 && forall k :: 0 <= k < |id| ==> IsAlnum(id[k])
    requires forall i: nat :: i < |host| ==> !IdMatchAt(host + "share/r/" + id, i)
    ensures NormalizeUrl(host + "share/r/" + id) == Ok(SharePrefix + id)
  {
    var s := host + "share/r/" + id;
    assert s[|host|..|host| + 8] == "share/r/";
    assert s[|host| + 8..] == id;
    IdAtShareMarker(s, |host|, 'r', id);
  }

  // ---------------------------------------------------------------------
  // urlRegex (plugins/dl-facebook.js:30-34)

  /** `(?:facebook\.com|fb\.watch)\/.+` */
  predicate FacebookHostAndPath(s: string) {
    || (HasPrefixIgnoringCase(s, "facebook.com/") && |s| > 13 && !IsLineTerminator(s[13]))
    || (HasPrefixIgnoringCase(s, "fb.watch/") && |s| > 9 && !IsLineTerminator(s[9]))
  }

  predicate FacebookWwwHostAndPath(s: string) {
    (HasPrefixIgnoringCase(s, "www.") && FacebookHostAndPath(s[4..])) || FacebookHostAndPath(s)
  }

  /** `urlRegex.test(s)` for `/^(?:https?:\/\/)?(?:www\.)?(?:facebook\.com|fb\.watch)\/.+/i`:
      anchored at the start only, so one character after the `/` is enough. */
  predicate IsFacebookUrl(s: string) {
    || (HasPrefixIgnoringCase(s, "http://") && FacebookWwwHostAndPath(s[7..]))
    || (HasPrefixIgnoringCase(s, "https://") && FacebookWwwHostAndPath(s[8..]))
    || FacebookWwwHostAndPath(s)
  }

  /** Every normalised link passes `urlRegex`, so the handler's second
      rejection (plugins/dl-facebook.js:31-34) can never happen. */
  lemma {:induction false} NormalizedIsFacebookUrl(url: string)
    requires NormalizeUrl(url).Ok?
    ensures IsFacebookUrl(NormalizeUrl(url).value)
  {
    ShareLinkIsFacebookUrl(VideoId(url).value);
  }

  lemma ShareLinkIsFacebookUrl(id: string)
    requires |id| >= 1
    ensures IsFacebookUrl(SharePrefix + id)
  {
    var t := "www.facebook.com/share/v/" + id;
    assert SharePrefix + id == "https://" + t;
    WwwFacebookPath(id);
    SecureScheme("https://" + t, t);
  }

  lemma SecureScheme(s: string, rest: string)
    requires s == "https://" + rest && FacebookWwwHostAndPath(rest)
    ensures IsFacebookUrl(s)
  {
    LiteralPrefix(s, "https://", rest);
  }

  lemma WwwFacebookPath(id: string)
    requires |id| >= 1
    ensures FacebookWwwHostAndPath("www.facebook.com/share/v/" + id)
  {
    var u := "facebook.com/share/v/" + id;
    assert "www.facebook.com/share/v/" + id == "www." + u;
    LiteralPrefix("www." + u, "www.", u);
    FacebookPath(id);
  }

  /** `s` is `p` followed by `rest`, read case-insensitively. */
  lemma LiteralPrefix(s: string, p: string, rest: string)
    requires s == p + rest
    ensures HasPrefixIgnoringCase(s, p) && s[|p|..] == rest
  {
    assert s[..|p|] == p;
    PrefixIgnoringCase(s, p);
  }

  lemma FacebookPath(id: string)
    requires |id| >= 1
    ensures FacebookHostAndPath("facebook.com/share/v/" + id)
  {
    var u := "facebook.com/share/v/" + id;
    assert u == "facebook.com/" + ("share/v/" + id);
    LiteralPrefix(u, "facebook.com/", "share/v/" + id);
    assert u[13] == 's';
  }

  // ---------------------------------------------------------------------
  // The command (plugins/dl-facebook.js:6-34)

  datatype Command =
    | Usage                       // no argument: the example usage is thrown
    | Rejected(message: string)   // the thrown '⚠️ PLEASE GIVE A VALID URL.'
    | Download(url: string)       // yt-dlp runs on the normalised link

  function Handler(args: seq<string>): (r: Command)
    ensures r.Usage? <==> args == [] || args[0] == []
    ensures r.Download? <==> !r.Usage? && NormalizeUrl(args[0]).Ok?
    ensures r.Download? ==> r.url == NormalizeUrl(args[0]).value && IsFacebookUrl(r.url)
    ensures r.Rejected? ==> r.message == InvalidUrlMessage
  {
    if args == [] || args[0] == [] then Usage
    else match NormalizeUrl(args[0])
      case Err(e) => Rejected(e)
      case Ok(normalized) =>
        NormalizedIsFacebookUrl(args[0]);
        if !IsFacebookUrl(normalized) then Rejected(InvalidUrlMessage)
        else Download(normalized)
  }

  // ---------------------------------------------------------------------
  // The downloaded path (plugins/dl-facebook.js:66-73)

  const DestinationMarker := "Destination: "

  /** `/Destination: (.+)/` matches at `i`: the marker, then at least one
      character that is not a line terminator. */
  predicate DestinationAt(s: string, i: nat) {
    OccursAt(s, DestinationMarker, i) && i + 13 < |s| && !IsLineTerminator(s[i + 13])
  }

  function NotLineTerminator(c: char): bool { !IsLineTerminator(c) }

  /** Where `/Destination: (.+)/` first matches in `stdout`, if anywhere. */
  function FirstDestination(stdout: string): (r: Option<nat>)
    ensures r.Some? ==> DestinationAt(stdout, r.value) && forall j: nat :: j < r.value ==> !DestinationAt(stdout, j)
    ensures r.None? ==> forall i: nat :: i < |stdout| ==> !DestinationAt(stdout, i)
  {
    var p := (i: nat) => DestinationAt(stdout, i);
    var r := FirstIndex(0, |stdout|, p);
    assert r.None? ==> forall i: nat :: i < |stdout| ==> !DestinationAt(stdout, i) by {
      forall i: nat | i < |stdout| && r.None? ensures !DestinationAt(stdout, i) { assert !p(i); }
    }
    assert r.Some? ==> forall j: nat :: j < r.value ==> !DestinationAt(stdout, j) by {
      if r.Some? {
        forall j: nat | j < r.value ensures !DestinationAt(stdout, j) { assert !p(j); }
      }
    }
    r
  }

  /** `stdout.match(/Destination: (.+)/)[1]`: the rest of the line after the
      first `Destination: ` that has something after it; `None` when there is
      no match, and the handler then replies that it is unable to fetch the
      video and uploads nothing. */
  function DestinationPath(stdout: string): (r: Option<string>)
    ensures r.None? <==> forall i: nat :: i < |stdout| ==> !DestinationAt(stdout, i)
    ensures r.Some? ==> |r.value| >= 1 && forall k :: 0 <= k < |r.value| ==> !IsLineTerminator(r.value[k])
    ensures r.Some? ==> var start := FirstDestination(stdout).value + 13;
                        var end := start + |r.value|;
                        end <= |stdout| && stdout[start..end] == r.value
                        && (end == |stdout| || IsLineTerminator(stdout[end]))
  {
    match FirstDestination(stdout)
    case None => None
    case Some(i) =>
      var end := RunEnd(stdout, i + 13, NotLineTerminator);
      Some(stdout[i + 13..end])
  }

  // ---------------------------------------------------------------------
  // Document or video (plugins/dl-facebook.js:91)

  const MiB := 1024 * 1024

  /** `stats.size > 64 * 1024 * 1024`: a file of more than 64 MiB goes out
      as a document; one of exactly 64 MiB still goes out as a video. */
  function SendAsDocument(size: nat): (r: bool)
    ensures r <==> size >= 67108865
  {
    size > 64 * MiB
  }
}
