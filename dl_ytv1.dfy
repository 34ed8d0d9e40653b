/** plugins/dl-ytv1.js: the video download command. The handler checks the
    link, extracts the video id and opens a quality-select session for the
    sender in `conn.ytDownloads`; `handler.before` resolves that session when
    the sender replies to the thumbnail message with a quality number. The
    session logic is given twice: as step functions over a state value (the
    specification, about which the properties are proved) and as the class
    `YtvConn`, whose fields are the connection's `ytDownloads` table and its
    pending timers and whose methods update them in place. */
module YtVideo {
  import opened Js
  import opened Chat
  import opened YoutubeUrl

  // ---------------------------------------------------------------------
  // Video id extraction (plugins/dl-ytv1.js:19-38)

  /** `s.split(sep)[1]`, which is undefined (`None`) when `sep` does not
      occur in `s`. */
  function SecondPiece(s: string, sep: string): (r: Option<string>)
    requires |sep| > 0
    ensures r.Some? <==> |Split(s, sep)| >= 2
  {
    var pieces := Split(s, sep);
    if |pieces| >= 2 then Some(pieces[1]) else None
  }

  /** The name of a `name=value` pair: the text before its first `=`, or
      the whole pair when it has none. */
  function PairName(pair: string): string {
    match IndexOf(pair, "=")
    case None => pair
    case Some(i) => pair[..i]
  }

  /** The value of a `name=value` pair: the text after its first `=`, or
      the empty string when it has none. */
  function PairValue(pair: string): string {
    match IndexOf(pair, "=")
    case None => ""
    case Some(i) => pair[i + 1..]
  }

  predicate PairNamed(pairs: seq<string>, k: nat, name: string) {
    k < |pairs| && pairs[k] != [] && PairName(pairs[k]) == name
  }

  /** The first non-empty pair of `pairs` named `name`. */
  function FirstPair(pairs: seq<string>, name: string): (r: Option<nat>)
    ensures r.Some? ==> PairNamed(pairs, r.value, name) && forall j: nat :: j < r.value ==> !PairNamed(pairs, j, name)
    ensures r.None? ==> forall k: nat :: !PairNamed(pairs, k, name)
  {
    var p := (k: nat) => PairNamed(pairs, k, name);
    var r := FirstIndex(0, |pairs|, p);
    assert r.None? ==> forall k: nat :: !PairNamed(pairs, k, name) by {
      forall k: nat | r.None? ensures !PairNamed(pairs, k, name) {
        if k < |pairs| { assert !p(k); }
      }
    }
    assert r.Some? ==> forall j: nat :: j < r.value ==> !PairNamed(pairs, j, name) by {
      if r.Some? {
        forall j: nat | j < r.value ensures !PairNamed(pairs, j, name) { assert !p(j); }
      }
    }
    r
  }

  /** `new URLSearchParams(query).get(name)`: the value of the first
      non-empty `&`-separated pair with that name; `None` (null) when there
      is none, and when `query` is undefined. A leading `?` would be
      dropped by the constructor, but the query passed here never holds a
      `?` since it is a piece of a split on `?`. */
  function SearchParam(query: Option<string>, name: string): (r: Option<string>)
    ensures query.None? ==> r.None?
    ensures query.Some? ==> (r.None? <==> forall k: nat :: !PairNamed(Split(query.value, "&"), k, name))
    ensures query.Some? && r.Some? ==>
      var pairs := Split(query.value, "&");
      r.value == PairValue(pairs[FirstPair(pairs, name).value])
  {
    match query
    case None => None
    case Some(q) =>
      var pairs := Split(q, "&");
      match FirstPair(pairs, name)
      case None => None
      case Some(k) =>
        assert pairs == Split(query.value, "&") && PairNamed(pairs, k, name);
        assert !forall k: nat :: !PairNamed(Split(query.value, "&"), k, name);
        Some(PairValue(pairs[k]))
  }

  /** The `videoId` the handler computes from the link `url`, once it has
      dropped the query string: the text after `/shorts/` for a Shorts link,
      the last path segment for a `youtu.be/` link, the `v` parameter of the
      query for a `youtube.com/watch` link. It is `None` when the id is
      missing or empty, where the handler throws "Couldn't extract video
      ID". */
  function VideoId(url: string): (r: Option<string>)
    ensures r.Some? ==> |r.value| >= 1
  {
    var cleanUrl := Split(url, "?")[0];
    var candidate :=
      if Includes(cleanUrl, "youtube.com/shorts/") then SecondPiece(cleanUrl, "/shorts/")
      else if Includes(cleanUrl, "youtu.be/") then Some(Last(Split(cleanUrl, "/")))
      else if Includes(cleanUrl, "youtube.com/watch") then SearchParam(SecondPiece(url, "?"), "v")
      else None;
    if candidate.Some? && candidate.value != [] then candidate else None
  }

  /** Text without any of the characters in `cs`. */
  predicate Free(s: string, cs: set<char>) {
    forall k :: 0 <= k < |s| ==> s[k] !in cs
  }

  /** Dropping the query string: the part before the first `?`. */
  lemma CleanUrlOf(base: string, tail: string)
    requires Free(base, {'?'})
    requires tail == [] || tail[0] == '?'
    ensures Split(base + tail, "?")[0] == base
  {
    var s := base + tail;
    NotIncludesChar(base, '?');
    if tail == [] {
      assert s == base;
      SplitOfFree(base, "?");
    } else {
      assert OccursAt(s, "?", |base|);
      forall j: nat | j < |base| ensures !OccursAt(s, "?", j) {
        assert s[j] == base[j];
        NotOccursAt(s, "?", j, 0);
      }
      SplitAt(s, "?", |base|);
      assert s[..|base|] == base;
    }
  }

  const ShortLinkPrefix := "https://youtu.be/"

  /** The link the search flow builds, `https://youtu.be/<id>`, with or
      without a query string, gives back its id whenever the id is
      non-empty and holds no `/` or `?`. */
  lemma {:induction false} ShortLinkRoundTrip(id: string, tail: string)
    requires |id| >= 1 && Free(id, {'/', '?'})
    requires tail == [] || tail[0] == '?'
    ensures VideoId(ShortLinkPrefix + id + tail) == Some(id)
  {
    var base := ShortLinkPrefix + id;
    assert Free(id, {'?'});
    PrefixedFree(ShortLinkPrefix, id, '?');
    CleanUrlOf(base, tail);
    ShortLinkNotShorts(id);
    assert base[8..17] == "youtu.be/";
    IncludesAt(base, "youtu.be/", 8);
    NotIncludesChar(id, '/');
    assert base == "https://youtu.be" + ['/'] + id;
    SplitAppendPiece("https://youtu.be", '/', id);
  }

  /** A short link is not a Shorts link: its id holds no `/`. */
  lemma ShortLinkNotShorts(id: string)
    requires Free(id, {'/'})
    ensures !Includes(ShortLinkPrefix + id, "youtube.com/shorts/")
  {
    var base := ShortLinkPrefix + id;
    var sub := "youtube.com/shorts/";
    forall i: nat ensures !OccursAt(base, sub, i) {
      if i < 6 {
        assert base[i] == ShortLinkPrefix[i];
        NotOccursAt(base, sub, i, 0);
      } else if i + 11 < |base| {
        assert base[i + 11] == id[i + 11 - 17];
        NotOccursAt(base, sub, i, 11);
      } else {
        NotOccursAt(base, sub, i, 11);
      }
    }
    NotIncludes(base, sub);
  }

  /** A Shorts link as the link pattern admits it: an optional scheme, an
      optional `www.`, then `youtube.com/shorts/` and the id. */
  function ShortsLink(scheme: string, www: string, id: string): string {
    scheme + www + "youtube.com/shorts/" + id
  }

  /** A Shorts link, with any scheme and `www.` part the link pattern
      admits, gives back its id, with or without a query string. */
  lemma {:induction false} ShortsRoundTrip(scheme: string, www: string, id: string, tail: string)
    requires scheme in Schemes && www in WwwParts
    requires |id| >= 1 && Free(id, {'/', '?'})
    requires tail == [] || tail[0] == '?'
    ensures VideoId(ShortsLink(scheme, www, id) + tail) == Some(id)
  {
    var base := ShortsLink(scheme, www, id);
    var n := |scheme| + |www|;
    ShortsPrefixFree(scheme, www);
    PrefixedFree(scheme + www + "youtube.com/shorts/", id, '?');
    CleanUrlOf(base, tail);
    assert base[n..n + 19] == "youtube.com/shorts/";
    IncludesAt(base, "youtube.com/shorts/", n);
    ShortsPiece(scheme, www, id);
  }

  lemma ShortsPrefixFree(scheme: string, www: string)
    requires scheme in Schemes && www in WwwParts
    ensures Free(scheme + www + "youtube.com/shorts/", {'?'})
  {
    var p := scheme + www + "youtube.com/shorts/";
    forall k | 0 <= k < |p| ensures p[k] != '?' {
      if k < |scheme| {
        assert p[k] == scheme[k];
      } else if k < |scheme| + |www| {
        assert p[k] == www[k - |scheme|];
      } else {
        assert p[k] == "youtube.com/shorts/"[k - |scheme| - |www|];
      }
    }
  }

  lemma PrefixedFree(prefix: string, id: string, c: char)
    requires Free(prefix, {c}) && Free(id, {c})
    ensures Free(prefix + id, {c})
  {
    var s := prefix + id;
    forall k | 0 <= k < |s| ensures s[k] != c {
      if k < |prefix| { assert s[k] == prefix[k]; } else { assert s[k] == id[k - |prefix|]; }
    }
  }

  lemma ShortsPiece(scheme: string, www: string, id: string)
    requires scheme in Schemes && www in WwwParts && Free(id, {'/'})
    ensures SecondPiece(ShortsLink(scheme, www, id), "/shorts/") == Some(id)
  {
    HostHasNoSlash(www);
    SchemeSlashes(scheme);
    ShortsLinkSplit(scheme, www, id);
    PieceAfterHost(scheme, www + "youtube.com", id);
  }

  /** The Shorts link as a scheme, a host and `/shorts/<id>`. */
  lemma ShortsLinkSplit(scheme: string, www: string, id: string)
    ensures ShortsLink(scheme, www, id) == scheme + (www + "youtube.com") + "/shorts/" + id
  {
    assert "youtube.com/shorts/" == "youtube.com" + "/shorts/";
  }

  /** The second `/shorts/` piece of `p + h + "/shorts/" + id` is `id` when
      neither `p` nor `h` can hold the start of a `/shorts/`. */
  lemma PieceAfterHost(p: string, h: string, id: string)
    requires |h| >= 1 && Free(h, {'/'}) && h[0] != 's' && SlashesEnd(p) && Free(id, {'/'})
    ensures SecondPiece(p + h + "/shorts/" + id, "/shorts/") == Some(id)
  {
    var base := p + h + "/shorts/" + id;
    var sep := "/shorts/";
    var at := |p| + |h|;
    assert base[at..at + 8] == sep;
    forall j: nat | j < at ensures !OccursAt(base, sep, j) {
      assert base == p + h + ("/shorts/" + id);
      NoSepBeforeRest(p, h, "/shorts/" + id, j);
    }
    SplitAt(base, sep, at);
    assert base[at + 8..] == id;
    forall i: nat ensures !OccursAt(id, sep, i) {
      NotOccursAt(id, sep, i, 0);
    }
    NotIncludes(id, sep);
    SplitOfFree(id, sep);
  }

  /** A `/` of a scheme is one of its last two characters, and a `/` before
      the last is followed by another `/`. */
  predicate SlashesEnd(p: string) {
    forall j :: 0 <= j < |p| && p[j] == '/' ==> j + 2 >= |p| && (j + 1 < |p| ==> p[j + 1] == '/')
  }

  /** `/shorts/` cannot start inside `p + h` when `h` has no `/` nor an
      initial `s` and the `/` of `p` are at its end. */
  lemma NoSepBeforeRest(p: string, h: string, rest: string, j: nat)
    requires |h| >= 1 && Free(h, {'/'}) && h[0] != 's' && j < |p| + |h|
    requires SlashesEnd(p)
    ensures !OccursAt(p + h + rest, "/shorts/", j)
  {
    var s := p + h + rest;
    if j < |p| && p[j] == '/' {
      assert s[j + 1] == if j + 1 < |p| then p[j + 1] else h[0];
      NotOccursAt(s, "/shorts/", j, 1);
    } else {
      assert s[j] == if j < |p| then p[j] else h[j - |p|];
      NotOccursAt(s, "/shorts/", j, 0);
    }
  }

  lemma SchemeSlashes(scheme: string)
    requires scheme in Schemes
    ensures SlashesEnd(scheme)
  {
  }

  /** The host part before the path holds no `/` and does not start with `s`. */
  lemma HostHasNoSlash(www: string)
    requires www in WwwParts
    ensures Free(www + "youtube.com", {'/'}) && (www + "youtube.com")[0] != 's'
  {
  }

  const WatchPage := "https://www.youtube.com/watch"

  /** A watch link `https://www.youtube.com/watch?v=<id>` gives back its id
      whenever the id is non-empty and holds no `?` or `&`, nor a `%` or
      `+` that `URLSearchParams` would decode. */
  lemma {:induction false} WatchRoundTrip(id: string)
    requires |id| >= 1 && Free(id, {'?', '&', '%', '+'})
    ensures VideoId(WatchPage + "?v=" + id) == Some(id)
  {
    var q := "v=" + id;
    var url := WatchPage + "?" + q;
    assert WatchPage + "?v=" + id == url;
    assert Free(id, {'?'}) && Free(id, {'&'});
    PrefixedFree("v=", id, '?');
    PrefixedFree("v=", id, '&');
    WatchSplit(q);
    ParamOfPair(id);
    WatchVideoId(url, q);
  }

  /** A link whose part before the query is the bare watch page takes its
      id from the query. */
  lemma WatchVideoId(url: string, q: string)
    requires Split(url, "?") == [WatchPage, q]
    requires SearchParam(Some(q), "v").Some? && SearchParam(Some(q), "v").value != []
    ensures VideoId(url) == SearchParam(Some(q), "v")
  {
    WatchPageNotShorts();
    WatchPageNotShortLink();
    WatchPageIsWatch();
    assert SecondPiece(url, "?") == Some(q);
  }

  lemma WatchSplit(q: string)
    requires Free(q, {'?'})
    ensures Split(WatchPage + "?" + q, "?") == [WatchPage, q]
  {
    NotIncludesChar(q, '?');
    NotIncludesChar(WatchPage, '?');
    SplitOfFree(WatchPage, "?");
    SplitAppendPiece(WatchPage, '?', q);
  }

  lemma ParamOfPair(id: string)
    requires Free("v=" + id, {'&'})
    ensures SearchParam(Some("v=" + id), "v") == Some(id)
  {
    var q := "v=" + id;
    NotIncludesChar(q, '&');
    SplitOfFree(q, "&");
    assert OccursAt(q, "=", 1);
    NotOccursAt(q, "=", 0, 0);
    assert IndexOf(q, "=") == Some(1);
    assert q[..1] == "v" && q[2..] == id;
    assert PairNamed([q], 0, "v");
  }

  /** The bare watch page is a watch link. */
  lemma WatchPageIsWatch()
    ensures Includes(WatchPage, "youtube.com/watch")
  {
    var w := WatchPage[12..29];
    forall k | 0 <= k < 17 ensures w[k] == "youtube.com/watch"[k] {
      assert w[k] == WatchPage[k + 12];
    }
    assert w == "youtube.com/watch";
    IncludesAt(WatchPage, "youtube.com/watch", 12);
  }

  /** The bare watch page is not a Shorts link. */
  lemma WatchPageNotShorts()
    ensures !Includes(WatchPage, "youtube.com/shorts/")
  {
    forall i: nat ensures !OccursAt(WatchPage, "youtube.com/shorts/", i) {
      if i <= 10 {
        assert WatchPage[i] != 'y';
        NotOccursAt(WatchPage, "youtube.com/shorts/", i, 0);
      } else {
        NotOccursAt(WatchPage, "youtube.com/shorts/", i, 18);
      }
    }
    NotIncludes(WatchPage, "youtube.com/shorts/");
  }

  /** The bare watch page is not a `youtu.be/` link. */
  lemma WatchPageNotShortLink()
    ensures !Includes(WatchPage, "youtu.be/")
  {
    forall i: nat ensures !OccursAt(WatchPage, "youtu.be/", i) {
      if i == 12 {
        assert WatchPage[17] == 'b';
        NotOccursAt(WatchPage, "youtu.be/", i, 5);
      } else if i <= 20 {
        assert WatchPage[i] != 'y';
        NotOccursAt(WatchPage, "youtu.be/", i, 0);
      } else {
        NotOccursAt(WatchPage, "youtu.be/", i, 8);
      }
    }
    NotIncludes(WatchPage, "youtu.be/");
  }

  // ---------------------------------------------------------------------
  // The quality table (plugins/dl-ytv1.js:95-103, 111)

  /** The yt-dlp format selectors of choices 1 to 5. */
  const QualitySelectors: seq<string> := [
    "bestvideo[height<=360][vcodec=vp9]+bestaudio/best[height<=360][ext=mkv]",
    "bestvideo[height<720][vcodec=vp9]+bestaudio/best[height<720][ext=mkv]",
    "bestvideo[height<1080][vcodec=vp9]+bestaudio/best[height<1080][ext=mkv]",
    "bestvideo[height<=1080][vcodec=vp9]+bestaudio/best[height<=1080][ext=mkv]",
    "bestvideo[height<=1920][vcodec=vp9]+bestaudio/best[height<=1920][ext=mkv]"
  ]

  /** The own keys of `qualityMap`: a numeric key of an object literal is
      stored as its canonical decimal text. */
  const QualityKeys: seq<string> := ["1", "2", "3", "4", "5"]

  /** The properties every plain object inherits from `Object.prototype`;
      looking one of them up in `qualityMap` yields a function or an
      object, which is truthy. */
  const InheritedNames: set<string> := {
    "constructor", "toString", "toLocaleString", "valueOf", "hasOwnProperty",
    "isPrototypeOf", "propertyIsEnumerable", "__proto__", "__defineGetter__",
    "__defineSetter__", "__lookupGetter__", "__lookupSetter__"
  }

  /** What `qualityMap[choice]` yields when it is truthy. */
  datatype Quality = Selector(format: string) | Inherited(name: string)

  /** `qualityMap[choice]`, `None` when it is undefined. The lookup is by
      exact key, so the choice must be one of the five keys character for
      character, or the name of an inherited property. */
  function QualityLookup(choice: string): (r: Option<Quality>)
    ensures r.Some? <==> choice in QualityKeys || choice in InheritedNames
    ensures r.Some? && r.value.Selector? <==> choice in QualityKeys
    ensures r.Some? && r.value.Inherited? ==> r.value.name == choice
  {
    if choice == "1" then Some(Selector(QualitySelectors[0]))
    else if choice == "2" then Some(Selector(QualitySelectors[1]))
    else if choice == "3" then Some(Selector(QualitySelectors[2]))
    else if choice == "4" then Some(Selector(QualitySelectors[3]))
    else if choice == "5" then Some(Selector(QualitySelectors[4]))
    else if choice in InheritedNames then Some(Inherited(choice))
    else None
  }

  /** The number `n` shown in the quality menu selects the `n`-th selector. */
  lemma QualityOfNumber(n: nat)
    requires 1 <= n <= 5
    ensures QualityLookup(Decimal(n)) == Some(Selector(QualitySelectors[n - 1]))
  {
    assert Decimal(n) == [DigitChar(n)];
  }

  /** A selector is chosen only by the canonical text of a number 1 to 5. */
  lemma {:induction false} SelectorOnlyByNumber(choice: string)
    requires QualityLookup(choice).Some? && QualityLookup(choice).value.Selector?
    ensures exists n :: 1 <= n <= 5 && choice == Decimal(n)
  {
    var n := if choice == "1" then 1 else if choice == "2" then 2 else if choice == "3" then 3
             else if choice == "4" then 4 else 5;
    assert Decimal(n) == [DigitChar(n)];
  }

  /** The exact-key lookup rejects a leading zero and trailing text, which
      `parseInt` would read as numbers, and accepts an inherited name. */
  lemma LookupExamples()
    ensures QualityLookup("01").None? && QualityLookup("2x").None?
    ensures QualityLookup("constructor") == Some(Inherited("constructor"))
    ensures ParseInt("2x") == Some(2)
  {
    assert Decimal(2) == "2";
    ParseIntOfDecimal(2, "x");
    assert Decimal(2) + "x" == "2x";
  }

  // ---------------------------------------------------------------------
  // The quality-select session (plugins/dl-ytv1.js:10-17, 37-45, 67-127)

  /** The stored `conn.ytDownloads[sender]`: the link as given, the key of
      the thumbnail message, the title of the video and the expiry timer. */
  datatype YtSession = YtSession(url: string, replyKey: MessageId, title: string, timer: TimerId)

  /** The connection's `ytDownloads` table and the pending timers, whose
      callbacks close over the sender. */
  datatype YtvState = YtvState(ytDownloads: map<Sender, YtSession>, timers: Timers<Sender>) {
    /** Every stored session's timer is pending and belongs to its sender. */
    ghost predicate Valid() {
      && timers.Valid()
      && forall s :: s in ytDownloads ==>
           ytDownloads[s].timer in timers.armed && timers.armed[ytDownloads[s].timer] == s
    }
  }

  function Initial(): (st: YtvState)
    ensures st.Valid() && st.ytDownloads == map[]
  {
    YtvState(map[], NoTimers())
  }

  /** What the command does with a request. */
  datatype RequestOutcome =
    | AskForUrl            // no argument: the usage text is thrown
    | InvalidUrl           // "Invalid YouTube URL."
    | NoVideoId            // "Couldn't extract video ID. Please check the URL."
    | NoDetails            // the search for the id found no video
    | Offered(videoId: string)   // the quality menu went out and a session was stored

  /** `handler` for a message from `sender` with arguments `args`. The
      search for the video is an input: `title` is the title of the first
      video found, or `None` when there was none; `replyKey` is the id of
      the thumbnail message the menu went out as. */
  function Request(st: YtvState, sender: Sender, args: seq<string>, title: Option<string>, replyKey: MessageId)
    : (r: (YtvState, RequestOutcome))
    requires st.timers.Valid()
    ensures r.1.AskForUrl? <==> args == []
    ensures r.1.InvalidUrl? <==> args != [] && !IsYoutubeUrl(args[0])
    ensures r.1.NoVideoId? <==> args != [] && IsYoutubeUrl(args[0]) && VideoId(args[0]).None?
    ensures r.1.Offered? <==> args != [] && IsYoutubeUrl(args[0]) && VideoId(args[0]).Some? && title.Some?
    ensures !r.1.Offered? ==> r.0 == st
    ensures r.1.Offered? ==>
      && r.1.videoId == VideoId(args[0]).value
      && sender in r.0.ytDownloads
      && var s := r.0.ytDownloads[sender];
      && s == YtSession(args[0], replyKey, title.value, s.timer)
      && s.timer !in st.timers.armed
      && r.0.ytDownloads == st.ytDownloads[sender := s]
      && r.0.timers.armed == st.timers.armed[s.timer := sender]
    ensures st.Valid() ==> r.0.Valid()
  {
    if args == [] then (st, AskForUrl)
    else
      var url := args[0];
      if !IsYoutubeUrl(url) then (st, InvalidUrl)
      else match VideoId(url)
        case None => (st, NoVideoId)
        case Some(id) =>
          match title
          case None => (st, NoDetails)
          case Some(t) =>
            var (timers, timer) := SetTimeout(st.timers, sender);
            (YtvState(st.ytDownloads[sender := YtSession(url, replyKey, t, timer)], timers), Offered(id))
  }

  /** What `handler.before` does with a message. */
  datatype ChoiceOutcome =
    | Ignored                      // no session, or not a reply to the thumbnail, or no text
    | InvalidChoice                // "Invalid choice. Please reply with 1, 2, 3, 4 or 5."
    | Download(url: string, quality: Quality, outputName: string)

  /** The message is a reply to the session's thumbnail and has text. */
  predicate Answers(m: Message, s: YtSession) {
    m.quoted == Some(s.replyKey) && m.text != []
  }

  /** `handler.before`: a reply to the thumbnail whose trimmed text is a key
      of the quality table clears the timer and the session before the
      download starts; whatever the download then does, no session is left
      behind. Anything else leaves the state as it was. */
  function Choose(st: YtvState, m: Message): (r: (YtvState, ChoiceOutcome))
    requires st.timers.Valid()
    ensures r.1.Ignored? <==> m.sender !in st.ytDownloads || !Answers(m, st.ytDownloads[m.sender])
    ensures r.1.InvalidChoice? <==> !r.1.Ignored? && QualityLookup(Trim(m.text)).None?
    ensures !r.1.Download? ==> r.0 == st
    ensures r.1.Download? ==>
      && var s := st.ytDownloads[m.sender];
      && r.1 == Download(s.url, QualityLookup(Trim(m.text)).value, s.title + ".mkv")
      && r.0.ytDownloads == st.ytDownloads - {m.sender}
      && r.0.timers.armed == st.timers.armed - {s.timer}
    ensures st.Valid() ==> r.0.Valid()
  {
    if m.sender !in st.ytDownloads then (st, Ignored)
    else
      var s := st.ytDownloads[m.sender];
      if m.quoted.None? || m.quoted.value != s.replyKey || m.text == [] then (st, Ignored)
      else match QualityLookup(Trim(m.text))
        case None => (st, InvalidChoice)
        case Some(quality) =>
          var timers := ClearTimeout(st.timers, s.timer);
          (YtvState(st.ytDownloads - {m.sender}, timers), Download(s.url, quality, s.title + ".mkv"))
  }

  /** What a timer does when it fires. */
  datatype ExpiryOutcome = NotPending | TimedOut(sender: Sender)

  /** A pending timer fires: its callback replies "Timeout! Please try
      again." and deletes whatever session is stored under its sender,
      without checking that it is the session the timer was set for. */
  function Expire(st: YtvState, id: TimerId): (r: (YtvState, ExpiryOutcome))
    ensures r.1.NotPending? <==> id !in st.timers.armed
    ensures r.1.NotPending? ==> r.0 == st
    ensures r.1.TimedOut? ==>
      && r.1.sender == st.timers.armed[id]
      && r.0.ytDownloads == st.ytDownloads - {r.1.sender}
      && r.0.timers.armed == st.timers.armed - {id}
    ensures st.Valid() ==> r.0.Valid()
  {
    if id !in st.timers.armed then (st, NotPending)
    else
      var sender := st.timers.armed[id];
      (YtvState(st.ytDownloads - {sender}, Timers(st.timers.armed - {id}, st.timers.next)), TimedOut(sender))
  }

  /** The stale-timer hazard: a second request from the same sender stores a
      new session without clearing the old one's timer, and when that old
      timer fires it deletes the new session. */
  lemma {:induction false} StaleTimerDropsNewSession(st: YtvState, sender: Sender, args: seq<string>,
                                                     title: Option<string>, replyKey: MessageId)
    requires st.Valid() && sender in st.ytDownloads
    requires Request(st, sender, args, title, replyKey).1.Offered?
    ensures var st1 := Request(st, sender, args, title, replyKey).0;
            var (st2, outcome) := Expire(st1, st.ytDownloads[sender].timer);
            sender in st1.ytDownloads && outcome == TimedOut(sender) && sender !in st2.ytDownloads
  {
    var old_timer := st.ytDownloads[sender].timer;
    var st1 := Request(st, sender, args, title, replyKey).0;
    assert old_timer in st.timers.armed;
    assert old_timer != st1.ytDownloads[sender].timer;
    assert st1.timers.armed[old_timer] == sender;
  }

  // ---------------------------------------------------------------------
  // The connection as the plugin updates it

  /** The `conn` object as this plugin sees it: its `ytDownloads` table and
      the timers pending on it. */
  class YtvConn {
    var ytDownloads: map<Sender, YtSession>
    var timers: Timers<Sender>

    function State(): YtvState
      reads this
    {
      YtvState(ytDownloads, timers)
    }

    ghost predicate Valid()
      reads this
    {
      State().Valid()
    }

    /** `conn.ytDownloads = conn.ytDownloads || {}` on a fresh connection. */
    constructor()
      ensures Valid() && State() == Initial()
    {
      ytDownloads := map[];
      timers := NoTimers();
    }

    method Handler(sender: Sender, args: seq<string>, title: Option<string>, replyKey: MessageId)
      returns (outcome: RequestOutcome)
      requires Valid()
      modifies this
      ensures Valid()
      ensures (State(), outcome) == Request(old(State()), sender, args, title, replyKey)
    {
      if args == [] {
        return AskForUrl;
      }
      var url := args[0];
      if !IsYoutubeUrl(url) {
        return InvalidUrl;
      }
      var id := VideoId(url);
      if id.None? {
        return NoVideoId;
      }
      if title.None? {
        return NoDetails;
      }
      var (t, timer) := SetTimeout(timers, sender);
      timers := t;
      ytDownloads := ytDownloads[sender := YtSession(url, replyKey, title.value, timer)];
      outcome := Offered(id.value);
    }

    method Before(m: Message) returns (outcome: ChoiceOutcome)
      requires Valid()
      modifies this
      ensures Valid()
      ensures (State(), outcome) == Choose(old(State()), m)
    {
      if m.sender !in ytDownloads {
        return Ignored;
      }
      var s := ytDownloads[m.sender];
      if m.quoted.None? || m.quoted.value != s.replyKey || m.text == [] {
        return Ignored;
      }
      var quality := QualityLookup(Trim(m.text));
      if quality.None? {
        return InvalidChoice;
      }
      timers := ClearTimeout(timers, s.timer);
      ytDownloads := ytDownloads - {m.sender};
      outcome := Download(s.url, quality.value, s.title + ".mkv");
    }

    /** The timer `id` fires. */
    method Fire(id: TimerId) returns (outcome: ExpiryOutcome)
      requires Valid()
      modifies this
      ensures Valid()
      ensures (State(), outcome) == Expire(old(State()), id)
    {
      if id !in timers.armed {
        return NotPending;
      }
      var sender := timers.armed[id];
      ytDownloads := ytDownloads - {sender};
      timers := Timers(timers.armed - {id}, timers.next);
      outcome := TimedOut(sender);
    }
  }
}
