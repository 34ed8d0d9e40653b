/** plugins/pon.js: the quality-list download command. The command asks
    yt-dlp for the formats of a link, lists them and stores a session for the
    sender in `conn.hlsDownloads` through a small set/get/remove store; the
    sender's next message that reads as the number of a listed format starts
    the download of that format. Modelled: the store, the file-name
    sanitiser, the parser of yt-dlp's format table, the link check, and the
    session flow, as step functions over a state value and as the class
    `PonConn`, which updates the connection's table in place. */
module Pon {
  import opened Js
  import opened Chat

  // ---------------------------------------------------------------------
  // manageDownloadSessions (plugins/pon.js:12-19)

  /** `get(key)`: the stored value, or `undefined`. */
  function Get<V>(store: map<Sender, V>, key: Sender): (r: Option<V>)
    ensures r.Some? <==> key in store
    ensures r.Some? ==> r.value == store[key]
  {
    if key in store then Some(store[key]) else None
  }

  /** `set(key, value)`: overwrites, and leaves every other key as it was. */
  function Set<V>(store: map<Sender, V>, key: Sender, value: V): (r: map<Sender, V>)
    ensures Get(r, key) == Some(value)
    ensures forall k :: k != key ==> Get(r, k) == Get(store, k)
  {
    store[key := value]
  }

  /** `remove(key)`: afterwards `get(key)` is `undefined`; every other key
      is as it was, so removing an absent key changes nothing. */
  function Remove<V>(store: map<Sender, V>, key: Sender): (r: map<Sender, V>)
    ensures Get(r, key) == None
    ensures forall k :: k != key ==> Get(r, k) == Get(store, k)
    ensures key !in store ==> r == store
  {
    store - {key}
  }

  // ---------------------------------------------------------------------
  // sanitizeFileName (plugins/pon.js:21-25)

  /** The characters of the class `[a-zA-Z0-9_\-]`. */
  predicate IsFileNameChar(c: char) {
    IsWordChar(c) || c == '-'
  }

  predicate AllFileNameChars(s: string) {
    forall k :: 0 <= k < |s| ==> IsFileNameChar(s[k])
  }

  /** `name.replace(/[^a-zA-Z0-9_\-]/g, '_')`: each other character becomes
      one `_`. */
  function ReplaceDisallowed(name: string): (r: string)
    ensures |r| == |name|
    ensures forall k :: 0 <= k < |name| ==>
              r[k] == (if IsFileNameChar(name[k]) then name[k] else '_')
  {
    if name == [] then []
    else [if IsFileNameChar(name[0]) then name[0] else '_'] + ReplaceDisallowed(name[1..])
  }

  /** The default of the `maxLength` parameter, the only value the plugin
      uses. */
  const DefaultMaxLength: nat := 100

  /** `sanitizeFileName(name, maxLength)`: one output character per input
      character, each an allowed one, cut to `maxLength`. */
  function SanitizeFileName(name: string, maxLength: nat): (r: string)
    ensures |r| == if |name| > maxLength then maxLength else |name|
    ensures AllFileNameChars(r)
    ensures forall k :: 0 <= k < |r| ==>
              (IsFileNameChar(name[k]) ==> r[k] == name[k]) && (!IsFileNameChar(name[k]) ==> r[k] == '_')
  {
    var sanitized := ReplaceDisallowed(name);
    if |sanitized| > maxLength then sanitized[..maxLength] else sanitized
  }

  /** Sanitizing a sanitized name changes nothing. */
  lemma {:induction false} SanitizeIdempotent(name: string, maxLength: nat)
    ensures SanitizeFileName(SanitizeFileName(name, maxLength), maxLength) == SanitizeFileName(name, maxLength)
  {
    var once := SanitizeFileName(name, maxLength);
    var twice := SanitizeFileName(once, maxLength);
    assert |twice| == |once|;
    forall k | 0 <= k < |once| ensures twice[k] == once[k] {
      assert IsFileNameChar(once[k]);
    }
  }

  // ---------------------------------------------------------------------
  // The format table parser of getAvailableFormats (plugins/pon.js:38-47)

  /** One listed format. */
  datatype Format = Format(formatId: string, resolution: string, filesize: string)

  /** `line.match(/^\w+/)`: the line starts with a word character. */
  predicate IsFormatLine(line: string) {
    |line| >= 1 && IsWordChar(line[0])
  }

  predicate IsNotWhiteSpace(c: char) { !IsWhiteSpace(c) }

  /** `line.match(/^\S+/)?.[0]`: the leading run of characters that are not
      white space. */
  function FormatId(line: string): (r: string)
    ensures r <= line
    ensures forall k :: 0 <= k < |r| ==> !IsWhiteSpace(r[k])
    ensures |r| == |line| || IsWhiteSpace(line[|r|])
    ensures IsFormatLine(line) ==> |r| >= 1
  {
    line[..RunEnd(line, 0, IsNotWhiteSpace)]
  }

  /** `/(\d+p)/` matches at `i`: a digit there, and the greedy run of
      digits starting there is followed by `p`. Backtracking to a shorter
      run cannot help, since the character after it is a digit. */
  predicate ResolutionAt(line: string, i: nat) {
    i < |line| && IsDigit(line[i])
    && var e := RunEnd(line, i, IsDigit); e < |line| && line[e] == 'p'
  }

  predicate DigitsBetween(line: string, i: nat, j: nat)
    requires i <= j <= |line|
  {
    forall k :: i <= k < j ==> IsDigit(line[k])
  }

  /** The greedy reading agrees with the pattern read as a set of texts:
      one or more digits, then `p`. */
  lemma ResolutionAtIsPattern(line: string, i: nat)
    ensures ResolutionAt(line, i) <==>
            exists j :: i < j < |line| && DigitsBetween(line, i, j) && line[j] == 'p'
  {
    if ResolutionAt(line, i) {
      var j := RunEnd(line, i, IsDigit);
      assert i < j < |line| && DigitsBetween(line, i, j) && line[j] == 'p';
    }
    if exists j :: i < j < |line| && DigitsBetween(line, i, j) && line[j] == 'p' {
      var j :| i < j < |line| && DigitsBetween(line, i, j) && line[j] == 'p';
      var e := RunEnd(line, i, IsDigit);
      assert e == j;
    }
  }

  /** Where `/(\d+p)/` first matches, if anywhere. */
  function FirstResolution(line: string): (r: Option<nat>)
    ensures r.Some? ==> ResolutionAt(line, r.value) && forall j: nat :: j < r.value ==> !ResolutionAt(line, j)
    ensures r.None? ==> forall i: nat :: !ResolutionAt(line, i)
  {
    var p := (i: nat) => ResolutionAt(line, i);
    var r := FirstIndex(0, |line|, p);
    assert r.None? ==> forall i: nat :: !ResolutionAt(line, i) by {
      forall i: nat | i < |line| && r.None? ensures !ResolutionAt(line, i) { assert !p(i); }
    }
    assert r.Some? ==> forall j: nat :: j < r.value ==> !ResolutionAt(line, j) by {
      if r.Some? {
        forall j: nat | j < r.value ensures !ResolutionAt(line, j) { assert !p(j); }
      }
    }
    r
  }

  lemma RunEndStep(s: string, i: nat, q: char -> bool)
    requires i < |s| && q(s[i])
    ensures RunEnd(s, i, q) == RunEnd(s, i + 1, q)
  {
  }

  /** The leftmost match takes the whole number: it is not preceded by a
      digit. */
  lemma {:induction false} ResolutionWholeNumber(line: string)
    requires FirstResolution(line).Some?
    ensures var i := FirstResolution(line).value;
            i == 0 || !IsDigit(line[i - 1])
  {
    var i := FirstResolution(line).value;
    if i > 0 && IsDigit(line[i - 1]) {
      RunEndStep(line, i - 1, IsDigit);
      assert ResolutionAt(line, i - 1);
    }
  }

  /** `line.match(/(\d+p)/)?.[1] || 'Unknown'` */
  function Resolution(line: string): (r: string)
    ensures r == "Unknown" <==> FirstResolution(line).None?
    ensures FirstResolution(line).Some? ==>
              var i := FirstResolution(line).value;
              && |r| >= 2 && i + |r| <= |line| && line[i..i + |r|] == r
              && DigitsBetween(r, 0, |r| - 1) && r[|r| - 1] == 'p'
  {
    match FirstResolution(line)
    case None => "Unknown"
    case Some(i) =>
      var e := RunEnd(line, i, IsDigit);
      var r := line[i..e + 1];
      assert r[|r| - 1] == 'p' && "Unknown"[6] == 'n';
      r
  }

  /** The characters of `[\d\.]`. */
  predicate IsSizeChar(c: char) { IsDigit(c) || c == '.' }

  /** `/~([\d\.]+MiB)/` matches at `i`: a `~` there, then a non-empty
      greedy run of digits and dots followed by `MiB`. As `M` is neither,
      a shorter run cannot help. */
  predicate FileSizeAt(line: string, i: nat) {
    i + 1 < |line| && line[i] == '~'
    && var e := RunEnd(line, i + 1, IsSizeChar); e > i + 1 && OccursAt(line, "MiB", e)
  }

  /** Where `/~([\d\.]+MiB)/` first matches, if anywhere. */
  function FirstFileSize(line: string): (r: Option<nat>)
    ensures r.Some? ==> FileSizeAt(line, r.value) && forall j: nat :: j < r.value ==> !FileSizeAt(line, j)
    ensures r.None? ==> forall i: nat :: !FileSizeAt(line, i)
  {
    var p := (i: nat) => FileSizeAt(line, i);
    var r := FirstIndex(0, |line|, p);
    assert r.None? ==> forall i: nat :: !FileSizeAt(line, i) by {
      forall i: nat | i < |line| && r.None? ensures !FileSizeAt(line, i) { assert !p(i); }
    }
    assert r.Some? ==> forall j: nat :: j < r.value ==> !FileSizeAt(line, j) by {
      if r.Some? {
        forall j: nat | j < r.value ensures !FileSizeAt(line, j) { assert !p(j); }
      }
    }
    r
  }

  /** `line.match(/~([\d\.]+MiB)/)?.[1] || 'Unknown size'`: the size and
      its unit, without the `~`. */
  function FileSize(line: string): (r: string)
    ensures r == "Unknown size" <==> FirstFileSize(line).None?
    ensures FirstFileSize(line).Some? ==>
              var i := FirstFileSize(line).value;
              && |r| >= 4 && i + 1 + |r| <= |line| && line[i] == '~' && line[i + 1..i + 1 + |r|] == r
              && (forall k :: 0 <= k < |r| - 3 ==> IsSizeChar(r[k]))
              && OccursAt(r, "MiB", |r| - 3)
  {
    match FirstFileSize(line)
    case None => "Unknown size"
    case Some(i) =>
      var e := RunEnd(line, i + 1, IsSizeChar);
      var r := line[i + 1..e + 3];
      assert r[|r| - 3..] == line[e..e + 3];
      assert IsSizeChar(r[0]) && !IsSizeChar("Unknown size"[0]);
      r
  }

  /** The `map` step: one format per kept line. */
  function ParseLine(line: string): Format {
    Format(FormatId(line), Resolution(line), FileSize(line))
  }

  /** The `filter` and `map` steps over the lines, in order. */
  function KeptFormats(lines: seq<string>): (r: seq<Format>)
    ensures |r| <= |lines|
  {
    if lines == [] then []
    else (if IsFormatLine(lines[0]) then [ParseLine(lines[0])] else []) + KeptFormats(lines[1..])
  }

  /** `stdout.trim().split('\n').filter(...).map(...)` */
  function ParseFormats(stdout: string): seq<Format> {
    KeptFormats(Split(Trim(stdout), "\n"))
  }

  /** The parser keeps the order of the lines: the formats of two blocks of
      lines are those of the first block, then those of the second. */
  lemma {:induction false} KeptFormatsAppend(a: seq<string>, b: seq<string>)
    ensures KeptFormats(a + b) == KeptFormats(a) + KeptFormats(b)
    decreases |a|
  {
    if a == [] {
      assert a + b == b;
    } else {
      var head := if IsFormatLine(a[0]) then [ParseLine(a[0])] else [];
      assert (a + b)[0] == a[0] && (a + b)[1..] == a[1..] + b;
      assert KeptFormats(a + b) == head + KeptFormats(a[1..] + b);
      KeptFormatsAppend(a[1..], b);
      assert KeptFormats(a) == head + KeptFormats(a[1..]);
    }
  }

  /** A format is listed exactly when some line starting with a word
      character parses to it. */
  lemma {:induction false} KeptFormatsMembers(lines: seq<string>, f: Format)
    ensures f in KeptFormats(lines) <==>
            exists k :: 0 <= k < |lines| && IsFormatLine(lines[k]) && ParseLine(lines[k]) == f
    decreases |lines|
  {
    if lines != [] {
      KeptFormatsMembers(lines[1..], f);
      if exists k :: 0 <= k < |lines[1..]| && IsFormatLine(lines[1..][k]) && ParseLine(lines[1..][k]) == f {
        var k :| 0 <= k < |lines[1..]| && IsFormatLine(lines[1..][k]) && ParseLine(lines[1..][k]) == f;
        assert lines[k + 1] == lines[1..][k];
      }
      if exists k :: 0 <= k < |lines| && IsFormatLine(lines[k]) && ParseLine(lines[k]) == f {
        var k :| 0 <= k < |lines| && IsFormatLine(lines[k]) && ParseLine(lines[k]) == f;
        if k > 0 {
          assert lines[1..][k - 1] == lines[k];
        }
      }
    }
  }

  /** The header row of yt-dlp's table (`ID  EXT  RESOLUTION ...`) starts
      with a word character, so it is kept, as a format whose id is `ID`. */
  lemma {:induction false} HeaderRowIsKept(rest: string)
    requires rest == [] || IsWhiteSpace(rest[0])
    ensures IsFormatLine("ID" + rest) && ParseLine("ID" + rest).formatId == "ID"
  {
    var line := "ID" + rest;
    var id := FormatId(line);
    assert !IsWhiteSpace(line[0]) && !IsWhiteSpace(line[1]);
    assert rest != [] ==> line[2] == rest[0];
    assert |id| == 2;
    assert id == line[..2];
  }

  // ---------------------------------------------------------------------
  // The link check (plugins/pon.js:113-117)

  /** `[^\s]+$`: one or more characters, none of them white space. */
  predicate NonSpaceRest(s: string) {
    |s| >= 1 && forall k :: 0 <= k < |s| ==> !IsWhiteSpace(s[k])
  }

  /** `/^https?:\/\/[^\s]+$/i.test(text)`. An empty `text` fails it, so the
      handler's separate `!text` test decides nothing more. */
  predicate IsHttpUrl(text: string) {
    || (HasPrefixIgnoringCase(text, "http://") && NonSpaceRest(text[7..]))
    || (HasPrefixIgnoringCase(text, "https://") && NonSpaceRest(text[8..]))
  }

  /** A text that passes the check has nothing for `trim` to remove, so the
      stored link is the text itself. */
  lemma {:induction false} HttpUrlIsTrimmed(text: string)
    requires IsHttpUrl(text)
    ensures Trim(text) == text
  {
    var n := if HasPrefixIgnoringCase(text, "http://") && NonSpaceRest(text[7..]) then 7 else 8;
    assert LowerAscii(text[0]) == 'h';
    assert !IsWhiteSpace(text[n..][|text| - 1 - n]);
    TrimOfTrimmed(text);
  }

  // ---------------------------------------------------------------------
  // The sessions (plugins/pon.js:109-191)

  /** `conn.hlsDownloads[sender]`. */
  datatype HlsSession = HlsSession(url: string, videoTitle: string, replyKey: MessageId,
                                   formats: seq<Format>, timeout: TimerId)

  datatype PonState = PonState(hlsDownloads: map<Sender, HlsSession>, timers: Timers<Sender>)
  {
    /** Every stored session's timer is pending and was set for its sender. */
    ghost predicate Valid() {
      && timers.Valid()
      && forall s :: s in hlsDownloads ==>
           hlsDownloads[s].timeout in timers.armed && timers.armed[hlsDownloads[s].timeout] == s
    }
  }

  function Initial(): (st: PonState)
    ensures st.Valid() && st.hlsDownloads == map[]
  {
    PonState(map[], NoTimers())
  }

  /** The line of the list that offers the format at `index`. */
  function OptionLine(f: Format, index: nat): (r: string)
    ensures |Decimal(index + 1)| <= |r| && r[..|Decimal(index + 1)|] == Decimal(index + 1)
  {
    var r := Decimal(index + 1) + ". " + f.resolution + " (" + f.formatId + ") - " + f.filesize;
    assert r[..|Decimal(index + 1)|] == Decimal(index + 1);
    r
  }

  /** The reply that lists the formats. */
  function OptionsText(formats: seq<Format>): string {
    "Available qualities:\n\n"
    + Join(seq(|formats|, i requires 0 <= i < |formats| => OptionLine(formats[i], i)), "\n")
    + "\n\nReply with the number to select."
  }

  datatype RequestOutcome =
    | InvalidUrl                 // thrown: "Invalid URL format. ..."
    | FetchFailed                // a yt-dlp call failed: "Error fetching video formats. ..."
    | NoFormats                  // "No formats available for this URL. ..."
    | Offered(url: string, options: string)   // the list went out and a session was stored

  /** The state once a session for `sender` is stored, with a new timer.
      A session the sender already had is overwritten and its timer left
      pending. */
  function Opened(st: PonState, sender: Sender, url: string, videoTitle: string, key: MessageId,
                  formats: seq<Format>): (r: PonState)
    requires st.timers.Valid()
    ensures r.timers.Valid()
    ensures sender in r.hlsDownloads
    ensures var s := r.hlsDownloads[sender];
      && s == HlsSession(url, videoTitle, key, formats, s.timeout)
      && s.timeout !in st.timers.armed
      && r.hlsDownloads == st.hlsDownloads[sender := s]
      && r.timers.armed == st.timers.armed[s.timeout := sender]
    ensures st.Valid() ==> r.Valid()
  {
    var (timers, timer) := SetTimeout(st.timers, sender);
    var r := PonState(st.hlsDownloads[sender := HlsSession(url, videoTitle, key, formats, timer)], timers);
    assert st.Valid() ==> r.Valid() by {
      if st.Valid() {
        forall x | x in r.hlsDownloads && x != sender
          ensures r.timers.armed[r.hlsDownloads[x].timeout] == x
        {
          assert r.hlsDownloads[x].timeout != timer;
        }
      }
    }
    r
  }

  /** `handler` for a message from `sender` with argument text `text`. The
      two yt-dlp calls are inputs: `listing` is the output of
      `--list-formats` and `titleOutput` that of `--get-title`, each `None`
      when the call failed; `key` is the key of the command message. The
      title is fetched before the format list is looked at, so a failed
      title lookup wins over an empty list. */
  function Request(st: PonState, sender: Sender, text: string, listing: Option<string>,
                   titleOutput: Option<string>, key: MessageId): (r: (PonState, RequestOutcome))
    requires st.timers.Valid()
    ensures r.1.InvalidUrl? <==> !IsHttpUrl(text)
    ensures r.1.FetchFailed? <==> IsHttpUrl(text) && (listing.None? || titleOutput.None?)
    ensures r.1.NoFormats? <==>
              IsHttpUrl(text) && listing.Some? && titleOutput.Some? && ParseFormats(listing.value) == []
    ensures !r.1.Offered? ==> r.0 == st
    ensures r.1.Offered? ==>
      && r.1.url == text
      && r.1.options == OptionsText(ParseFormats(listing.value))
      && sender in r.0.hlsDownloads
      && var s := r.0.hlsDownloads[sender];
      && s == HlsSession(text, Trim(titleOutput.value), key, ParseFormats(listing.value), s.timeout)
      && s.formats != []
      && s.timeout !in st.timers.armed
      && r.0.hlsDownloads == st.hlsDownloads[sender := s]
      && r.0.timers.armed == st.timers.armed[s.timeout := sender]
    ensures st.Valid() ==> r.0.Valid()
  {
    if text == [] || !IsHttpUrl(text) then (st, InvalidUrl)
    else
      var url := Trim(text);
      HttpUrlIsTrimmed(text);
      match listing
      case None => (st, FetchFailed)
      case Some(stdout) =>
        var formats := ParseFormats(stdout);
        match titleOutput
        case None => (st, FetchFailed)
        case Some(title) =>
          if formats == [] then (st, NoFormats)
          else
            (Opened(st, sender, url, Trim(title), key, formats), Offered(url, OptionsText(formats)))
  }

  datatype ChoiceOutcome =
    | NoSession                  // the sender has no session: nothing happens
    | InvalidChoice              // "Invalid choice. Please reply with a valid number."
    | Downloaded(url: string, formatId: string, fileName: string)
                                 // the download resolved and the session was removed
    | DownloadFailed(url: string, formatId: string, fileName: string)
                                 // "Error downloading the video. Try another quality."

  /** The number a message's trimmed text reads as under `parseInt`. */
  function ReplyNumber(m: Message): Option<int> {
    ParseInt(Trim(m.text))
  }

  /** `handler.before`. Only the sender is matched: the stored `replyKey`
      is never compared with the quoted message, and any text counts, the
      empty one included (it reads as `NaN`). The result of the download is
      an input. The session is removed only when the download resolves; its
      timer is never cleared. */
  function Choose(st: PonState, m: Message, downloaded: bool): (r: (PonState, ChoiceOutcome))
    ensures r.1.NoSession? <==> m.sender !in st.hlsDownloads
    ensures r.1.InvalidChoice? <==>
              && m.sender in st.hlsDownloads
              && var n := ReplyNumber(m);
              && (n.None? || n.value < 1 || n.value > |st.hlsDownloads[m.sender].formats|)
    ensures r.1.Downloaded? || r.1.DownloadFailed? ==>
      && m.sender in st.hlsDownloads
      && var s := st.hlsDownloads[m.sender];
      && var n := ReplyNumber(m);
      && n.Some? && 1 <= n.value <= |s.formats|
      && r.1.url == s.url
      && r.1.formatId == s.formats[n.value - 1].formatId
      && r.1.fileName == SanitizeFileName(s.videoTitle, DefaultMaxLength) + ".mp4"
      && (r.1.Downloaded? <==> downloaded)
    ensures !r.1.Downloaded? ==> r.0 == st
    ensures r.1.Downloaded? ==>
      r.0.hlsDownloads == st.hlsDownloads - {m.sender} && r.0.timers == st.timers
    ensures st.Valid() ==> r.0.Valid()
  {
    if m.sender !in st.hlsDownloads then (st, NoSession)
    else
      var session := st.hlsDownloads[m.sender];
      var choice := ReplyNumber(m);
      if choice.None? || choice.value - 1 < 0 || choice.value - 1 >= |session.formats| then (st, InvalidChoice)
      else
        var selected := session.formats[choice.value - 1];
        var fileName := SanitizeFileName(session.videoTitle, DefaultMaxLength) + ".mp4";
        if downloaded then
          (st.(hlsDownloads := st.hlsDownloads - {m.sender}), Downloaded(session.url, selected.formatId, fileName))
        else (st, DownloadFailed(session.url, selected.formatId, fileName))
  }

  datatype ExpiryOutcome =
    | NotPending
    | TimedOut(sender: Sender)        // "Timeout! Please start over."
    | NothingToRemove(sender: Sender) // the sender has no session: nothing is said

  /** A pending timer fires: its callback removes whatever session the
      sender holds, without checking that it is the one the timer was set
      for. */
  function Expire(st: PonState, id: TimerId): (r: (PonState, ExpiryOutcome))
    ensures r.1.NotPending? <==> id !in st.timers.armed
    ensures r.1.NotPending? ==> r.0 == st
    ensures r.1.TimedOut? ==> st.timers.armed[id] == r.1.sender && r.1.sender in st.hlsDownloads
    ensures r.1.NothingToRemove? ==> st.timers.armed[id] == r.1.sender && r.1.sender !in st.hlsDownloads
    ensures r.1.TimedOut? || r.1.NothingToRemove? ==>
              && r.0.hlsDownloads == st.hlsDownloads - {r.1.sender}
              && r.0.timers.armed == st.timers.armed - {id}
    ensures st.Valid() ==> r.0.Valid()
  {
    if id !in st.timers.armed then (st, NotPending)
    else
      var sender := st.timers.armed[id];
      var timers := Timers(st.timers.armed - {id}, st.timers.next);
      if sender in st.hlsDownloads then (PonState(st.hlsDownloads - {sender}, timers), TimedOut(sender))
      else (st.(timers := timers), NothingToRemove(sender))
  }

  // ---------------------------------------------------------------------
  // Properties of the flow

  /** The number shown for the format at index `i`, sent back by the
      sender, picks that very format, whatever message it quotes. */
  lemma {:induction false} ShownNumberSelectsFormat(st: PonState, m: Message, i: nat, downloaded: bool)
    requires m.sender in st.hlsDownloads && i < |st.hlsDownloads[m.sender].formats|
    requires m.text == OptionLine(st.hlsDownloads[m.sender].formats[i], i)[..|Decimal(i + 1)|]
    ensures var r := Choose(st, m, downloaded).1;
            (r.Downloaded? || r.DownloadFailed?) && r.formatId == st.hlsDownloads[m.sender].formats[i].formatId
  {
    DecimalReadsBack(i + 1);
    assert m.text == Decimal(i + 1);
    assert ReplyNumber(m) == Some(i + 1);
  }

  /** The quoted message plays no part in the choice. */
  lemma {:induction false} ChoiceIgnoresQuote(st: PonState, m: Message, quoted: Option<MessageId>, downloaded: bool)
    ensures Choose(st, m.(quoted := quoted), downloaded) == Choose(st, m, downloaded)
  {
    var m' := m.(quoted := quoted);
    assert m'.sender == m.sender && m'.text == m.text;
    assert ReplyNumber(m') == ReplyNumber(m);
  }

  /** A failed download leaves the session in place, so the same choice
      can be sent again. */
  lemma {:induction false} FailedDownloadCanBeRetried(st: PonState, m: Message)
    requires Choose(st, m, false).1.DownloadFailed?
    ensures var st1 := Choose(st, m, false).0;
            Choose(st1, m, true).1 == Downloaded(Choose(st, m, false).1.url,
                                                 Choose(st, m, false).1.formatId,
                                                 Choose(st, m, false).1.fileName)
  {
  }

  /** Any pending timer set for a sender removes the session the sender
      opens next, when it fires after that: the callback looks the sender up
      and nothing else. */
  lemma {:induction false} PendingTimerDropsNewSession(st: PonState, timer: TimerId, sender: Sender, text: string,
                                                       listing: Option<string>, titleOutput: Option<string>,
                                                       key: MessageId)
    requires st.timers.Valid() && timer in st.timers.armed && st.timers.armed[timer] == sender
    requires Request(st, sender, text, listing, titleOutput, key).1.Offered?
    ensures var st1 := Request(st, sender, text, listing, titleOutput, key).0;
            var (st2, outcome) := Expire(st1, timer);
            sender in st1.hlsDownloads && outcome == TimedOut(sender) && sender !in st2.hlsDownloads
  {
    var st1 := Request(st, sender, text, listing, titleOutput, key).0;
    assert timer != st1.hlsDownloads[sender].timeout;
    assert st1.timers.armed[timer] == sender;
  }

  /** The stale-timer hazard: a second request by the same sender stores a
      new session without clearing the old one's timer, and when that old
      timer fires it removes the new session. */
  lemma {:induction false} StaleTimerDropsNewSession(st: PonState, sender: Sender, text: string,
                                                     listing: Option<string>, titleOutput: Option<string>,
                                                     key: MessageId)
    requires st.Valid() && sender in st.hlsDownloads
    requires Request(st, sender, text, listing, titleOutput, key).1.Offered?
    ensures var st1 := Request(st, sender, text, listing, titleOutput, key).0;
            var (st2, outcome) := Expire(st1, st.hlsDownloads[sender].timeout);
            sender in st1.hlsDownloads && outcome == TimedOut(sender) && sender !in st2.hlsDownloads
  {
    PendingTimerDropsNewSession(st, st.hlsDownloads[sender].timeout, sender, text, listing, titleOutput, key);
  }

  /** The timer outlives a completed download: it stays pending after the
      session is removed, and when it fires it removes any session the
      sender has opened since. */
  lemma {:induction false} TimerOutlivesDownload(st: PonState, m: Message, text: string,
                                                 listing: Option<string>, titleOutput: Option<string>,
                                                 key: MessageId)
    requires st.Valid() && Choose(st, m, true).1.Downloaded?
    requires Request(Choose(st, m, true).0, m.sender, text, listing, titleOutput, key).1.Offered?
    ensures var timer := st.hlsDownloads[m.sender].timeout;
            var st1 := Choose(st, m, true).0;
            var st2 := Request(st1, m.sender, text, listing, titleOutput, key).0;
            && m.sender !in st1.hlsDownloads && timer in st1.timers.armed
            && Expire(st2, timer).1 == TimedOut(m.sender)
            && m.sender !in Expire(st2, timer).0.hlsDownloads
  {
    var timer := st.hlsDownloads[m.sender].timeout;
    var st1 := Choose(st, m, true).0;
    assert st1.timers == st.timers;
    PendingTimerDropsNewSession(st1, timer, m.sender, text, listing, titleOutput, key);
  }

  // ---------------------------------------------------------------------
  // The connection as the plugin updates it

  /** The `conn` object as this plugin sees it: its `hlsDownloads` table and
      the timers pending on it. */
  class PonConn {
    var hlsDownloads: map<Sender, HlsSession>
    var timers: Timers<Sender>

    function State(): PonState
      reads this
    {
      PonState(hlsDownloads, timers)
    }

    ghost predicate Valid()
      reads this
    {
      State().Valid()
    }

    /** A connection on which `conn.hlsDownloads = conn.hlsDownloads || {}`
        has created the table. */
    constructor()
      ensures Valid() && State() == Initial()
    {
      hlsDownloads := map[];
      timers := NoTimers();
    }

    /** The store's `get`. */
    function GetSession(key: Sender): (r: Option<HlsSession>)
      reads this
      ensures r == Get(hlsDownloads, key)
    {
      if key in hlsDownloads then Some(hlsDownloads[key]) else None
    }

    /** The store's `set`. */
    method SetSession(key: Sender, value: HlsSession)
      modifies this
      ensures hlsDownloads == Set(old(hlsDownloads), key, value) && timers == old(timers)
    {
      hlsDownloads := hlsDownloads[key := value];
    }

    /** The store's `remove`. */
    method RemoveSession(key: Sender)
      modifies this
      ensures hlsDownloads == Remove(old(hlsDownloads), key) && timers == old(timers)
    {
      hlsDownloads := hlsDownloads - {key};
    }

    method Handler(sender: Sender, text: string, listing: Option<string>, titleOutput: Option<string>,
                   key: MessageId) returns (outcome: RequestOutcome)
      requires Valid()
      modifies this
      ensures Valid()
      ensures (State(), outcome) == Request(old(State()), sender, text, listing, titleOutput, key)
    {
      if text == [] || !IsHttpUrl(text) {
        return InvalidUrl;
      }
      var url := Trim(text);
      if listing.None? {
        return FetchFailed;
      }
      var formats := ParseFormats(listing.value);
      if titleOutput.None? {
        return FetchFailed;
      }
      var videoTitle := Trim(titleOutput.value);
      if formats == [] {
        return NoFormats;
      }
      ghost var st := State();
      var (t, timer) := SetTimeout(timers, sender);
      timers := t;
      SetSession(sender, HlsSession(url, videoTitle, key, formats, timer));
      outcome := Offered(url, OptionsText(formats));
      assert State() == Opened(st, sender, url, videoTitle, key, formats);
    }

    method Before(m: Message, downloaded: bool) returns (outcome: ChoiceOutcome)
      requires Valid()
      modifies this
      ensures Valid()
      ensures (State(), outcome) == Choose(old(State()), m, downloaded)
    {
      var session := GetSession(m.sender);
      if session.None? {
        return NoSession;
      }
      var choiceIndex := ReplyNumber(m);
      if choiceIndex.None? || choiceIndex.value - 1 < 0 || choiceIndex.value - 1 >= |session.value.formats| {
        return InvalidChoice;
      }
      var selected := session.value.formats[choiceIndex.value - 1];
      var fileName := SanitizeFileName(session.value.videoTitle, DefaultMaxLength) + ".mp4";
      if downloaded {
        RemoveSession(m.sender);
        outcome := Downloaded(session.value.url, selected.formatId, fileName);
      } else {
        outcome := DownloadFailed(session.value.url, selected.formatId, fileName);
      }
    }

    /** The timer `id` fires. */
    method Fire(id: TimerId) returns (outcome: ExpiryOutcome)
      requires Valid()
      modifies this
      ensures Valid()
      ensures (State(), outcome) == Expire(old(State()), id)
    {
      if id !in timers.armed {
        return NotPending;
      }
      var sender := timers.armed[id];
      timers := Timers(timers.armed - {id}, timers.next);
      var session := GetSession(sender);
      if session.Some? {
        RemoveSession(sender);
        outcome := TimedOut(sender);
      } else {
        outcome := NothingToRemove(sender);
      }
    }
  }
}
