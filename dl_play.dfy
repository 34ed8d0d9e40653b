/** plugins/dl-play.js: search, pick a result, pick video or audio. The
    command lists the search results and opens a search session for the
    sender in `conn.youtubeSearch`; a reply to the list with a valid number
    closes it and opens a download-choice session in
    `conn.youtubeDownloadSession`; the next text from the sender that reads
    as 1 or 2 closes that one and hands the chosen link to the video or the
    audio command. As for the video command, the flow is given as step
    functions over a state value and as the class `PlayConn`, which updates
    the connection's tables in place. */
module Play {
  import opened Js
  import opened Chat
  import opened YoutubeUrl
  import YtVideo
  import YtAudio

  /** A search result: the fields of a `yt-search` video the plugin uses. */
  datatype Video = Video(videoId: string, title: string, timestamp: string)

  /** `conn.youtubeSearch[sender]`: the results, the key of the results
      message and the expiry timer. */
  datatype SearchSession = SearchSession(videos: seq<Video>, key: MessageId, timer: TimerId)

  /** `conn.youtubeDownloadSession[sender]`: the chosen link and the expiry
      timer. */
  datatype DownloadSession = DownloadSession(selectedUrl: string, timer: TimerId)

  /** Which table a timer's callback deletes from. */
  datatype Table = SearchTable | DownloadTable

  /** What a timer's callback closes over. */
  datatype PlayTimer = PlayTimer(table: Table, sender: Sender)

  datatype PlayState = PlayState(
    youtubeSearch: map<Sender, SearchSession>,
    youtubeDownloadSession: map<Sender, DownloadSession>,
    timers: Timers<PlayTimer>)
  {
    /** Every stored session's timer is pending and belongs to its table
        and sender. */
    ghost predicate Valid() {
      && timers.Valid()
      && (forall s :: s in youtubeSearch ==>
            youtubeSearch[s].timer in timers.armed
            && timers.armed[youtubeSearch[s].timer] == PlayTimer(SearchTable, s))
      && (forall s :: s in youtubeDownloadSession ==>
            youtubeDownloadSession[s].timer in timers.armed
            && timers.armed[youtubeDownloadSession[s].timer] == PlayTimer(DownloadTable, s))
    }
  }

  function Initial(): (st: PlayState)
    ensures st.Valid() && st.youtubeSearch == map[] && st.youtubeDownloadSession == map[]
  {
    PlayState(map[], map[], NoTimers())
  }

  // ---------------------------------------------------------------------
  // The results list (plugins/dl-play.js:26-28)

  /** `https://youtu.be/${videoId}` */
  function ShortLink(videoId: string): string {
    YtVideo.ShortLinkPrefix + videoId
  }

  /** The line of the list that shows the video at index `index`: its number
      `index + 1` between asterisks, its title and length, and its link. */
  function Entry(video: Video, index: nat): string {
    "*" + Decimal(index + 1) + ".* " + video.title + " (" + video.timestamp + ")\n\U{1F517} " + ShortLink(video.videoId)
  }

  /** `videos.map(...).join('\n\n')` */
  function ResultsText(videos: seq<Video>): string {
    Join(seq(|videos|, i requires 0 <= i < |videos| => Entry(videos[i], i)), "\n\n")
  }

  /** The number an entry shows, as the text between its first `*` and the
      `.*` after it. */
  function ShownNumber(video: Video, index: nat): (r: string)
    ensures r == Entry(video, index)[1..1 + |Decimal(index + 1)|]
  {
    var e := Entry(video, index);
    assert e[1..1 + |Decimal(index + 1)|] == Decimal(index + 1);
    Decimal(index + 1)
  }

  // ---------------------------------------------------------------------
  // The search command (plugins/dl-play.js:5-45)

  datatype SearchOutcome =
    | MissingQuery                 // no text: the usage is thrown
    | SearchFailed                 // the search threw: "An error occurred while searching."
    | NoResults(query: string)     // "No results found for ..."
    | Listed(query: string, results: string)   // the list went out and a session was stored

  /** `handler` for a message from `sender` with argument text `text`. The
      search is an input: `found` is `None` when it threw and otherwise the
      videos it returned; `key` is the key of the list message. */
  function Search(st: PlayState, sender: Sender, text: string, found: Option<seq<Video>>, key: MessageId)
    : (r: (PlayState, SearchOutcome))
    requires st.timers.Valid()
    ensures r.1.MissingQuery? <==> text == []
    ensures r.1.SearchFailed? <==> text != [] && found.None?
    ensures r.1.Listed? <==> text != [] && found.Some? && found.value != []
    ensures (r.1.NoResults? || r.1.Listed?) ==> r.1.query == Trim(text)
    ensures r.1.Listed? ==> r.1.results == ResultsText(found.value)
    ensures !r.1.Listed? ==> r.0 == st
    ensures r.1.Listed? ==>
      && sender in r.0.youtubeSearch
      && var s := r.0.youtubeSearch[sender];
      && s == SearchSession(found.value, key, s.timer)
      && s.timer !in st.timers.armed
      && r.0.youtubeSearch == st.youtubeSearch[sender := s]
      && r.0.youtubeDownloadSession == st.youtubeDownloadSession
      && r.0.timers.armed == st.timers.armed[s.timer := PlayTimer(SearchTable, sender)]
    ensures st.Valid() ==> r.0.Valid()
  {
    if text == [] then (st, MissingQuery)
    else
      var query := Trim(text);
      match found
      case None => (st, SearchFailed)
      case Some(videos) =>
        if videos == [] then (st, NoResults(query))
        else
          var (timers, timer) := SetTimeout(st.timers, PlayTimer(SearchTable, sender));
          var session := SearchSession(videos, key, timer);
          (st.(youtubeSearch := st.youtubeSearch[sender := session], timers := timers),
           Listed(query, ResultsText(videos)))
  }

  // ---------------------------------------------------------------------
  // The replies (plugins/dl-play.js:48-103)

  datatype ReplyOutcome =
    | Ignored                          // no session, or the message does not count for it
    | InvalidSelection                 // "Invalid choice. Please select a valid number from the list."
    | Selected(selectedUrl: string)    // the format question went out
    | InvalidFormat                    // "Invalid choice. Reply with 1 for video or 2 for audio."
    | VideoRequested(url: string)      // the video command runs with `args == [url]`
    | AudioRequested(url: string)      // the audio command runs with `args == [url]`

  /** The number a message's trimmed text reads as under `parseInt`. */
  function ReplyNumber(m: Message): Option<int> {
    ParseInt(Trim(m.text))
  }

  /** A search selection is accepted: `parseInt` gives a number between 1
      and the number of results. */
  predicate ValidSelection(n: Option<int>, count: nat) {
    n.Some? && 1 <= n.value <= count
  }

  /** An accepted selection of the video at `index`: the search session
      and its timer go, and a download-choice session holding that video's
      link comes, with a new timer. A download-choice session the sender
      already had is overwritten and its timer left pending. */
  function Selection(st: PlayState, sender: Sender, index: nat): (r: PlayState)
    requires st.timers.Valid() && sender in st.youtubeSearch && index < |st.youtubeSearch[sender].videos|
    ensures r.timers.Valid()
    ensures
      && var s := st.youtubeSearch[sender];
      && r.youtubeSearch == st.youtubeSearch - {sender}
      && sender in r.youtubeDownloadSession
      && var d := r.youtubeDownloadSession[sender];
      && d.selectedUrl == ShortLink(s.videos[index].videoId)
      && d.timer !in st.timers.armed
      && r.youtubeDownloadSession == st.youtubeDownloadSession[sender := d]
      && r.timers.armed == (st.timers.armed - {s.timer})[d.timer := PlayTimer(DownloadTable, sender)]
    ensures st.Valid() ==> r.Valid()
  {
    var s := st.youtubeSearch[sender];
    var cleared := ClearTimeout(st.timers, s.timer);
    var url := ShortLink(s.videos[index].videoId);
    var (timers, timer) := SetTimeout(cleared, PlayTimer(DownloadTable, sender));
    var r := PlayState(st.youtubeSearch - {sender},
                       st.youtubeDownloadSession[sender := DownloadSession(url, timer)],
                       timers);
    assert st.Valid() ==> r.Valid() by {
      if st.Valid() {
        forall x | x in r.youtubeSearch
          ensures r.youtubeSearch[x].timer in r.timers.armed
          ensures r.timers.armed[r.youtubeSearch[x].timer] == PlayTimer(SearchTable, x)
        {
          var t := st.youtubeSearch[x].timer;
          assert st.timers.armed[t] == PlayTimer(SearchTable, x);
          assert t != s.timer && t != timer;
        }
        forall x | x in r.youtubeDownloadSession && x != sender
          ensures r.youtubeDownloadSession[x].timer in r.timers.armed
          ensures r.timers.armed[r.youtubeDownloadSession[x].timer] == PlayTimer(DownloadTable, x)
        {
          var t := st.youtubeDownloadSession[x].timer;
          assert st.timers.armed[t] == PlayTimer(DownloadTable, x);
          assert t != s.timer && t != timer;
        }
      }
    }
    r
  }

  /** The first branch of `handler.before`, taken whenever the sender has
      a search session: a reply to the list whose trimmed text reads as a
      number between 1 and the number of results makes the selection;
      anything else leaves the state as it was. */
  function SelectVideo(st: PlayState, m: Message): (r: (PlayState, ReplyOutcome))
    requires st.timers.Valid() && m.sender in st.youtubeSearch
    ensures var s := st.youtubeSearch[m.sender];
      && (r.1.Ignored? <==> m.quoted != Some(s.key) || m.text == [])
      && (r.1.InvalidSelection? <==> m.quoted == Some(s.key) && m.text != [] && !ValidSelection(ReplyNumber(m), |s.videos|))
      && (r.1.Ignored? || r.1.InvalidSelection? || r.1.Selected?)
    ensures !r.1.Selected? ==> r.0 == st
    ensures r.1.Selected? ==>
      && var s := st.youtubeSearch[m.sender];
      && var n := ReplyNumber(m).value;
      && 1 <= n <= |s.videos|
      && r.1.selectedUrl == ShortLink(s.videos[n - 1].videoId)
      && r.0 == Selection(st, m.sender, n - 1)
    ensures st.Valid() ==> r.0.Valid()
  {
    var s := st.youtubeSearch[m.sender];
    if m.quoted.None? || m.quoted.value != s.key || m.text == [] then (st, Ignored)
    else
      var n := ReplyNumber(m);
      if n.None? || n.value < 1 || n.value > |s.videos| then (st, InvalidSelection)
      else (Selection(st, m.sender, n.value - 1), Selected(ShortLink(s.videos[n.value - 1].videoId)))
  }

  /** The accepting case of `SelectVideo`, stated on its own. */
  lemma SelectVideoAccepts(st: PlayState, m: Message, index: nat)
    requires st.timers.Valid() && m.sender in st.youtubeSearch
    requires m.quoted == Some(st.youtubeSearch[m.sender].key) && m.text != []
    requires ReplyNumber(m) == Some(index + 1) && index < |st.youtubeSearch[m.sender].videos|
    ensures SelectVideo(st, m)
            == (Selection(st, m.sender, index), Selected(ShortLink(st.youtubeSearch[m.sender].videos[index].videoId)))
  {
  }

  /** The second branch of `handler.before`, taken when the sender has a
      download-choice session and no search session: any text counts, no
      quote is needed; 1 and 2 clear the session and its timer and hand the
      stored link to the video or the audio command, anything else (`NaN`
      included) is rejected and changes nothing. */
  function ChooseFormat(st: PlayState, m: Message): (r: (PlayState, ReplyOutcome))
    requires st.timers.Valid() && m.sender in st.youtubeDownloadSession
    ensures r.1.Ignored? <==> m.text == []
    ensures r.1.VideoRequested? <==> m.text != [] && ReplyNumber(m) == Some(1)
    ensures r.1.AudioRequested? <==> m.text != [] && ReplyNumber(m) == Some(2)
    ensures r.1.Ignored? || r.1.InvalidFormat? || r.1.VideoRequested? || r.1.AudioRequested?
    ensures r.1.Ignored? || r.1.InvalidFormat? ==> r.0 == st
    ensures r.1.VideoRequested? || r.1.AudioRequested? ==>
      && var d := st.youtubeDownloadSession[m.sender];
      && (r.1.VideoRequested? ==> r.1.url == d.selectedUrl)
      && (r.1.AudioRequested? ==> r.1.url == d.selectedUrl)
      && r.0.youtubeSearch == st.youtubeSearch
      && r.0.youtubeDownloadSession == st.youtubeDownloadSession - {m.sender}
      && r.0.timers.armed == st.timers.armed - {d.timer}
    ensures st.Valid() ==> r.0.Valid()
  {
    var d := st.youtubeDownloadSession[m.sender];
    if m.text == [] then (st, Ignored)
    else
      var choice := ReplyNumber(m);
      if choice == Some(1) || choice == Some(2) then
        var next := st.(youtubeDownloadSession := st.youtubeDownloadSession - {m.sender},
                        timers := ClearTimeout(st.timers, d.timer));
        (next, if choice == Some(1) then VideoRequested(d.selectedUrl) else AudioRequested(d.selectedUrl))
      else (st, InvalidFormat)
  }

  /** `handler.before`. A pending search session takes precedence: while
      the sender has one, the download-choice session is neither consulted
      nor resolved, and no command is handed a link. */
  function Reply(st: PlayState, m: Message): (r: (PlayState, ReplyOutcome))
    requires st.timers.Valid()
    ensures m.sender in st.youtubeSearch ==>
      && !r.1.VideoRequested? && !r.1.AudioRequested?
      && (!r.1.Selected? ==> r.0.youtubeDownloadSession == st.youtubeDownloadSession)
    ensures m.sender in st.youtubeSearch ==> r == SelectVideo(st, m)
    ensures m.sender !in st.youtubeSearch && m.sender in st.youtubeDownloadSession ==> r == ChooseFormat(st, m)
    ensures m.sender !in st.youtubeSearch && m.sender !in st.youtubeDownloadSession ==> r == (st, Ignored)
    ensures st.Valid() ==> r.0.Valid()
  {
    if m.sender in st.youtubeSearch then SelectVideo(st, m)
    else if m.sender in st.youtubeDownloadSession then ChooseFormat(st, m)
    else (st, Ignored)
  }

  datatype ExpiryOutcome =
    | NotPending
    | SearchExpired(sender: Sender)      // "Search session expired. Please try again."
    | DownloadExpired(sender: Sender)    // "Download session expired. Please try again."

  /** A pending timer fires: its callback deletes whatever entry its table
      holds under its sender, without checking that it is the session the
      timer was set for, and sends one expiry message. */
  function Expire(st: PlayState, id: TimerId): (r: (PlayState, ExpiryOutcome))
    ensures r.1.NotPending? <==> id !in st.timers.armed
    ensures r.1.NotPending? ==> r.0 == st
    ensures r.1.SearchExpired? ==>
      && st.timers.armed[id] == PlayTimer(SearchTable, r.1.sender)
      && r.0.youtubeSearch == st.youtubeSearch - {r.1.sender}
      && r.0.youtubeDownloadSession == st.youtubeDownloadSession
    ensures r.1.DownloadExpired? ==>
      && st.timers.armed[id] == PlayTimer(DownloadTable, r.1.sender)
      && r.0.youtubeSearch == st.youtubeSearch
      && r.0.youtubeDownloadSession == st.youtubeDownloadSession - {r.1.sender}
    ensures !r.1.NotPending? ==> r.0.timers.armed == st.timers.armed - {id}
    ensures st.Valid() ==> r.0.Valid()
  {
    if id !in st.timers.armed then (st, NotPending)
    else
      var PlayTimer(table, sender) := st.timers.armed[id];
      var timers := Timers(st.timers.armed - {id}, st.timers.next);
      match table
      case SearchTable => (st.(youtubeSearch := st.youtubeSearch - {sender}, timers := timers), SearchExpired(sender))
      case DownloadTable =>
        (st.(youtubeDownloadSession := st.youtubeDownloadSession - {sender}, timers := timers), DownloadExpired(sender))
  }

  // ---------------------------------------------------------------------
  // Properties of the flow

  /** The number shown for the video at index `i`, sent back as the reply
      to the list, selects that very video. */
  lemma {:induction false} ShownNumberSelectsVideo(st: PlayState, m: Message, i: nat)
    requires st.timers.Valid() && m.sender in st.youtubeSearch
    requires i < |st.youtubeSearch[m.sender].videos|
    requires m.quoted == Some(st.youtubeSearch[m.sender].key)
    requires m.text == ShownNumber(st.youtubeSearch[m.sender].videos[i], i)
    ensures SelectVideo(st, m).1 == Selected(ShortLink(st.youtubeSearch[m.sender].videos[i].videoId))
    ensures Reply(st, m) == SelectVideo(st, m)
  {
    DecimalReadsBack(i + 1);
    SelectVideoAccepts(st, m, i);
  }


  /** A link the search flow hands on passes the video command's URL check
      and gives back the video id, whenever the id is non-empty and holds no
      `/`, `?` or line terminator. */
  lemma {:induction false} HandedLinkAcceptedByVideoCommand(ytv: YtVideo.YtvState, sender: Sender, videoId: string,
                                                           title: string, key: MessageId)
    requires ytv.timers.Valid()
    requires RestOfLine(videoId) && YtVideo.Free(videoId, {'/', '?'})
    ensures var url := ShortLink(videoId);
            IsYoutubeUrl(url) && YtVideo.VideoId(url) == Some(videoId)
            && YtVideo.Request(ytv, sender, [url], Some(title), key).1 == YtVideo.Offered(videoId)
  {
    ShortLinkIsYoutubeUrl(videoId);
    YtVideo.ShortLinkRoundTrip(videoId, []);
    assert ShortLink(videoId) == YtVideo.ShortLinkPrefix + videoId + [];
  }

  /** The same link passes the audio command's URL check. */
  lemma {:induction false} HandedLinkAcceptedByAudioCommand(videoId: string, title: string)
    requires RestOfLine(videoId)
    ensures var url := ShortLink(videoId);
            YtAudio.Handler([url], Some(title), true, true) == YtAudio.Sent(url, YtAudio.SanitizeFileName(title) + ".mp3")
  {
    ShortLinkIsYoutubeUrl(videoId);
    assert Join([ShortLink(videoId)], " ") == ShortLink(videoId);
  }

  /** The stale-timer hazard: a second search by the same sender stores a
      new session without clearing the old one's timer, and when that old
      timer fires it deletes the new session. */
  lemma {:induction false} StaleTimerDropsNewSearch(st: PlayState, sender: Sender, text: string,
                                                    found: Option<seq<Video>>, key: MessageId)
    requires st.Valid() && sender in st.youtubeSearch
    requires Search(st, sender, text, found, key).1.Listed?
    ensures var st1 := Search(st, sender, text, found, key).0;
            var (st2, outcome) := Expire(st1, st.youtubeSearch[sender].timer);
            sender in st1.youtubeSearch && outcome == SearchExpired(sender) && sender !in st2.youtubeSearch
  {
    var old_timer := st.youtubeSearch[sender].timer;
    var st1 := Search(st, sender, text, found, key).0;
    assert old_timer in st.timers.armed;
    assert old_timer != st1.youtubeSearch[sender].timer;
    assert st1.timers.armed[old_timer] == PlayTimer(SearchTable, sender);
  }

  /** The same hazard for the format question: a sender who still has a
      download-choice session, searches again and selects a video gets a
      new download-choice session, and the first session's timer, left
      pending, deletes it when it fires. */
  lemma {:induction false} StaleTimerDropsNewDownload(st: PlayState, m: Message)
    requires st.Valid() && m.sender in st.youtubeSearch && m.sender in st.youtubeDownloadSession
    requires SelectVideo(st, m).1.Selected?
    ensures var st1 := SelectVideo(st, m).0;
            var (st2, outcome) := Expire(st1, st.youtubeDownloadSession[m.sender].timer);
            m.sender in st1.youtubeDownloadSession && outcome == DownloadExpired(m.sender)
            && m.sender !in st2.youtubeDownloadSession
  {
    var old_timer := st.youtubeDownloadSession[m.sender].timer;
    var st1 := SelectVideo(st, m).0;
    assert old_timer in st.timers.armed;
    assert old_timer != st.youtubeSearch[m.sender].timer;
    assert old_timer != st1.youtubeDownloadSession[m.sender].timer;
    assert st1.timers.armed[old_timer] == PlayTimer(DownloadTable, m.sender);
  }

  // ---------------------------------------------------------------------
  // The connection as the plugin updates it

  /** The `conn` object as this plugin sees it: its two session tables and
      the timers pending on it. */
  class PlayConn {
    var youtubeSearch: map<Sender, SearchSession>
    var youtubeDownloadSession: map<Sender, DownloadSession>
    var timers: Timers<PlayTimer>

    function State(): PlayState
      reads this
    {
      PlayState(youtubeSearch, youtubeDownloadSession, timers)
    }

    ghost predicate Valid()
      reads this
    {
      State().Valid()
    }

    constructor()
      ensures Valid() && State() == Initial()
    {
      youtubeSearch := map[];
      youtubeDownloadSession := map[];
      timers := NoTimers();
    }

    method Handler(sender: Sender, text: string, found: Option<seq<Video>>, key: MessageId)
      returns (outcome: SearchOutcome)
      requires Valid()
      modifies this
      ensures Valid()
      ensures (State(), outcome) == Search(old(State()), sender, text, found, key)
    {
      if text == [] {
        return MissingQuery;
      }
      var query := Trim(text);
      if found.None? {
        return SearchFailed;
      }
      var videos := found.value;
      if videos == [] {
        return NoResults(query);
      }
      var (t, timer) := SetTimeout(timers, PlayTimer(SearchTable, sender));
      timers := t;
      youtubeSearch := youtubeSearch[sender := SearchSession(videos, key, timer)];
      outcome := Listed(query, ResultsText(videos));
    }

    method Before(m: Message) returns (outcome: ReplyOutcome)
      requires Valid()
      modifies this
      ensures Valid()
      ensures (State(), outcome) == Reply(old(State()), m)
    {
      if m.sender in youtubeSearch {
        outcome := Select(m);
      } else if m.sender in youtubeDownloadSession {
        outcome := Choose(m);
      } else {
        outcome := Ignored;
      }
    }

    method Select(m: Message) returns (outcome: ReplyOutcome)
      requires Valid() && m.sender in youtubeSearch
      modifies this
      ensures Valid()
      ensures (State(), outcome) == SelectVideo(old(State()), m)
    {
      ghost var st := State();
      var s := youtubeSearch[m.sender];
      if m.quoted.None? || m.quoted.value != s.key || m.text == [] {
        assert SelectVideo(st, m) == (st, Ignored);
        return Ignored;
      }
      var n := ReplyNumber(m);
      if n.None? || n.value < 1 || n.value > |s.videos| {
        assert SelectVideo(st, m) == (st, InvalidSelection);
        return InvalidSelection;
      }
      var index := n.value - 1;
      timers := ClearTimeout(timers, s.timer);
      youtubeSearch := youtubeSearch - {m.sender};
      var url := ShortLink(s.videos[index].videoId);
      var (t, timer) := SetTimeout(timers, PlayTimer(DownloadTable, m.sender));
      timers := t;
      youtubeDownloadSession := youtubeDownloadSession[m.sender := DownloadSession(url, timer)];
      outcome := Selected(url);
      assert State() == Selection(st, m.sender, index);
      SelectVideoAccepts(st, m, index);
    }

    method Choose(m: Message) returns (outcome: ReplyOutcome)
      requires Valid() && m.sender in youtubeDownloadSession
      modifies this
      ensures Valid()
      ensures (State(), outcome) == ChooseFormat(old(State()), m)
    {
      ghost var st := State();
      var d := youtubeDownloadSession[m.sender];
      if m.text == [] {
        outcome := Ignored;
      } else {
        var choice := ReplyNumber(m);
        if choice == Some(1) || choice == Some(2) {
          timers := ClearTimeout(timers, d.timer);
          youtubeDownloadSession := youtubeDownloadSession - {m.sender};
          outcome := if choice == Some(1) then VideoRequested(d.selectedUrl) else AudioRequested(d.selectedUrl);
        } else {
          outcome := InvalidFormat;
        }
      }
      assert (State(), outcome) == ChooseFormat(st, m);
    }

    /** The timer `id` fires. */
    method Fire(id: TimerId) returns (outcome: ExpiryOutcome)
      requires Valid()
      modifies this
      ensures Valid()
      ensures (State(), outcome) == Expire(old(State()), id)
    {
      if id !in timers.armed {
        return NotPending;
      }
      var PlayTimer(table, sender) := timers.armed[id];
      timers := Timers(timers.armed - {id}, timers.next);
      if table == SearchTable {
        youtubeSearch := youtubeSearch - {sender};
        outcome := SearchExpired(sender);
      } else {
        youtubeDownloadSession := youtubeDownloadSession - {sender};
        outcome := DownloadExpired(sender);
      }
    }
  }
}
