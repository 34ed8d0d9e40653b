# Download plugins of a WhatsApp bot, modelled in Dafny

The bot answers chat commands through plugins. This project models the five
download plugins whose behaviour is more than a call to an outside service:

- **`.yts`** (`plugins/dl-play.js`) searches YouTube and lists the results. A
  reply to that list with a result number opens a second question, video or
  audio. The answer hands the chosen `https://youtu.be/<id>` link to the video
  or the audio command.
- **`.ytv`** (`plugins/dl-ytv1.js`) checks a YouTube link and extracts its
  video id. It then offers five qualities and waits for a reply to its
  thumbnail message. The chosen quality is a lookup in a fixed object.
- **`.pon`** (`plugins/pon.js`) asks yt-dlp for the formats of a link and
  parses yt-dlp's format table. It lists the formats and starts the download
  of the one whose number the sender sends next.
- **`.yta`** (`plugins/dl-yt1.js`) checks a YouTube link and builds the
  yt-dlp cookie option. It derives the audio file name from the video title.
- **`.fb`** (`plugins/dl-facebook.js`) normalises a Facebook link to a
  `share/v/` link. It reads the downloaded file's path from yt-dlp's output
  and decides whether the file goes out as a document.

Three of the plugins keep a per-sender session on the shared connection object:
`youtubeSearch` and `youtubeDownloadSession`, `ytDownloads` and `hlsDownloads`.
Each session is created by the command and resolved by the plugin's `before`
hook. A 150-second timer removes it. For each of these plugins the model has
two layers:

- **Step functions** over a state value (`Play.Search`, `Play.Reply`,
  `YtVideo.Request`, `Pon.Choose`, ...) are the specification. The
  properties are proved about them.
- **A class** (`Play.PlayConn`, `YtVideo.YtvConn`, `Pon.PonConn`) has the
  connection's tables and the pending timers as fields. Its methods update
  those fields in place. Each method is proved to produce exactly the state and
  outcome of its step function, and to keep the class invariant.

A timer is an explicit event. `Chat.SetTimeout` arms a fresh timer id whose
callback closes over the sender, and firing that id runs the callback. The
callbacks delete by sender without checking which session they were set for.
The model keeps this, and the stale-timer hazard it causes is stated as
lemmas.

The outcomes of outside calls are inputs of the step functions:

- yt-search's result;
- yt-dlp's output, or its failure;
- whether the download succeeded.

Replies are outcomes (`InvalidChoice`, `Offered(...)`, ...) and are not
messages sent.

Module layout:

- `js.dfy` (`Js`) holds the JavaScript built-ins the plugins rely on:
  - `trim`;
  - `parseInt(s, 10)`;
  - `split`, `join` and `includes`;
  - the leftmost-match scan of a regular expression.
- `chat.dfy` (`Chat`) holds messages, senders and the timer table.
- `youtube_url.dfy` (`YoutubeUrl`) holds the YouTube link pattern that
  `dl-ytv1.js` and `dl-yt1.js` share.
- Each plugin has one module: `Play`, `YtVideo`, `Pon`, `YtAudio` and
  `Facebook`.

## Model

| member | source | states |
|---|---|---|
| Js.Trim | plugins/dl-play.js:8 | `trim` leaves no white space at either end and never lengthens the text |
| Js.TrimIsInfix | plugins/dl-play.js:8 | what `trim` removes is a white-space prefix and a white-space suffix; the rest is kept as it was |
| Js.TrimOfTrimmed | plugins/pon.js:117 | text with no white space at either end is its own trim |
| Js.Decimal | plugins/dl-play.js:27 | the printed number `${index + 1}` is a non-empty run of digits whose value is the number |
| Js.ParseInt | plugins/dl-play.js:57 | `parseInt(s, 10)` is NaN exactly when no digit follows the leading white space and optional sign; otherwise it is the signed value of the leading digit run, trailing text ignored |
| Js.ParseIntOfDecimal | plugins/pon.js:169 | a printed number followed by any non-digit text parses back to the number ("2 please" reads as 2) |
| Js.DecimalReadsBack | plugins/dl-play.js:57 | a printed number, trimmed and parsed, gives the number back |
| Js.IndexOf | plugins/dl-ytv1.js:24 | the search returns the leftmost occurrence, or none when there is none |
| Js.Split | plugins/dl-ytv1.js:20 | `split` gives at least one piece and no piece contains the separator |
| Js.JoinSplit | plugins/dl-ytv1.js:20 | joining the pieces of a split with the separator gives back the text |
| Js.Join | plugins/dl-play.js:28 | `join` of no pieces is the empty text; beyond that no contract of its own, the body is `Array.prototype.join`; `Js.JoinSplit` states only that joining the pieces of a split gives the text back, which says nothing about pieces that contain the separator |
| Chat.SetTimeout | plugins/dl-play.js:40-43 | `setTimeout` arms a new timer id, not pending before, whose callback closes over the given sender; other timers are untouched |
| Chat.ClearTimeout | plugins/dl-play.js:63 | `clearTimeout` disarms that id only |
| YoutubeUrl.IsYoutubeUrlIsShape | plugins/dl-ytv1.js:15-17 | the link check accepts exactly: optional `http://`/`https://`, optional `www.`, `youtube.com` or `youtu.be`, `/`, then at least one character, all on one line |
| YoutubeUrl.ShortLinkIsYoutubeUrl | plugins/dl-play.js:68 | a `https://youtu.be/<id>` link built by the search flow passes the link check |
| YoutubeUrl.IsYoutubeUrl | plugins/dl-ytv1.js:15 | the `youtubeRegex` test (also plugins/dl-yt1.js:52); no contract of its own, it is characterised by `YoutubeUrl.IsYoutubeUrlIsShape` |
| YtAudio.ReplaceReservedRuns | plugins/dl-yt1.js:40 | the replaced title holds none of `< > : " / \ \| ? *` and is no longer than the title |
| YtAudio.ReplaceRunsPiecewise | plugins/dl-yt1.js:40 | the replacement equals the position-by-position reading: kept characters stay in order, each maximal reserved run becomes exactly one `_` |
| YtAudio.ReplaceRunsOfClean | plugins/dl-yt1.js:40 | a title without reserved characters is left unchanged |
| YtAudio.SanitizeFileName | plugins/dl-yt1.js:38-43 | the name is the first min(100, length) characters of the replaced title, so it is at most 100 long and has no reserved character |
| YtAudio.SanitizeIdempotent | plugins/dl-yt1.js:38-43 | sanitizing a sanitized name changes nothing |
| YtAudio.CookieOption | plugins/dl-yt1.js:16 | no cookies path, or the empty one, gives the empty option; otherwise the option is `--cookies "<path>"` |
| YtAudio.Handler | plugins/dl-yt1.js:45-98 | no argument asks for a URL; the arguments joined with spaces are the URL; a URL failing the link check is rejected; the audio is sent, as `<sanitized title>.mp3`, exactly when the title lookup, the download and the send all succeed |
| Facebook.FirstIdMatch | plugins/dl-facebook.js:17-18 | the id pattern's match is the leftmost position where a marker is followed by an alphanumeric character |
| Facebook.VideoId | plugins/dl-facebook.js:17-19 | there is no id exactly when nowhere does a marker `videos/`, `share/v/` or `share/r/` precede an alphanumeric character; the id is the whole alphanumeric run after the leftmost such marker |
| Facebook.NormalizeUrl | plugins/dl-facebook.js:14-26 | the link is rewritten to `https://www.facebook.com/share/v/<id>`; without an id it fails with '⚠️ PLEASE GIVE A VALID URL.' |
| Facebook.VideoIdOfShareLink | plugins/dl-facebook.js:17-22 | the id of a normalised link is the id it was built from |
| Facebook.NormalizeIdempotent | plugins/dl-facebook.js:14-26 | normalising a normalised link gives it back |
| Facebook.ReelLinkRewritten | plugins/dl-facebook.js:17-22 | a `share/r/<id>` link is rewritten to the `share/v/<id>` link |
| Facebook.NormalizedIsFacebookUrl | plugins/dl-facebook.js:28-34 | every normalised link passes `urlRegex`, so the second rejection can never happen |
| Facebook.ShareLinkIsFacebookUrl | plugins/dl-facebook.js:30 | every `https://www.facebook.com/share/v/<id>` link with a non-empty id passes `urlRegex` |
| Facebook.IsFacebookUrl | plugins/dl-facebook.js:30 | no contract of its own; the body is the case-insensitive `urlRegex` test read as a disjunction over the optional scheme; `Facebook.ShareLinkIsFacebookUrl` and `Facebook.NormalizedIsFacebookUrl` state only that share links and normalised links pass it, not which texts it rejects |
| Facebook.Handler | plugins/dl-facebook.js:6-34 | no argument gives the usage text; the download runs on the normalised link exactly when normalisation succeeds, and that link passes `urlRegex`; a rejection carries the invalid-URL message |
| Facebook.FirstDestination | plugins/dl-facebook.js:66 | the path pattern's match is the leftmost `Destination: ` followed by a character on the same line |
| Facebook.DestinationPath | plugins/dl-facebook.js:66-75 | there is no path exactly when the pattern matches nowhere; the path is the rest of the line after the first match, non-empty and free of line terminators |
| Facebook.SendAsDocument | plugins/dl-facebook.js:91 | a file goes out as a document exactly when it has at least 64·1024·1024 + 1 bytes |
| YtVideo.SecondPiece | plugins/dl-ytv1.js:25 | `split(sep)[1]` is defined exactly when the split has at least two pieces |
| YtVideo.FirstPair | plugins/dl-ytv1.js:33-34 | the pair found is the first pair of the query whose name matches, or none when no pair matches |
| YtVideo.SearchParam | plugins/dl-ytv1.js:33-34 | `URLSearchParams(query).get(name)` is null without a query or a matching pair; otherwise it is the value of the first pair with that name |
| YtVideo.VideoId | plugins/dl-ytv1.js:20-38 | an extracted id is never empty (an empty id throws) |
| YtVideo.ShortLinkRoundTrip | plugins/dl-ytv1.js:28-29 | the id of `https://youtu.be/<id>` followed by any query is `<id>`, for a non-empty id without `/` or `?` |
| YtVideo.ShortsRoundTrip | plugins/dl-ytv1.js:15-25 | for every prefix the link check admits (no scheme, `http://` or `https://`, then optionally `www.`), the id of `<prefix>youtube.com/shorts/<id>` followed by nothing or by a `?` query is `<id>`, for a non-empty id without `/` or `?` |
| YtVideo.WatchRoundTrip | plugins/dl-ytv1.js:32-34 | the id of `https://www.youtube.com/watch?v=<id>` is `<id>`, for a non-empty id without `?`, `&`, `%` or `+` |
| YtVideo.QualityLookup | plugins/dl-ytv1.js:95-103 | `qualityMap[choice]` is truthy exactly for the keys "1" to "5", which give their selectors, and the names inherited from `Object.prototype` |
| YtVideo.QualityOfNumber | plugins/dl-ytv1.js:95-101 | the number n shown in the quality menu selects the n-th selector |
| YtVideo.SelectorOnlyByNumber | plugins/dl-ytv1.js:95-103 | a selector is chosen only by the exact text of a number from 1 to 5 |
| YtVideo.LookupExamples | plugins/dl-ytv1.js:103 | "01" and "2x" are rejected although `parseInt` reads "2x" as 2; "constructor" is accepted |
| YtVideo.Initial | plugins/dl-ytv1.js:75 | the table starts empty and the invariant holds |
| YtVideo.Request | plugins/dl-ytv1.js:10-85 | each rejection (no argument, failed link check, no id, no video found) happens exactly in its case and leaves the state unchanged; an offer stores the session (link as given, thumbnail key, title) under the sender, overwriting any earlier one, with a new timer, and keeps the invariant |
| YtVideo.Choose | plugins/dl-ytv1.js:87-116 | a message is ignored unless the sender has a session, it quotes the thumbnail and it has text; an unknown choice changes nothing; an accepted one clears the timer and removes the session before the download, which uses the stored link, the chosen selector and `<title>.mkv` |
| YtVideo.Expire | plugins/dl-ytv1.js:80-83 | a pending timer removes whatever session its sender holds, the current one or not |
| YtVideo.StaleTimerDropsNewSession | plugins/dl-ytv1.js:75-84 | a second request overwrites the session without clearing the first timer, and that timer then removes the new session |
| YtVideo.YtvConn.constructor | plugins/dl-ytv1.js:75 | a new connection has no session and satisfies the invariant |
| YtVideo.YtvConn.Handler | plugins/dl-ytv1.js:10-85 | updates the table and timers in place exactly as `Request`, keeping the invariant |
| YtVideo.YtvConn.Before | plugins/dl-ytv1.js:87-116 | updates the table and timers in place exactly as `Choose`, keeping the invariant |
| YtVideo.YtvConn.Fire | plugins/dl-ytv1.js:80-83 | runs a timer's callback in place exactly as `Expire`, keeping the invariant |
| Play.Initial | plugins/dl-play.js:36 | both tables start empty and the invariant holds |
| Play.ShownNumber | plugins/dl-play.js:26-28 | the number printed in front of the result at index i is `i + 1`, as it appears in that result's line |
| Play.ResultsText | plugins/dl-play.js:26-28 | no contract of its own; the body joins one entry per video with blank lines; `Play.ShownNumber` states only that the entry for index i shows the number i + 1, and no lemma relates the joined text to its entries |
| Play.Search | plugins/dl-play.js:5-45 | an empty query, a failed search and no results each leave the state unchanged; otherwise the list of the results is sent, the session (results, key of the list) is stored under the sender with a new timer, overwriting any earlier one, and the download table is untouched |
| Play.Selection | plugins/dl-play.js:63-81 | a selection clears the search timer, removes the search session and stores one download session holding `https://youtu.be/<id>` of the chosen video, with a new timer |
| Play.SelectVideo | plugins/dl-play.js:53-83 | a message is ignored unless it quotes the results and has text; the choice is accepted exactly when `parseInt` of the trimmed text is n with 1 ≤ n ≤ the number of results, selecting result n; otherwise nothing changes |
| Play.SelectVideoAccepts | plugins/dl-play.js:57-81 | a quoting reply that reads as i + 1 leads to the selection of result i |
| Play.ChooseFormat | plugins/dl-play.js:86-102 | only the sender is matched; empty text is ignored; 1 hands the link to the video command and 2 to the audio command, each clearing the timer and removing the session; any other value, NaN included, changes nothing |
| Play.Reply | plugins/dl-play.js:48-103 | a sender with a search session is answered by the selection step `SelectVideo`, whatever download session it also has, so no command is handed a link; otherwise a sender with a download session is answered by `ChooseFormat`; without either session nothing happens |
| Play.Expire | plugins/dl-play.js:40-80 | a pending timer removes whatever entry its table holds under its sender, and touches nothing else |
| Play.ShownNumberSelectsVideo | plugins/dl-play.js:26-67 | replying to the list with the number shown for result i selects exactly result i |
| Play.HandedLinkAcceptedByVideoCommand | plugins/dl-play.js:94 | the link handed to the video command passes its check, gives back the video id, and opens a quality session |
| Play.HandedLinkAcceptedByAudioCommand | plugins/dl-play.js:98 | the link handed to the audio command passes its check and leads to the audio being sent |
| Play.StaleTimerDropsNewSearch | plugins/dl-play.js:36-44 | a second search overwrites the session without clearing the first timer, and that timer then removes the new session |
| Play.StaleTimerDropsNewDownload | plugins/dl-play.js:75-80 | a sender who still has a format question, searches again and selects a video gets a new format session without the first one's timer being cleared, and that timer then removes the new session |
| Play.PlayConn.constructor | plugins/dl-play.js:36 | a new connection has no sessions and satisfies the invariant |
| Play.PlayConn.Handler | plugins/dl-play.js:5-45 | updates the tables and timers in place exactly as `Search`, keeping the invariant |
| Play.PlayConn.Before | plugins/dl-play.js:48-103 | updates the tables and timers in place exactly as `Reply`, keeping the invariant |
| Play.PlayConn.Select | plugins/dl-play.js:53-83 | the search branch, in place, exactly as `SelectVideo` |
| Play.PlayConn.Choose | plugins/dl-play.js:86-102 | the download branch, in place, exactly as `ChooseFormat` |
| Play.PlayConn.Fire | plugins/dl-play.js:40-80 | runs a timer's callback in place exactly as `Expire`, keeping the invariant |
| Pon.Get | plugins/pon.js:16 | `get` returns the value stored under the key, or undefined when there is none |
| Pon.Set | plugins/pon.js:15 | after `set`, `get` of that key returns the value (overwriting) and every other key reads as before |
| Pon.Remove | plugins/pon.js:17 | after `remove`, `get` of that key is undefined, other keys read as before, and removing an absent key changes nothing |
| Pon.ReplaceDisallowed | plugins/pon.js:23 | every character outside `[A-Za-z0-9_-]` becomes one `_` and the others stay, one for one |
| Pon.SanitizeFileName | plugins/pon.js:22-25 | the name has length min(length, maxLength) and only allowed characters, each the input's character or `_` in its place |
| Pon.SanitizeIdempotent | plugins/pon.js:22-25 | sanitizing a sanitized name changes nothing |
| Pon.FormatId | plugins/pon.js:43 | the format id is the longest prefix of the line without white space, non-empty for every kept line |
| Pon.ResolutionAtIsPattern | plugins/pon.js:44 | a match of `\d+p` at a position is one or more digits followed by `p` |
| Pon.FirstResolution | plugins/pon.js:44 | the match found is the leftmost one, or none when there is none |
| Pon.ResolutionWholeNumber | plugins/pon.js:44 | the leftmost match starts a whole number: no digit precedes it |
| Pon.Resolution | plugins/pon.js:44 | "Unknown" exactly when there is no match; otherwise the matched text of the line, digits followed by `p` |
| Pon.FirstFileSize | plugins/pon.js:45 | the match of `~[\d.]+MiB` found is the leftmost one, or none when there is none |
| Pon.FileSize | plugins/pon.js:45 | "Unknown size" exactly when there is no match; otherwise the text after the `~` of the leftmost match: digits and dots, then `MiB` |
| Pon.KeptFormats | plugins/pon.js:41-46 | the filter keeps at most one format per line |
| Pon.KeptFormatsAppend | plugins/pon.js:41-46 | filtering and mapping keep the order of the lines |
| Pon.KeptFormatsMembers | plugins/pon.js:41-46 | a format is listed exactly when some line starting with a word character parses to it |
| Pon.HeaderRowIsKept | plugins/pon.js:41-43 | the header row of yt-dlp's table (`ID ...`) starts with a word character and is listed as a format with id `ID` |
| Pon.ParseLine | plugins/pon.js:42-47 | a kept line becomes its format id, resolution and file size; no contract of its own, each field is characterised by `Pon.FormatId`, `Pon.Resolution` and `Pon.FileSize` |
| Pon.ParseFormats | plugins/pon.js:38-47 | no contract of its own; the body trims the output, splits it into lines and applies `Pon.KeptFormats`, whose lemmas `Pon.KeptFormatsMembers` and `Pon.KeptFormatsAppend` state which formats are listed and in what order |
| Pon.HttpUrlIsTrimmed | plugins/pon.js:113-117 | a text that passes the link check has nothing for `trim` to remove, so the stored link is the text itself |
| Pon.IsHttpUrl | plugins/pon.js:113 | no contract of its own; the body is the case-insensitive `^https?://[^\s]+$` test; `Pon.HttpUrlIsTrimmed` states only that a passing text is its own trim |
| Pon.Initial | plugins/pon.js:13 | the table starts empty and the invariant holds |
| Pon.OptionLine | plugins/pon.js:132 | the line for the format at index i starts with the number i + 1 |
| Pon.OptionsText | plugins/pon.js:131-134 | no contract of its own; the body puts the option lines, joined by newlines, between the fixed header and footer; `Pon.OptionLine` states only that the line for index i starts with i + 1, and no lemma relates the joined text to its lines |
| Pon.Opened | plugins/pon.js:138-151 | storing a session overwrites any earlier one of the sender, arms a new timer and leaves the earlier timer pending |
| Pon.Request | plugins/pon.js:109-156 | a failed link check, a failed yt-dlp call and an empty format list each happen exactly in their case and leave the state unchanged; otherwise the list goes out and the session (link, trimmed title, command key, parsed formats) is stored with a new timer |
| Pon.Choose | plugins/pon.js:159-190 | only the sender is matched; the choice is accepted exactly when `parseInt` of the trimmed text is n with 1 ≤ n ≤ the number of formats, downloading format n to `<sanitized title>.mp4`; the session is removed only when the download succeeds and the timer is never cleared |
| Pon.Expire | plugins/pon.js:143-150 | a pending timer removes whatever session its sender holds, the current one or not, and says nothing when there is none |
| Pon.ShownNumberSelectsFormat | plugins/pon.js:131-176 | sending the number shown for format i picks exactly format i |
| Pon.ChoiceIgnoresQuote | plugins/pon.js:159-176 | the quoted message plays no part in the choice: the stored reply key is never checked |
| Pon.FailedDownloadCanBeRetried | plugins/pon.js:181-190 | after a failed download the session is still there, and the same choice can download again |
| Pon.PendingTimerDropsNewSession | plugins/pon.js:138-150 | any pending timer of the sender removes the session the sender opens next |
| Pon.StaleTimerDropsNewSession | plugins/pon.js:138-150 | a second request overwrites the session without clearing the first timer, and that timer then removes the new session |
| Pon.TimerOutlivesDownload | plugins/pon.js:143-183 | the timer stays pending after a completed download removes the session, and later removes a session the sender opens afterwards |
| Pon.PonConn.constructor | plugins/pon.js:12-13 | a new connection has no session and satisfies the invariant |
| Pon.PonConn.GetSession | plugins/pon.js:16 | the store's `get` on the connection's table |
| Pon.PonConn.SetSession | plugins/pon.js:15 | the store's `set`, updating the connection's table in place and nothing else |
| Pon.PonConn.RemoveSession | plugins/pon.js:17 | the store's `remove`, updating the connection's table in place and nothing else |
| Pon.PonConn.Handler | plugins/pon.js:109-156 | updates the table and timers in place exactly as `Request`, keeping the invariant |
| Pon.PonConn.Before | plugins/pon.js:159-190 | updates the table in place exactly as `Choose`, keeping the invariant |
| Pon.PonConn.Fire | plugins/pon.js:143-150 | runs a timer's callback in place exactly as `Expire`, keeping the invariant |

## Left out

- External processes are not modelled. These are yt-dlp, ffmpeg and `child_process`. Their outputs and failures are inputs of the step functions: the search result, yt-dlp's title and format listing, and whether the download succeeded.
- The file system is not modelled. This covers `fs` exists, stat and unlink, and the cleanup in `finally` blocks. It includes the `.mkv` fallback in `plugins/dl-ytv1.js:148`, which is dead code. It also includes the `.yta` cleanup, which never fires because `outputPath` is shadowed.
- The ffmpeg conversion in `uploadFile` is not modelled, because it is I/O. The float division of the file size in MB is left out with it.
- Sending and reactions are not modelled: `conn.reply`, `conn.sendFile`, `conn.sendMessage` and `m.react`. Reply texts appear only as outcome constructors. This includes the reaction with `rwait` in `plugins/dl-ytv1.js:90`. The file does not declare `rwait`, so it must be a global of the bot. If it is not, the hook throws before it looks at the reply. The model treats the reaction as sent.
- Message formatting is modelled only as far as the numbering goes: the numbered lines of the result and format lists. Captions and the video details text are not modelled.
- `path.resolve` and `path.join` are not modelled: they depend on the process's working directory. The models stop at the file name, `<sanitized title>.mp4`, `<title>.mkv` or `<sanitized title>.mp3`.
- Real timers and concurrency are not modelled. Each handler call is atomic, and timers fire only as explicit `Fire`/`Expire` events. The 150-second delay is not represented. The interleaving at `await` points is not captured: for example, the session stays live between the download and its removal in `plugins/pon.js:182-183`.
- The `conn.x = conn.x || {}` lazy creation of the tables is not modelled: each table exists, empty, from construction.
- `plugins/dl-tiktok.js` and `plugins/main-owner.js` are not part of this model. The first is a network call with no logic of its own. The second is a fixed vCard text.
- Characters are Dafny characters, that is Unicode scalar values, not the UTF-16 code units JavaScript strings are made of. A character outside the Basic Multilingual Plane is one Dafny character where JavaScript counts two code units. So the 100-unit cut of `YtAudio.SanitizeFileName` (`substring(0, 100)`) never leaves the lone half of a surrogate pair, which JavaScript can. And `Pon.ReplaceDisallowed` turns such a character into one `_`, where the regular expression of `plugins/pon.js:23`, which has no `u` flag, replaces each of its two code units and writes `__`; the length counted by `Pon.SanitizeFileName` differs accordingly.
- YtVideo.SearchParam: does not decode `%xx` escapes or `+`, neither in a pair's name nor in its value, which `URLSearchParams` does in both. So a watch link whose query spells the name with an escape, such as `watch?%76=abc`, has id `abc` in JavaScript, while the model finds no `v` pair and `YtVideo.Request` answers that there is no video id. `YtVideo.WatchRoundTrip` requires an id without `%` or `+`, where decoding changes nothing.
- YtVideo.VideoId: its own contract states only that an id is non-empty. Its three branches are pinned down by the round-trip lemmas for short links, Shorts links and watch links.
- Js.ParseInt: returns the exact integer, whereas JavaScript's `parseInt` loses precision above 2^53. The plugins only compare the result with small bounds.
- `conn.sendFile` and `conn.reply` are not part of this model. The model assumes that the `id` of the message key they return is the key input of `YtVideo.Request` (the thumbnail sent in `plugins/dl-ytv1.js:67`, whose `replyKey.id` is compared in `plugins/dl-ytv1.js:92`) and of `Play.Search` (the list sent in `plugins/dl-play.js:33`, compared in `plugins/dl-play.js:55`). A reply is matched by comparing its quoted id with that input.
- The thumbnail download (`axios.get` in `plugins/dl-ytv1.js:59-60`) is not modelled. When it fails, the handler throws and opens no session. `YtVideo.Request` has no input for that failure and makes the offer once the video is found.
- Play.Search: the search result is an input. The case where yt-search returns no `videos` field is folded into the empty list.
- Pon.SanitizeFileName: `maxLength` is a natural number. The plugin only uses the default 100, and other values are outside its use.
