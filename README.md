# YouTube summariser bot, modelled in Dafny

The bot is a single script, `main.py`. It answers a chat message that links to a
YouTube video with a summary of that video. It first tries the video's captions.
If there are none, it downloads the audio track, converts it to `audio.wav`,
runs speech recognition and summarises the recognised text. All the while it
edits one progress message. The script also keeps a registry of chats
(`/start`) and can broadcast a message to all of them (`/bcast`).

This project models that logic:

- `VideoId` (video_id.dfy): the identifier regex
  `(?<=v=)[^&]+|(?<=youtu.be/)[^?|\n]+` under `re.search` semantics. The model
  tries the positions left to right, and at each position the two alternatives
  in order. A success takes the longest run of allowed characters. The
  unescaped `.` in `youtu.be/` stands for any character except a newline.
- `Captions` (captions.dfy): `extract_youtube_transcript`. Any missing
  identifier and any failed caption call give the sentinel `"no transcript"`.
  Otherwise the result is the fetched segments joined by single spaces.
- `Summarizer` (summarizer.dfy): `get_groq_response`. A failure becomes the
  text `Error getting AI response.`.
- `Pipeline` (pipeline.dfy): `handle_message` as a value. `Handle` gives the
  posts of one run, in order, and the set of files on disk afterwards. The
  lemmas state the routing, the order of the progress edits, the final text of
  each failure, and the file clean-up.
- `Registry` (registry.dfy), `Broadcast` (broadcast.dfy): the `/start` check
  and insert, and the counting loop of `/bcast`.
- `Handlers` (handlers.dfy): class `Bot`. Its fields are the registry, the
  files on disk and the log of posts. Its methods `Start`, `HandleMessage`
  (with `ConvertAndRecognize`) and `Broadcast` change that state step by
  step. Each method's contract ties the new state to the functions above.
- `Strings` (strings.dfy) and `Chat` (chat.dfy): the Python string built-ins
  used (`startswith`, `in`, `' '.join`, `str(int)`) and the kinds of post.

Each library the script calls is an outcome value in `Pipeline.Env`. This covers
the caption library, the stream download, the audio conversion, the speech
recognition and the chat completion. The model holds for every outcome these
values describe. Two library behaviours fall outside them: a partial file left
by a failed download, and a completion whose content is `None` (see
"## Left out").

The model follows the code as written, including these behaviours a reader
might not expect:

- An empty caption track is not treated as missing. It gives the empty text,
  which is summarised like any other (`Captions.EmptyTrackIsNotSentinel`).
- The converted file always has the literal name `audio.wav`, not a name
  unique to the request.
- A failed summary request is not an error state. The text
  `Error getting AI response.` is posted as the summary.
- If decoding the download fails, `wav_file` has not been assigned when the
  `finally` block reads it. The user first sees `Error during transcription: …`.
  The resulting `UnboundLocalError` then reaches the outer handler, and the
  final edit is `Error: …` (`Pipeline.DecodeFailureEndsInOuterError`). The
  download is still deleted. A stale `audio.wav` from an earlier run is left in
  place.

## Model

| member | source | states |
|---|---|---|
| `VideoId.Run` | main.py:37 | the greedy `[^...]+` run is a slice of the text at that position, holds no stopping character, and ends at the end of the text or just before a stopping character; it is non-empty when the first character is allowed |
| `VideoId.SearchFrom` | main.py:37 | searching from a position finds nothing exactly when no later position matches; otherwise the result is the maximal run of the matching alternative at the first matching position |
| `VideoId.ExtractVideoId` | main.py:37-38 | no identifier exactly when no position matches; otherwise the identifier is the non-empty maximal run at the leftmost position preceded by `v=` (stops at `&`) or `youtu?be/` (stops at `?`, `\|`, newline) |
| `VideoId.ExtractVideoIdExact` | main.py:37-38 | converse: the maximal run at the leftmost matching position is exactly the identifier returned |
| `VideoId.MaximalRunIsRun` | main.py:37 | greedy matching is unambiguous: every maximal run from a position equals the greedy run |
| `VideoId.FormsExclusive` | main.py:37 | the two lookbehinds never hold at the same position |
| `VideoId.WatchQueryExample` | main.py:37-38 | `watch?v=abc123&x=1` gives `abc123` |
| `VideoId.ShortLinkExample` | main.py:37-38 | `https://youtu.be/xyz789?t=5` gives `xyz789` |
| `VideoId.FullWatchUrlExample` | main.py:37-38 | `https://www.youtube.com/watch?v=abc123` gives `abc123` |
| `VideoId.ShortsUrlHasNoId` | main.py:37-40 | `https://www.youtube.com/shorts/abc123` has no identifier, so the caption lookup is skipped |
| `Captions.FetchTranscript` | main.py:35-47 | without an identifier the result is the sentinel; any other result is the fetched track of the identifier found in the message, joined by single spaces (the lemmas below give the converse cases) |
| `Captions.TranscriptFor` | main.py:41-47 | once an identifier is found: any failing caption call gives the sentinel, and a text other than the sentinel is the fetched segments joined by single spaces |
| `Captions.NoIdNoLookup` | main.py:37-40 | without an identifier the result is the sentinel whatever the caption library would answer, so the library is never consulted |
| `Captions.LookupUsesId` | main.py:37-44 | once an identifier is found, the caption library is asked about that identifier and the fixed language list only |
| `Captions.LookupOutcome` | main.py:41-47 | the listing, track and fetch failures all give the same sentinel; the caller sees the sentinel exactly when a call raised or the fetched track joins to that very text |
| `Captions.FetchedSegmentsRecoverable` | main.py:43-44 | the joined text splits back into the fetched segments, in fetch order, when no segment holds a space |
| `Captions.EmptyTrackIsNotSentinel` | main.py:43-44 | an empty track yields the empty text, which is not the sentinel |
| `Summarizer.Respond` | main.py:49-68 | a completed request returns its content unchanged; the caller sees `Error getting AI response.` exactly when the request raised or the model answered with that very text |
| `Strings.StartsWith` | main.py:87 | `text.startswith(p)` holds exactly when `p` is no longer than the text and agrees with it character by character; such a text also contains `p` |
| `Strings.Contains` | main.py:92 | `t in s` holds only when `t` is no longer than `s` |
| `Strings.ContainsPrefix` | main.py:92 | a text that contains a string contains each of its prefixes (so both host names imply `youtu`) |
| `Strings.JoinWithSpaces` | main.py:43 | `' '.join` of no parts is empty, and otherwise starts with the first part; `Strings.SplitJoin` proves it is undone by `split(' ')` |
| `Strings.JoinSpaceCount` | main.py:43 | when no part holds a space, the joined text holds exactly one space fewer than there are parts |
| `Strings.JoinAppend` | main.py:43 | joining two non-empty runs of parts is joining each with one space between |
| `Strings.SplitJoin` | main.py:43 | `' '.join` followed by `split(' ')` returns the parts when none holds a space |
| `Strings.DecimalString` | main.py:185 | `str(n)` is a non-empty string of digits with no leading zero unless it is `0` |
| `Strings.DecimalRoundTrip` | main.py:185 | reading back `str(n)` gives `n` |
| `Pipeline.RouteOf` | main.py:86-92 | a text is ignored exactly when it starts with `/start`; a video link always contains `youtu`; a text routed as not a link names neither `youtube.com` nor `youtu.be` |
| `Pipeline.Handle` | main.py:85-160 | one run makes at most five posts, at least three exactly when the text is routed as a video link, and never adds a file to the disk; the lemmas below give each path exactly |
| `Pipeline.Acquire` | main.py:96-157 | after the progress message, a run makes two to four posts, all of them edits of that message, and adds no file |
| `Pipeline.ConvertAndCleanUp` | main.py:119-154 | the conversion block and its `finally` make one to three edits; the download is gone afterwards, `audio.wav` is gone when `wav_file` was assigned, no file is added, and every other file stays |
| `Pipeline.ConversionEdits` | main.py:119-146 | the conversion block and its handlers make one or two edits, two exactly when speech was recognised (the status edit, then the summary) |
| `Pipeline.StartIsIgnored` | main.py:87-88 | text starting with `/start` makes no post and touches no file |
| `Pipeline.NonLinkGetsOneReply` | main.py:158-160 | text naming neither `youtube.com` nor `youtu.be` gets exactly the invalid-link reply and runs no stage |
| `Pipeline.PipelineOnlyForLinks` | main.py:86-93 | a run opens with the progress message exactly when it is routed as a video link; every later post edits that message |
| `Pipeline.CaptionsPath` | main.py:98-104 | captions found: "Attempting…", "Captions found…", then the summary of the caption text, and the disk is unchanged (no download) |
| `Pipeline.FallbackOrder` | main.py:105-115 | no captions: "No captions found…" comes second; "Converting audio to text…" comes third exactly when the download succeeded; a failed download ends with `Error: …` and leaves the disk unchanged |
| `Pipeline.RecognitionOutcomes` | main.py:126-146 | after recording: success gives "Summarizing the text..." then the summary; `RequestError` gives `API unavailable.`; `UnknownValueError` gives `Unable to recognize speech.`; any other error gives `Error during transcription: …` |
| `Pipeline.ConversionFailure` | main.py:119-146 | an export or read failure ends with `Error during transcription: …` |
| `Pipeline.DecodeFailureEndsInOuterError` | main.py:119-157 | a decode failure gives `Error during transcription: …` and then the outer `Error: …` for the unassigned `wav_file` |
| `Pipeline.ErrorTextsDistinct` | main.py:138-157 | the terminal error texts are pairwise different |
| `Pipeline.CleanupAfterDownload` | main.py:147-154 | after a download the downloaded file is gone on every path; `audio.wav` is gone whenever `wav_file` was assigned; no other file changes |
| `Pipeline.NoFileLeaks` | main.py:110-154 | no run leaves behind a file that was not there before; the only files a run may remove are its download and `audio.wav` |
| `Registry.Register` | main.py:73-74 | the chat is in the registry afterwards, nothing else is added, existing rows keep their place, and a table without duplicates stays so |
| `Registry.RegisterIdempotent` | main.py:73-74 | a second `/start` from the same chat changes nothing |
| `Registry.NoDuplicatesCount` | main.py:73-74 | in a table kept free of duplicates every chat id occurs at most once |
| `Registry.OneRowPerChat` | main.py:73-74 | after one or two `/start`s a chat has exactly one row |
| `Broadcast.DeliveredCount` | main.py:171-181 | `done` never exceeds the number of users, and is 0 when every delivery fails |
| `Broadcast.FailedCount` | main.py:171-184 | `error` never exceeds the number of users, and is 0 when every delivery succeeds |
| `Broadcast.Deliveries` | main.py:172-180 | the sends made: at most one per user, each to a registered chat whose own delivery succeeded |
| `Broadcast.ReportText` | main.py:185 | the report starts with `Broadcast completed.\nSuccess: ` and carries both counters |
| `Broadcast.ReportTextInjective` | main.py:185 | different counter pairs never give the same report text, so the counters can be read back from it |
| `Broadcast.CountsAddUp` | main.py:171-184 | every user is counted once, so `done + error` is the number of users |
| `Broadcast.DeliveriesCounted` | main.py:172-181 | the success counter equals the number of messages sent |
| `Broadcast.FailureIsolation` | main.py:172-184 | a chat receives the message exactly when it is registered and its own delivery succeeds, whatever fails for other chats |
| `Broadcast.FailuresCounted` | main.py:171-185 | with `k` failing users out of `n`, `n - k` are reported delivered |
| `Handlers.Bot.Start` | main.py:71-74 | replies with the welcome text and leaves the registry as `Register` of the old one, keeping it free of duplicates |
| `Handlers.StartTwice` | main.py:73-74 | two `/start`s from a chat leave exactly one row for it |
| `Handlers.Bot.HandleMessage` | main.py:85-160 | the posts and the files afterwards are exactly those of `Pipeline.Handle`; the registry is untouched and stays free of duplicates |
| `Handlers.Bot.ConvertAndRecognize` | main.py:119-154 | the conversion block and its `finally`, step by step, end in the posts and files of `Pipeline.ConvertAndCleanUp`; the registry is untouched |
| `Handlers.Bot.Broadcast` | main.py:163-185 | without a replied-to message only the usage reply; otherwise "In progress...", one send per delivered user in registry order, then the report; the counters are the delivered and failed counts and add up to the number of users; the registry is free of duplicates, so each chat is tried once |

## Left out

- The Telegram client, handler decorators and filters, and `client.run` are transport plumbing. Only the ordered posts are kept.
- `msg.text.format(user=…)`, the media and the buttons of a broadcast are left out. Whether one chat's name lookup and send succeed is the `Broadcast.Deliver` parameter.
- The `users` command (main.py:76-82) is not part of this model. It only replies with the size of the registry.
- The caption, download, conversion, recognition and chat-completion libraries are not modelled. Their results are the outcome values in `Pipeline.Env`. `find_transcript`'s choice of track from the language list belongs to the library, so the list is kept only as the constant `Captions.PreferredLanguages`.
- The system prompt text is left out, and so is the request's message structure. The model name is kept only as a constant.
- `print` logging is left out.
- The `database` module is not part of this model. The registry is the table's rows, kept in memory without persistence.
- async/await and concurrent runs are left out. Each handler is one sequential run. Two concurrent runs share the file name `audio.wav`; that is not modelled.
- Handlers.Bot.HandleMessage: each edit of the progress message is assumed to succeed. Telegram refusals, such as an empty summary or an unchanged text, are not modelled.
- Pipeline.Handle: a download that fails is assumed to leave no file. The `try/finally` does not cover the download, so a partial file would stay on disk.
- A completion whose content is `None` is not modelled. The content is always a string.
- `Pipeline.UnboundWavMessage` is the Python 3.11 wording of the error. Earlier versions word it differently.
