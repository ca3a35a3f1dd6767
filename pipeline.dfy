/** `handle_message`: route an incoming text, then summarise the video it
    links to from its captions, or, when there are none, from its audio
    track (download, convert to `audio.wav`, recognise, summarise). One
    progress message is created and then edited at every step; a
    `try/finally` deletes the downloaded file and `audio.wav`.

    `Handle` is the whole run as a value: the posts made, in order, and the
    set of files on disk afterwards. The lemmas below state the message
    order, the text each failure ends with, and the file clean-up. */
module Pipeline {
  import opened Strings
  import opened Chat
  import Captions
  import Summarizer

  const StartCommand := "/start"
  const InvalidLinkText := "Please send a valid YouTube link."
  const AttemptingText := "Attempting to download captions from the YouTube video..."
  const CaptionsFoundText := "Captions found and downloaded. Summarizing the text..."
  const NoCaptionsText := "No captions found. Downloading audio from the YouTube video..."
  const ConvertingText := "Converting audio to text..."
  const SummarizingText := "Summarizing the text..."
  const ApiUnavailableText := "API unavailable."
  const UnrecognizedText := "Unable to recognize speech."

  /** The fixed name of the converted file. */
  const WavFile := "audio.wav"

  /** `str(e)` when the audio stream filter finds nothing: `.first()` gives
      `None` and `.download` is looked up on it. */
  const NoStreamMessage := "'NoneType' object has no attribute 'download'"

  /** `str(e)` for the error raised when the `finally` block reads
      `wav_file` before it was assigned (Python 3.11 wording). */
  const UnboundWavMessage := "cannot access local variable 'wav_file' where it is not associated with a value"

  /** The edit made by the handler around the conversion and recognition. */
  function TranscriptionErrorText(e: string): string {
    "Error during transcription: " + e
  }

  /** The edit made by the outermost handler. */
  function ErrorText(e: string): string {
    "Error: " + e
  }

  /** Selecting and downloading the audio-only stream. */
  datatype Download =
    | Downloaded(path: string)    // the file written, as returned by download()
    | NoAudioStream               // no audio-only stream: first() is None
    | DownloadFailed(reason: string)

  /** Speech recognition on the recorded audio. */
  datatype Recognition =
    | Transcribed(text: string)
    | RequestError                // sr.RequestError
    | UnknownValue                // sr.UnknownValueError
    | RecognitionFailed(reason: string)

  /** The block that converts to WAV and recognises: how far it got. */
  datatype Conversion =
    | DecodeFailed(reason: string)                 // AudioSegment.from_file raised; wav_file not yet assigned
    | ExportFailed(reason: string, wroteWav: bool) // export raised, possibly after creating audio.wav
    | ReadFailed(reason: string)                   // opening, calibrating or recording audio.wav raised
    | Recorded(recognition: Recognition)

  /** Everything outside the script that a run depends on. */
  datatype Env = Env(
    captions: Captions.CaptionSource,
    download: Download,
    conversion: Conversion,
    complete: string -> Summarizer.Completion)

  /** The result of a run: posts in order and the files on disk afterwards. */
  datatype Outcome = Outcome(posts: seq<Post>, files: set<string>)

  /** The three ways `handle_message` treats a text. */
  datatype Route = Ignored | NotALink | VideoLink

  function RouteOf(text: string): (r: Route)
    ensures r == Ignored <==> StartsWith(text, StartCommand)
    ensures r == VideoLink ==> Contains(text, "youtu")
    ensures r == NotALink ==> !Contains(text, "youtube.com") && !Contains(text, "youtu.be")
  {
    if StartsWith(text, StartCommand) then Ignored
    else if Contains(text, "youtube.com") || Contains(text, "youtu.be") then
      if Contains(text, "youtube.com") then
        ContainsPrefix(text, "youtube.com", 5);
        assert "youtube.com"[..5] == "youtu";
        VideoLink
      else
        ContainsPrefix(text, "youtu.be", 5);
        assert "youtu.be"[..5] == "youtu";
        VideoLink
    else NotALink
  }

  /** `get_groq_response(text, system_prompt)` */
  function Summary(env: Env, text: string): string {
    Summarizer.Respond(env.complete(text))
  }

  /** Edits made inside the conversion `try` and its `except` handlers. */
  function ConversionEdits(env: Env): (r: seq<Post>)
    ensures 1 <= |r| <= 2
    ensures forall k :: 0 <= k < |r| ==> r[k].Edit?
    ensures |r| == 2 <==> env.conversion.Recorded? && env.conversion.recognition.Transcribed?
  {
    match env.conversion
    case DecodeFailed(e) => [Edit(TranscriptionErrorText(e))]
    case ExportFailed(e, _) => [Edit(TranscriptionErrorText(e))]
    case ReadFailed(e) => [Edit(TranscriptionErrorText(e))]
    case Recorded(r) =>
      match r
      case Transcribed(t) => [Edit(SummarizingText), Edit(Summary(env, t))]
      case RequestError => [Edit(ApiUnavailableText)]
      case UnknownValue => [Edit(UnrecognizedText)]
      case RecognitionFailed(e) => [Edit(TranscriptionErrorText(e))]
  }

  /** `wav_file` is assigned once `from_file` has returned. */
  predicate WavBound(c: Conversion) {
    !c.DecodeFailed?
  }

  /** `audio.wav` was written by the export. */
  predicate WavWritten(c: Conversion) {
    c.ReadFailed? || c.Recorded? || (c.ExportFailed? && c.wroteWav)
  }

  /** From "Converting audio to text..." on: the conversion block, then its
      `finally` (remove the download; remove `audio.wav`, or raise into the
      outer handler when `wav_file` was never assigned). */
  function ConvertAndCleanUp(env: Env, output: string, files: set<string>): (r: Outcome)
    ensures 1 <= |r.posts| <= 3
    ensures forall k :: 0 <= k < |r.posts| ==> r.posts[k].Edit?
    ensures output !in r.files && r.files <= files
    ensures WavBound(env.conversion) ==> WavFile !in r.files
    ensures forall f :: f in files && f != output && f != WavFile ==> f in r.files
  {
    var disk := if WavWritten(env.conversion) then files + {WavFile} else files;
    var withoutDownload := disk - {output};
    if WavBound(env.conversion) then
      Outcome(ConversionEdits(env), withoutDownload - {WavFile})
    else
      Outcome(ConversionEdits(env) + [Edit(ErrorText(UnboundWavMessage))], withoutDownload)
  }

  /** Everything after the progress message was created. */
  function Acquire(url: string, env: Env, files: set<string>): (r: Outcome)
    ensures 2 <= |r.posts| <= 4
    ensures forall k :: 0 <= k < |r.posts| ==> r.posts[k].Edit?
    ensures r.files <= files
  {
    var transcript := Captions.FetchTranscript(url, env.captions);
    if transcript != Captions.Sentinel then
      Outcome([Edit(CaptionsFoundText), Edit(Summary(env, transcript))], files)
    else
      match env.download
      case NoAudioStream => Outcome([Edit(NoCaptionsText), Edit(ErrorText(NoStreamMessage))], files)
      case DownloadFailed(e) => Outcome([Edit(NoCaptionsText), Edit(ErrorText(e))], files)
      case Downloaded(output) =>
        var rest := ConvertAndCleanUp(env, output, files + {output});
        Outcome([Edit(NoCaptionsText), Edit(ConvertingText)] + rest.posts, rest.files)
  }

  /** One run of `handle_message` on `text` with `files` on disk. */
  function Handle(text: string, env: Env, files: set<string>): (r: Outcome)
    ensures |r.posts| <= 5
    ensures |r.posts| >= 3 <==> RouteOf(text) == VideoLink
    ensures r.files <= files
  {
    match RouteOf(text)
    case Ignored => Outcome([], files)
    case NotALink => Outcome([Reply(InvalidLinkText)], files)
    case VideoLink =>
      var rest := Acquire(text, env, files);
      Outcome([Reply(AttemptingText)] + rest.posts, rest.files)
  }

  /** Text starting with `/start` is left to the start command: no post,
      no file touched. */
  lemma StartIsIgnored(text: string, env: Env, files: set<string>)
    requires StartsWith(text, StartCommand)
    ensures Handle(text, env, files) == Outcome([], files)
  {
  }

  /** Text that names neither host gets exactly the one reply and runs no
      stage of the pipeline. */
  lemma NonLinkGetsOneReply(text: string, env: Env, files: set<string>)
    requires !StartsWith(text, StartCommand)
    requires !Contains(text, "youtube.com") && !Contains(text, "youtu.be")
    ensures Handle(text, env, files) == Outcome([Reply(InvalidLinkText)], files)
  {
  }

  /** Only the third route reaches the pipeline: a run opens with the
      progress message exactly when the text is routed as a video link, and
      after it every post is an edit of that one message. */
  lemma PipelineOnlyForLinks(text: string, env: Env, files: set<string>)
    ensures var posts := Handle(text, env, files).posts;
      (|posts| > 0 && posts[0] == Reply(AttemptingText)) <==> RouteOf(text) == VideoLink
    ensures var posts := Handle(text, env, files).posts;
      RouteOf(text) == VideoLink ==> forall k :: 1 <= k < |posts| ==> posts[k].Edit?
  {
  }

  /** Captions found: three posts (attempting, captions found, summary) and
      no download, so the disk is as it was. */
  lemma CaptionsPath(text: string, env: Env, files: set<string>)
    requires RouteOf(text) == VideoLink
    requires Captions.FetchTranscript(text, env.captions) != Captions.Sentinel
    ensures Handle(text, env, files) == Outcome(
      [Reply(AttemptingText), Edit(CaptionsFoundText),
       Edit(Summary(env, Captions.FetchTranscript(text, env.captions)))],
      files)
  {
  }

  /** No captions: "No captions found..." comes right after the progress
      message and before any download; a failed download ends the run with
      the outer error text, a successful one is followed by "Converting
      audio to text...". */
  lemma FallbackOrder(text: string, env: Env, files: set<string>)
    requires RouteOf(text) == VideoLink
    requires Captions.FetchTranscript(text, env.captions) == Captions.Sentinel
    ensures var out := Handle(text, env, files);
      |out.posts| >= 3 && out.posts[..2] == [Reply(AttemptingText), Edit(NoCaptionsText)]
      && (env.download.Downloaded? <==> out.posts[2] == Edit(ConvertingText))
    ensures env.download.NoAudioStream? ==>
      Handle(text, env, files) == Outcome([Reply(AttemptingText), Edit(NoCaptionsText), Edit(ErrorText(NoStreamMessage))], files)
    ensures env.download.DownloadFailed? ==>
      Handle(text, env, files) == Outcome([Reply(AttemptingText), Edit(NoCaptionsText), Edit(ErrorText(env.download.reason))], files)
  {
    var out := Handle(text, env, files);
    assert out.posts[2] == Edit(ConvertingText) ==> env.download.Downloaded? by {
      assert ErrorText(NoStreamMessage)[0] == 'E';
      if env.download.DownloadFailed? {
        assert ErrorText(env.download.reason)[0] == 'E';
      }
    }
  }

  /** The posts of a run that reached "Converting audio to text...". */
  function AudioPrefix(): seq<Post> {
    [Reply(AttemptingText), Edit(NoCaptionsText), Edit(ConvertingText)]
  }

  /** Each recognition outcome ends the run with its own final edits. */
  lemma RecognitionOutcomes(text: string, env: Env, files: set<string>)
    requires RouteOf(text) == VideoLink
    requires Captions.FetchTranscript(text, env.captions) == Captions.Sentinel
    requires env.download.Downloaded? && env.conversion.Recorded?
    ensures var r := env.conversion.recognition; var posts := Handle(text, env, files).posts;
      && (r.Transcribed? ==> posts == AudioPrefix() + [Edit(SummarizingText), Edit(Summary(env, r.text))])
      && (r.RequestError? ==> posts == AudioPrefix() + [Edit(ApiUnavailableText)])
      && (r.UnknownValue? ==> posts == AudioPrefix() + [Edit(UnrecognizedText)])
      && (r.RecognitionFailed? ==> posts == AudioPrefix() + [Edit(TranscriptionErrorText(r.reason))])
  {
  }

  /** A failure while exporting or reading the WAV file ends with the
      transcription error text. */
  lemma ConversionFailure(text: string, env: Env, files: set<string>)
    requires RouteOf(text) == VideoLink
    requires Captions.FetchTranscript(text, env.captions) == Captions.Sentinel
    requires env.download.Downloaded?
    requires env.conversion.ExportFailed? || env.conversion.ReadFailed?
    ensures Handle(text, env, files).posts == AudioPrefix() + [Edit(TranscriptionErrorText(env.conversion.reason))]
  {
  }

  /** When decoding the download fails, `wav_file` was never assigned: the
      user first sees the transcription error, then the `finally` block
      raises into the outer handler, whose edit is the last one. */
  lemma DecodeFailureEndsInOuterError(text: string, env: Env, files: set<string>)
    requires RouteOf(text) == VideoLink
    requires Captions.FetchTranscript(text, env.captions) == Captions.Sentinel
    requires env.download.Downloaded? && env.conversion.DecodeFailed?
    ensures Handle(text, env, files).posts ==
      AudioPrefix() + [Edit(TranscriptionErrorText(env.conversion.reason)), Edit(ErrorText(UnboundWavMessage))]
  {
  }

  /** The error texts the user can be left with are pairwise different. */
  lemma ErrorTextsDistinct(e1: string, e2: string)
    ensures TranscriptionErrorText(e1) != ErrorText(e2)
    ensures TranscriptionErrorText(e1) != ApiUnavailableText && TranscriptionErrorText(e1) != UnrecognizedText
    ensures ErrorText(e2) != ApiUnavailableText && ErrorText(e2) != UnrecognizedText
    ensures ApiUnavailableText != UnrecognizedText
  {
    assert TranscriptionErrorText(e1)[5] == ' ';
    assert ErrorText(e2)[5] == ':';
    assert TranscriptionErrorText(e1)[0] == 'E' && ErrorText(e2)[0] == 'E';
  }

  /** Clean-up after a download: the downloaded file is gone whatever
      happened next; `audio.wav` is gone whenever `wav_file` was assigned;
      nothing else on disk changes. */
  lemma CleanupAfterDownload(text: string, env: Env, files: set<string>)
    requires RouteOf(text) == VideoLink
    requires Captions.FetchTranscript(text, env.captions) == Captions.Sentinel
    requires env.download.Downloaded?
    ensures var after := Handle(text, env, files).files;
      && env.download.path !in after
      && (WavBound(env.conversion) ==> after == files - {env.download.path, WavFile})
      && (!WavBound(env.conversion) ==> after == files - {env.download.path})
  {
  }

  /** No run leaves a file behind that was not there before it, and the
      only files a run may remove are its download and `audio.wav`. */
  lemma NoFileLeaks(text: string, env: Env, files: set<string>)
    ensures Handle(text, env, files).files <= files
    ensures forall f :: (f in files && f != WavFile && !(env.download.Downloaded? && f == env.download.path))
                        ==> f in Handle(text, env, files).files
  {
  }
}
