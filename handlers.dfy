/** The bot's handlers as methods on the state they change: the user
    registry, the files in the working directory, and the posts made on the
    chat transport so far. */
module Handlers {
  import opened Strings
  import opened Chat
  import Registry
  import Captions
  import Summarizer
  import opened Pipeline
  import opened Broadcast

  const WelcomeText := "Send me a YouTube link, and I will summarize that video for you in text format."

  class Bot {
    /** The `users` table, one row per chat id. */
    var users: seq<int>
    /** Paths present in the working directory. */
    var files: set<string>
    /** Everything posted so far, in order. */
    var log: seq<Post>

    ghost predicate Valid()
      reads this
    {
      Registry.NoDuplicates(users)
    }

    constructor (files0: set<string>)
      ensures Valid() && users == [] && files == files0 && log == []
    {
      users, files, log := [], files0, [];
    }

    /** `start`: welcome the chat, then register it if it is new. */
    method Start(chat: int)
      requires Valid()
      modifies this
      ensures Valid()
      ensures users == Registry.Register(old(users), chat)
      ensures log == old(log) + [Reply(WelcomeText)] && files == old(files)
    {
      log := log + [Reply(WelcomeText)];
      if chat !in users {
        users := users + [chat];
      }
    }

    /** `handle_message` on one incoming text. */
    method HandleMessage(text: string, env: Env)
      requires Valid()
      modifies this
      ensures Valid()
      ensures users == old(users)
      ensures log == old(log) + Handle(text, env, old(files)).posts
      ensures files == Handle(text, env, old(files)).files
    {
      if StartsWith(text, StartCommand) {
        return;
      }
      if Contains(text, "youtube.com") || Contains(text, "youtu.be") {
        log := log + [Reply(AttemptingText)];
        var transcript := Captions.FetchTranscript(text, env.captions);
        if transcript != Captions.Sentinel {
          log := log + [Edit(CaptionsFoundText)];
          var summary := Summarizer.Respond(env.complete(transcript));
          log := log + [Edit(summary)];
        } else {
          log := log + [Edit(NoCaptionsText)];
          match env.download {
            case NoAudioStream =>
              log := log + [Edit(ErrorText(NoStreamMessage))];
            case DownloadFailed(e) =>
              log := log + [Edit(ErrorText(e))];
            case Downloaded(output) =>
              files := files + {output};
              log := log + [Edit(ConvertingText)];
              ConvertAndRecognize(output, env);
          }
        }
      } else {
        log := log + [Reply(InvalidLinkText)];
      }
    }

    /** The conversion and recognition block with its `finally`. */
    method ConvertAndRecognize(output: string, env: Env)
      requires Valid()
      modifies this
      ensures Valid()
      ensures users == old(users)
      ensures log == old(log) + ConvertAndCleanUp(env, output, old(files)).posts
      ensures files == ConvertAndCleanUp(env, output, old(files)).files
    {
      var wavBound := false;
      var failure: Option<string> := None;
      match env.conversion {
        case DecodeFailed(e) =>
          failure := Some(e);
        case ExportFailed(e, wrote) =>
          wavBound := true;
          if wrote {
            files := files + {WavFile};
          }
          failure := Some(e);
        case ReadFailed(e) =>
          wavBound := true;
          files := files + {WavFile};
          failure := Some(e);
        case Recorded(r) =>
          wavBound := true;
          files := files + {WavFile};
          match r {
            case Transcribed(t) =>
              log := log + [Edit(SummarizingText)];
              var summary := Summarizer.Respond(env.complete(t));
              log := log + [Edit(summary)];
            case RequestError =>
              log := log + [Edit(ApiUnavailableText)];
            case UnknownValue =>
              log := log + [Edit(UnrecognizedText)];
            case RecognitionFailed(e) =>
              failure := Some(e);
          }
      }
      if failure.Some? {
        log := log + [Edit(TranscriptionErrorText(failure.value))];
      }
      // finally: the download first, then audio.wav
      if output in files {
        files := files - {output};
      }
      if !wavBound {
        // reading the unassigned wav_file raises into the outer handler
        log := log + [Edit(ErrorText(UnboundWavMessage))];
      } else if WavFile in files {
        files := files - {WavFile};
      }
    }

    /** `bcast`; `replied` says whether the command answers a message. The
        counters are returned so that callers can see them. */
    method Broadcast(replied: bool, deliver: Deliver) returns (done: nat, failed: nat)
      requires Valid()
      modifies this
      ensures Valid()
      ensures users == old(users) && files == old(files)
      ensures !replied ==> done == 0 && failed == 0 && log == old(log) + [Reply(UsageText)]
      ensures replied ==>
        && done == DeliveredCount(users, deliver)
        && failed == FailedCount(users, deliver)
        && done + failed == |users|
        && log == old(log) + [Reply(InProgressText)] + Deliveries(users, deliver) + [Edit(ReportText(done, failed))]
    {
      if !replied {
        log := log + [Reply(UsageText)];
        return 0, 0;
      }
      log := log + [Reply(InProgressText)];
      done, failed := 0, 0;
      var i := 0;
      while i < |users|
        invariant 0 <= i <= |users|
        invariant done == DeliveredCount(users[..i], deliver)
        invariant failed == FailedCount(users[..i], deliver)
        invariant log == old(log) + [Reply(InProgressText)] + Deliveries(users[..i], deliver)
        invariant users == old(users) && files == old(files)
      {
        var chat := users[i];
        assert users[..i + 1][..i] == users[..i];
        match deliver(chat) {
          case Delivered =>
            log := log + [Send(chat)];
            done := done + 1;
          case Failed(_) =>
            failed := failed + 1;
        }
        i := i + 1;
      }
      assert users[..i] == users;
      CountsAddUp(users, deliver);
      log := log + [Edit(ReportText(done, failed))];
    }
  }

  /** Two `/start` commands from the same chat leave one row for it. */
  method StartTwice(bot: Bot, chat: int)
    requires bot.Valid()
    modifies bot
    ensures bot.Valid()
    ensures bot.users == Registry.Register(old(bot.users), chat)
    ensures multiset(bot.users)[chat] == 1
  {
    bot.Start(chat);
    bot.Start(chat);
    Registry.RegisterIdempotent(old(bot.users), chat);
    Registry.OneRowPerChat(old(bot.users), chat);
  }
}
