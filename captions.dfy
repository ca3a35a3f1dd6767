/** `extract_youtube_transcript`: find the video identifier, look up a
    caption track in a fixed language order, and join its segments; every
    failure becomes the sentinel text "no transcript". */
module Captions {
  import opened Strings
  import VideoId

  /** Returned when there is no identifier or when any caption call fails. */
  const Sentinel := "no transcript"

  /** The language codes handed to `find_transcript`, in preference order.
      Which track they select is decided by the caption library. */
  const PreferredLanguages: seq<string> :=
    ["en", "ja", "ko", "de", "fr", "ru", "it", "es", "pl", "uk", "nl", "zh-TW", "zh-CN", "zh-Hant", "zh-Hans"]

  /** What the caption library does for one video identifier: one of its
      three calls raises, or the fetch returns the segments' texts in order. */
  datatype Lookup =
    | ListingFailed     // list_transcripts raised
    | NoPreferredTrack  // find_transcript raised
    | FetchFailed       // fetch raised
    | Fetched(segments: seq<string>)

  /** The caption library, as a function of the video identifier and the
      language preference list. */
  type CaptionSource = (string, seq<string>) -> Lookup

  /** The caption calls for an identifier that was found: the fetched
      segments joined by single spaces, or the sentinel when any call raised. */
  function TranscriptFor(id: string, source: CaptionSource): (r: string)
    ensures !source(id, PreferredLanguages).Fetched? ==> r == Sentinel
    ensures r != Sentinel ==>
      source(id, PreferredLanguages).Fetched? && r == JoinWithSpaces(source(id, PreferredLanguages).segments)
  {
    match source(id, PreferredLanguages)
    case Fetched(segments) => JoinWithSpaces(segments)
    case _ => Sentinel
  }

  /** The transcript text for a message, or the sentinel. Any other text
      comes from the caption track of the identifier in the message. */
  function FetchTranscript(url: string, source: CaptionSource): (r: string)
    ensures VideoId.ExtractVideoId(url).None? ==> r == Sentinel
    ensures r != Sentinel ==>
      var id := VideoId.ExtractVideoId(url);
      id.Some? && source(id.value, PreferredLanguages).Fetched?
      && r == JoinWithSpaces(source(id.value, PreferredLanguages).segments)
  {
    match VideoId.ExtractVideoId(url)
    case None => Sentinel
    case Some(id) => TranscriptFor(id, source)
  }

  /** Without an identifier the result is the sentinel whatever the caption
      library would answer, so the library is never consulted. */
  lemma NoIdNoLookup(url: string, source: CaptionSource)
    requires forall q :: 0 <= q < |url| ==> !VideoId.MatchesAt(url, q)
    ensures FetchTranscript(url, source) == Sentinel
  {
  }

  /** With an identifier, the library is asked about that identifier alone. */
  lemma LookupUsesId(url: string, source: CaptionSource)
    ensures VideoId.ExtractVideoId(url).Some? ==>
      FetchTranscript(url, source) == TranscriptFor(VideoId.ExtractVideoId(url).value, source)
  {
  }

  /** The three failing calls are indistinguishable: the caller sees the
      sentinel exactly when a call raised or the track itself joins to the
      sentinel's text. */
  lemma LookupOutcome(id: string, source: CaptionSource)
    ensures var lookup := source(id, PreferredLanguages);
      TranscriptFor(id, source) == Sentinel
      <==> !lookup.Fetched? || JoinWithSpaces(lookup.segments) == Sentinel
  {
  }

  /** The joined text gives the fetched segments back when split on spaces,
      as long as no segment holds a space itself. */
  lemma FetchedSegmentsRecoverable(id: string, source: CaptionSource, segments: seq<string>)
    requires source(id, PreferredLanguages) == Fetched(segments)
    requires |segments| > 0 && NoSpaces(segments)
    ensures SplitOnSpaces(TranscriptFor(id, source)) == segments
  {
    SplitJoin(segments);
  }

  /** An empty track is not treated as missing: it yields the empty text,
      which differs from the sentinel. */
  lemma EmptyTrackIsNotSentinel(id: string, source: CaptionSource)
    requires source(id, PreferredLanguages) == Fetched([])
    ensures TranscriptFor(id, source) == ""
    ensures TranscriptFor(id, source) != Sentinel
  {
  }
}
