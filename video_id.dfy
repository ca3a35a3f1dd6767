/** The video identifier the bot pulls out of a message with
    `re.search(r"(?<=v=)[^&]+|(?<=youtu.be/)[^?|\n]+", url)`.

    `re.search` tries the start positions from left to right and, at each,
    the two alternatives in order; the first success wins. Each alternative
    is a lookbehind followed by a greedy `+` over a negated character class,
    with nothing after it, so a success takes the longest non-empty run of
    allowed characters. */
module VideoId {
  import opened Strings

  /** The two URL shapes the pattern recognises: `...watch?v=ID` and the
      short link `youtu.be/ID`. */
  datatype Form = Watch | ShortLink

  /** The lookbehind of each alternative holds just before position `p`:
      the text ends in `v=`, or in `youtu`, one more character and `be/`.
      The `.` in `youtu.be/` is not escaped, so it stands for any one
      character except a newline. */
  predicate Preceded(s: string, p: int, f: Form) {
    match f
    case Watch => 2 <= p <= |s| && s[p - 2] == 'v' && s[p - 1] == '='
    case ShortLink =>
      9 <= p <= |s|
      && s[p - 9] == 'y' && s[p - 8] == 'o' && s[p - 7] == 'u' && s[p - 6] == 't' && s[p - 5] == 'u'
      && s[p - 4] != '\n'
      && s[p - 3] == 'b' && s[p - 2] == 'e' && s[p - 1] == '/'
  }

  /** Characters that end an identifier: `[^&]` for the first alternative,
      `[^?|\n]` for the second (the `|` inside the class is a literal bar). */
  predicate Stops(f: Form, c: char) {
    match f
    case Watch => c == '&'
    case ShortLink => c == '?' || c == '|' || c == '\n'
  }

  /** Alternative `f` succeeds at position `p`: its lookbehind holds and at
      least one allowed character follows. */
  predicate StartsId(s: string, p: int, f: Form) {
    0 <= p < |s| && Preceded(s, p, f) && !Stops(f, s[p])
  }

  /** The whole pattern succeeds at position `p`. */
  predicate MatchesAt(s: string, p: int) {
    StartsId(s, p, Watch) || StartsId(s, p, ShortLink)
  }

  /** `p` is the first position at which the pattern succeeds. */
  predicate IsLeftmostMatch(s: string, p: int) {
    MatchesAt(s, p) && forall q :: 0 <= q < p ==> !MatchesAt(s, q)
  }

  /** `id` is the longest non-empty run of characters allowed by `f` that
      begins at `p`. */
  predicate IsMaximalRun(s: string, p: int, f: Form, id: string) {
    0 <= p && p + |id| <= |s| && |id| > 0 && s[p..p + |id|] == id
    && (forall k :: 0 <= k < |id| ==> !Stops(f, id[k]))
    && (p + |id| == |s| || Stops(f, s[p + |id|]))
  }

  /** The greedy `[^...]+` run from `p`. */
  function Run(s: string, p: nat, f: Form): (r: string)
    requires p <= |s|
    ensures p + |r| <= |s| && s[p..p + |r|] == r
    ensures forall k :: 0 <= k < |r| ==> !Stops(f, r[k])
    ensures p + |r| == |s| || Stops(f, s[p + |r|])
    ensures p < |s| && !Stops(f, s[p]) ==> |r| > 0
    decreases |s| - p
  {
    if p == |s| || Stops(f, s[p]) then "" else [s[p]] + Run(s, p + 1, f)
  }

  lemma RunIsMaximal(s: string, p: nat, f: Form)
    requires StartsId(s, p, f)
    ensures MatchesAt(s, p) && IsMaximalRun(s, p, f, Run(s, p, f))
  {
  }

  /** `re.search` started at position `p`. */
  function SearchFrom(s: string, p: nat): (r: Option<string>)
    requires p <= |s|
    ensures r.None? <==> forall q :: p <= q < |s| ==> !MatchesAt(s, q)
    ensures r.Some? ==> exists q, f :: p <= q < |s| && (forall k :: p <= k < q ==> !MatchesAt(s, k))
                                      && StartsId(s, q, f) && IsMaximalRun(s, q, f, r.value)
    decreases |s| - p
  {
    if p == |s| then None
    else if StartsId(s, p, Watch) then
      RunIsMaximal(s, p, Watch);
      Some(Run(s, p, Watch))
    else if StartsId(s, p, ShortLink) then
      RunIsMaximal(s, p, ShortLink);
      Some(Run(s, p, ShortLink))
    else SearchFrom(s, p + 1)
  }

  /** `video_id_match.group(0) if video_id_match else None`: the identifier
      is the maximal run at the leftmost matching position, and there is
      none exactly when no position matches. */
  function ExtractVideoId(s: string): (r: Option<string>)
    ensures r.None? <==> forall q :: 0 <= q < |s| ==> !MatchesAt(s, q)
    ensures r.Some? ==> exists q, f :: IsLeftmostMatch(s, q) && StartsId(s, q, f) && IsMaximalRun(s, q, f, r.value)
  {
    SearchFrom(s, 0)
  }

  /** The two lookbehinds end in different characters (`=` and `/`), so
      they never hold at the same position. */
  lemma FormsExclusive(s: string, p: int)
    ensures !(Preceded(s, p, Watch) && Preceded(s, p, ShortLink))
  {
  }

  /** Dropping the first character of a maximal run of two or more
      characters leaves the maximal run from the next position. */
  lemma MaximalRunTail(s: string, p: nat, f: Form, id: string)
    requires IsMaximalRun(s, p, f, id) && |id| > 1
    ensures IsMaximalRun(s, p + 1, f, id[1..])
  {
    var n := |id|;
    assert s[p + 1..p + n] == s[p..p + n][1..];
    forall k | 0 <= k < n - 1 ensures !Stops(f, id[1..][k]) {
      assert id[1..][k] == id[k + 1];
    }
  }

  /** The greedy run is the only longest run from a position. */
  lemma {:induction false} MaximalRunIsRun(s: string, p: nat, f: Form, id: string)
    requires IsMaximalRun(s, p, f, id)
    ensures id == Run(s, p, f)
    decreases |id|
  {
    assert s[p] == s[p..p + |id|][0] == id[0];
    var rest := Run(s, p + 1, f);
    assert Run(s, p, f) == [s[p]] + rest;
    if |id| == 1 {
      assert rest == "";
    } else {
      MaximalRunTail(s, p, f, id);
      MaximalRunIsRun(s, p + 1, f, id[1..]);
    }
    assert id == [id[0]] + id[1..];
  }

  /** Converse of the contract of ExtractVideoId: the maximal run at the
      leftmost matching position is the identifier returned. */
  lemma {:induction false} ExtractVideoIdExact(s: string, q: int, f: Form, id: string)
    requires IsLeftmostMatch(s, q) && StartsId(s, q, f) && IsMaximalRun(s, q, f, id)
    ensures ExtractVideoId(s) == Some(id)
  {
    var r := ExtractVideoId(s);
    assert r.Some?;
    var q', f' :| IsLeftmostMatch(s, q') && StartsId(s, q', f') && IsMaximalRun(s, q', f', r.value);
    assert q' == q;
    assert f' == f by { FormsExclusive(s, q); }
    MaximalRunIsRun(s, q, f, id);
    MaximalRunIsRun(s, q, f, r.value);
  }

  /** `watch?v=abc123&x=1` yields `abc123`: the run stops at `&`. */
  lemma WatchQueryExample()
    ensures ExtractVideoId("watch?v=abc123&x=1") == Some("abc123")
  {
    assert forall q :: 0 <= q < 8 ==> !MatchesAt("watch?v=abc123&x=1", q);
    assert forall k :: 0 <= k < 6 ==> "watch?v=abc123&x=1"[8 + k] == "abc123"[k];
    assert "watch?v=abc123&x=1"[8..14] == "abc123";
    ExtractVideoIdExact("watch?v=abc123&x=1", 8, Watch, "abc123");
  }

  /** `https://youtu.be/xyz789?t=5` yields `xyz789`: the trailing query is dropped. */
  lemma ShortLinkExample()
    ensures ExtractVideoId("https://youtu.be/xyz789?t=5") == Some("xyz789")
  {
    assert forall q :: 0 <= q < 17 ==> !MatchesAt("https://youtu.be/xyz789?t=5", q);
    assert forall k :: 0 <= k < 6 ==> "https://youtu.be/xyz789?t=5"[17 + k] == "xyz789"[k];
    assert "https://youtu.be/xyz789?t=5"[17..23] == "xyz789";
    ExtractVideoIdExact("https://youtu.be/xyz789?t=5", 17, ShortLink, "xyz789");
  }

  /** A full watch URL with nothing after the identifier. */
  lemma FullWatchUrlExample()
    ensures ExtractVideoId("https://www.youtube.com/watch?v=abc123") == Some("abc123")
  {
    assert forall q :: 0 <= q < 16 ==> !MatchesAt("https://www.youtube.com/watch?v=abc123", q);
    assert forall q :: 16 <= q < 32 ==> !MatchesAt("https://www.youtube.com/watch?v=abc123", q);
    assert forall k :: 0 <= k < 6 ==> "https://www.youtube.com/watch?v=abc123"[32 + k] == "abc123"[k];
    assert "https://www.youtube.com/watch?v=abc123"[32..38] == "abc123";
    ExtractVideoIdExact("https://www.youtube.com/watch?v=abc123", 32, Watch, "abc123");
  }

  /** A link of neither shape has no identifier, although it names youtube.com. */
  lemma ShortsUrlHasNoId()
    ensures ExtractVideoId("https://www.youtube.com/shorts/abc123").None?
  {
    assert forall q :: 0 <= q < 37 ==> !MatchesAt("https://www.youtube.com/shorts/abc123", q);
  }
}
