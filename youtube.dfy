/**
 * The video-id extraction both lesson renderers apply to a video lesson's URL:
 *
 *   (?:https?:\/\/)?(?:www\.)?(?:youtube\.com\/(?:[^\/\n\s]+\/\S+\/|(?:v|e(?:mbed)?)\/|\S*?[?&]v=)|youtu\.be\/)([a-zA-Z0-9_-]{11})
 *
 * searched (not anchored) the way a backtracking engine does: the first start position that
 * admits a match wins, and at that position the alternatives are tried in order, the greedy
 * repetitions longest first and the lazy one shortest first. The optional scheme and "www."
 * prefixes never start with 'y', so the match found is the one whose "youtube.com/" or
 * "youtu.be/" part starts leftmost; the functions below search for that part directly.
 */
module YouTube {
  import opened Common

  /** `[a-zA-Z0-9_-]` */
  predicate IdChar(c: char)
  {
    'a' <= c <= 'z' || 'A' <= c <= 'Z' || '0' <= c <= '9' || c == '_' || c == '-'
  }

  /** An 11-character id: `[a-zA-Z0-9_-]{11}`. */
  predicate IsVideoId(id: string)
  {
    |id| == 11 && forall k | 0 <= k < 11 :: IdChar(id[k])
  }

  /** `[a-zA-Z0-9_-]{11}` matches at position `p`. */
  predicate IdAt(s: string, p: int)
  {
    0 <= p && p + 11 <= |s| && IsVideoId(s[p..p + 11])
  }

  /** The literal `lit` occurs at position `p`. */
  predicate HasAt(s: string, p: int, lit: string)
  {
    0 <= p && p + |lit| <= |s| && s[p..p + |lit|] == lit
  }

  const YoutubeCom := "youtube.com/"
  const YoutuBe := "youtu.be/"

  /** `[^\/\n\s]` */
  predicate PathChar(c: char)
  {
    c != '/' && !IsSpace(c)
  }

  /** The end of the longest run of `[^\/\n\s]` starting at `p`. */
  function PathRunEnd(s: string, p: nat): (e: nat)
    requires p <= |s|
    ensures p <= e <= |s|
    ensures forall k | p <= k < e :: PathChar(s[k])
    ensures e < |s| ==> !PathChar(s[e])
    decreases |s| - p
  {
    if p < |s| && PathChar(s[p]) then PathRunEnd(s, p + 1) else p
  }

  /** The end of the longest run of `\S` starting at `p`. */
  function NonSpaceEnd(s: string, p: nat): (e: nat)
    requires p <= |s|
    ensures p <= e <= |s|
    ensures forall k | p <= k < e :: !IsSpace(s[k])
    ensures e < |s| ==> IsSpace(s[e])
    decreases |s| - p
  {
    if p < |s| && !IsSpace(s[p]) then NonSpaceEnd(s, p + 1) else p
  }

  /**
   * The greedy `\S+\/` before the id: the last position `j` in `[lo, hi)` holding '/' with an
   * id right after it, searched from `hi - 1` down.
   */
  function LastSlashWithId(s: string, lo: nat, hi: nat): (j: Option<nat>)
    requires hi <= |s|
    ensures j.Some? ==> lo <= j.value < hi && s[j.value] == '/' && IdAt(s, j.value + 1)
    ensures j.Some? ==> forall q | j.value < q < hi :: !(s[q] == '/' && IdAt(s, q + 1))
    ensures j.None? ==> forall q | lo <= q < hi :: !(s[q] == '/' && IdAt(s, q + 1))
    decreases hi
  {
    if hi <= lo then None
    else if s[hi - 1] == '/' && IdAt(s, hi) then Some(hi - 1)
    else LastSlashWithId(s, lo, hi - 1)
  }

  /**
   * First alternative after "youtube.com/" (at `r`): `[^\/\n\s]+\/\S+\/` then the id. The
   * first run can only end at its longest, on a '/'; the second is the longest one that is
   * followed by '/' and an id. Returns the position of the id.
   */
  function SegmentsForm(s: string, r: nat): (p: Option<nat>)
    requires r <= |s|
    ensures p.Some? ==> IdAt(s, p.value) && r < p.value && s[p.value - 1] == '/'
  {
    var k := PathRunEnd(s, r);
    if k == r || k == |s| || s[k] != '/' then None
    else
      var e := NonSpaceEnd(s, k + 1);
      match LastSlashWithId(s, k + 2, e)
      case Some(j) => Some(j + 1)
      case None => None
  }

  /** Third alternative after "youtube.com/": the lazy `\S*?[?&]v=` then the id, tried from `q` on. */
  function QueryForm(s: string, q: nat): (p: Option<nat>)
    requires q <= |s|
    ensures p.Some? ==>
      && IdAt(s, p.value) && q + 3 <= p.value
      && s[p.value - 3] in {'?', '&'} && s[p.value - 2] == 'v' && s[p.value - 1] == '='
      && forall k | q <= k < p.value - 3 :: !IsSpace(s[k])
    decreases |s| - q
  {
    if q + 3 <= |s| && s[q] in {'?', '&'} && s[q + 1] == 'v' && s[q + 2] == '=' && IdAt(s, q + 3) then Some(q + 3)
    else if q < |s| && !IsSpace(s[q]) then QueryForm(s, q + 1)
    else None
  }

  /** The alternatives tried at a position `c`, in their order; returns the position of the id. */
  function MatchAt(s: string, c: nat): (p: Option<nat>)
    requires c <= |s|
    ensures p.Some? ==> IdAt(s, p.value) && (HasAt(s, c, YoutubeCom) || HasAt(s, c, YoutuBe))
  {
    if HasAt(s, c, YoutubeCom) then
      var r := c + 12;
      var segments := SegmentsForm(s, r);
      if segments.Some? then segments
      else if HasAt(s, r, "v/") && IdAt(s, r + 2) then Some(r + 2)
      else if HasAt(s, r, "embed/") && IdAt(s, r + 6) then Some(r + 6)
      else if HasAt(s, r, "e/") && IdAt(s, r + 2) then Some(r + 2)
      else QueryForm(s, r)
    else if HasAt(s, c, YoutuBe) && IdAt(s, c + 9) then Some(c + 9)
    else None
  }

  /** The leftmost position from `c` on where a match starts; returns the position of the id. */
  function FirstMatch(s: string, c: nat): (p: Option<nat>)
    requires c <= |s|
    ensures p.Some? ==> IdAt(s, p.value)
    decreases |s| - c
  {
    match MatchAt(s, c)
    case Some(p) => Some(p)
    case None => if c < |s| then FirstMatch(s, c + 1) else None
  }

  /** `url.match(pattern)?.[1]`: the captured id, if the URL matches at all. */
  function VideoId(url: string): (id: Option<string>)
    ensures id.Some? ==> IsVideoId(id.value)
    ensures id.Some? ==> exists p :: IdAt(url, p) && url[p..p + 11] == id.value
  {
    match FirstMatch(url, 0)
    case Some(p) => Some(url[p..p + 11])
    case None => None
  }

  const EmbedPrefix := "https://www.youtube.com/embed/"

  /** `https://www.youtube.com/embed/{id}` */
  function EmbedUrl(id: string): string
  {
    EmbedPrefix + id
  }

  /**
   * The search returns the id of the leftmost position where some alternative matches: every
   * earlier position admits none.
   */
  lemma {:induction false} FirstMatchIsLeftmost(s: string, c: nat)
    requires c <= |s|
    ensures FirstMatch(s, c).Some? <==> exists m | c <= m <= |s| :: MatchAt(s, m).Some?
    ensures FirstMatch(s, c).Some? ==>
      exists m | c <= m <= |s| :: MatchAt(s, m) == FirstMatch(s, c) && forall q | c <= q < m :: MatchAt(s, q).None?
    decreases |s| - c
  {
    if MatchAt(s, c).Some? {
      assert FirstMatch(s, c) == MatchAt(s, c);
    } else if c < |s| {
      assert FirstMatch(s, c) == FirstMatch(s, c + 1);
      FirstMatchIsLeftmost(s, c + 1);
      if FirstMatch(s, c).Some? {
        var m :| c + 1 <= m <= |s| && MatchAt(s, m) == FirstMatch(s, c + 1) && forall q | c + 1 <= q < m :: MatchAt(s, q).None?;
        assert forall q | c <= q < m :: MatchAt(s, q).None?;
      }
    } else {
      assert FirstMatch(s, c).None?;
    }
  }

  /** A URL without a 'y' never yields an id: both forms start with one. */
  lemma NoYNoId(url: string)
    requires forall k | 0 <= k < |url| :: url[k] != 'y'
    ensures VideoId(url).None?
  {
    SkipToY(url, 0, |url|);
  }

  // ---------------------------------------------------------------------------
  // Round trips

  /** Positions that do not hold 'y' cannot start a match. */
  lemma {:induction false} SkipToY(s: string, a: nat, b: nat)
    requires a <= b <= |s|
    requires forall k | a <= k < b :: s[k] != 'y'
    ensures FirstMatch(s, a) == FirstMatch(s, b)
    decreases b - a
  {
    if a < b {
      assert !HasAt(s, a, YoutubeCom) by { assert YoutubeCom[0] == 'y'; }
      assert !HasAt(s, a, YoutuBe) by { assert YoutuBe[0] == 'y'; }
      SkipToY(s, a + 1, b);
    }
  }

  /** The id of a video-id string, read at a position. */
  lemma IdAtSuffix(prefix: string, id: string)
    requires IsVideoId(id)
    ensures IdAt(prefix + id, |prefix|) && (prefix + id)[|prefix|..|prefix| + 11] == id
  {
    assert (prefix + id)[|prefix|..|prefix| + 11] == id;
  }

  const ShortPrefix := "https://youtu.be/"

  /** At the "youtu.be/" of a short link, the second form finds the id. */
  lemma ShortMatchAt(s: string, id: string)
    requires IsVideoId(id) && s == ShortPrefix + id
    ensures MatchAt(s, 8) == Some(17)
  {
    assert HasAt(s, 8, YoutuBe) by { assert s[8..17] == YoutuBe; }
    assert !HasAt(s, 8, YoutubeCom) by { assert s[13] != YoutubeCom[5]; }
    IdAtSuffix(ShortPrefix, id);
  }

  /** A short link gives its id back. */
  lemma {:induction false} ShortLinkRoundTrip(id: string)
    requires IsVideoId(id)
    ensures VideoId(ShortPrefix + id) == Some(id)
  {
    var s := ShortPrefix + id;
    SkipToY(s, 0, 8);
    ShortMatchAt(s, id);
    IdAtSuffix(ShortPrefix, id);
  }

  /** In an embed URL the first alternative fails: no '/' follows the id. */
  lemma EmbedSegmentsFail(s: string, id: string)
    requires IsVideoId(id) && s == EmbedPrefix + id
    ensures SegmentsForm(s, 24).None?
  {
    assert s[29] == '/' && forall q | 24 <= q < 29 :: PathChar(s[q]);
    PathRunEndAt(s, 24, 29);
    forall q | 30 <= q < 41 ensures s[q] == id[q - 30] && s[q] != '/' {
    }
  }

  /** At the "youtube.com/" of an embed URL, the "embed/" alternative finds the id. */
  lemma EmbedMatchAt(s: string, id: string)
    requires IsVideoId(id) && s == EmbedPrefix + id
    ensures MatchAt(s, 12) == Some(30)
  {
    EmbedPrefixParts(s, id);
    EmbedSegmentsFail(s, id);
    IdAtSuffix(EmbedPrefix, id);
  }

  /** The literal parts of an embed URL, read at their positions. */
  lemma EmbedPrefixParts(s: string, id: string)
    requires s == EmbedPrefix + id
    ensures HasAt(s, 12, YoutubeCom) && !HasAt(s, 24, "v/") && HasAt(s, 24, "embed/")
  {
    assert s[12..24] == YoutubeCom;
    assert s[24] == 'e';
    assert s[24..30] == "embed/";
  }

  /** The embed URL the player is given yields the same id again. */
  lemma {:induction false} EmbedUrlRoundTrip(id: string)
    requires IsVideoId(id)
    ensures VideoId(EmbedUrl(id)) == Some(id)
  {
    var s := EmbedUrl(id);
    assert s == EmbedPrefix + id;
    SkipToY(s, 0, 12);
    EmbedMatchAt(s, id);
    IdAtSuffix(EmbedPrefix, id);
  }

  /** The run of path characters starting at `p` ends at the first character that is not one. */
  lemma {:induction false} PathRunEndAt(s: string, p: nat, e: nat)
    requires p <= e < |s| && !PathChar(s[e])
    requires forall q | p <= q < e :: PathChar(s[q])
    ensures PathRunEnd(s, p) == e
    decreases e - p
  {
    if p < e {
      PathRunEndAt(s, p + 1, e);
    }
  }

  const WatchPrefix := "https://www.youtube.com/watch?v="

  /** In a watch link no '/' follows "watch?v=" and the id, so the first alternative fails. */
  lemma WatchSegmentsFail(s: string, id: string)
    requires IsVideoId(id) && s == WatchPrefix + id
    ensures SegmentsForm(s, 24).None?
  {
    forall q | 24 <= q < 43 ensures PathChar(s[q]) {
      if q >= 32 { assert s[q] == id[q - 32]; }
    }
    PathRunToEnd(s, 24);
  }

  /** The lazy third alternative skips "watch" and finds "?v=" and the id. */
  lemma WatchQuery(s: string, id: string)
    requires IsVideoId(id) && s == WatchPrefix + id
    ensures QueryForm(s, 24) == Some(32)
  {
    IdAtSuffix(WatchPrefix, id);
    assert QueryForm(s, 29) == Some(32);
    assert QueryForm(s, 28) == Some(32) by { assert s[28] == 'h'; }
    assert QueryForm(s, 27) == Some(32) by { assert s[27] == 'c'; }
    assert QueryForm(s, 26) == Some(32) by { assert s[26] == 't'; }
    assert QueryForm(s, 25) == Some(32) by { assert s[25] == 'a'; }
    assert s[24] == 'w';
  }

  /** At the "youtube.com/" of a watch link, only the third alternative applies. */
  lemma WatchMatchAt(s: string, id: string)
    requires IsVideoId(id) && s == WatchPrefix + id
    ensures MatchAt(s, 12) == Some(32)
  {
    WatchPrefixParts(s, id);
    WatchSegmentsFail(s, id);
    WatchQuery(s, id);
  }

  /** The literal parts of a watch link, read at their positions: none of the path forms starts there. */
  lemma WatchPrefixParts(s: string, id: string)
    requires s == WatchPrefix + id
    ensures HasAt(s, 12, YoutubeCom) && !HasAt(s, 24, "v/") && !HasAt(s, 24, "embed/") && !HasAt(s, 24, "e/")
  {
    assert s[12..24] == YoutubeCom;
    assert s[24] == 'w';
    assert !HasAt(s, 24, "v/") by { assert s[24..26][0] == 'w'; }
    assert !HasAt(s, 24, "embed/") by { assert s[24..30][0] == 'w'; }
    assert !HasAt(s, 24, "e/") by { assert s[24..26][0] == 'w'; }
  }

  /** A watch link gives its id back: it is found by the third alternative. */
  lemma {:induction false} WatchLinkRoundTrip(id: string)
    requires IsVideoId(id)
    ensures VideoId(WatchPrefix + id) == Some(id)
  {
    var s := WatchPrefix + id;
    SkipToY(s, 0, 12);
    WatchMatchAt(s, id);
    IdAtSuffix(WatchPrefix, id);
  }

  /** A run of path characters that reaches the end of the string. */
  lemma {:induction false} PathRunToEnd(s: string, p: nat)
    requires p <= |s|
    requires forall q | p <= q < |s| :: PathChar(s[q])
    ensures PathRunEnd(s, p) == |s|
    decreases |s| - p
  {
    if p < |s| {
      PathRunToEnd(s, p + 1);
    }
  }
}
