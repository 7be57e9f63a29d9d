/**
 * Video-id extraction from a pasted link.  The form tries three link shapes in
 * a fixed order, each a literal prefix followed by a greedy run of characters
 * other than one stop character:
 *   `youtube.com/watch?v=` then a run of non-`&`,
 *   `youtube.com/embed/`   then a run of non-`?`,
 *   `youtu.be/`            then a run of non-`?`.
 * A shape matches at the leftmost place where its prefix is followed by at
 * least one allowed character, and the id is the whole run from there.
 */
module LinkParser {
  import opened Strings

  /** A link shape: the literal text before the id, and the character that ends the id. */
  datatype Shape = Shape(prefix: string, stop: char)

  const Watch := Shape("youtube.com/watch?v=", '&')
  const Embed := Shape("youtube.com/embed/", '?')
  const Short := Shape("youtu.be/", '?')

  /** The shape's pattern matches with its prefix starting at `i`. */
  predicate MatchesAt(url: string, sh: Shape, i: nat) {
    StartsAt(url, sh.prefix, i) && i + |sh.prefix| < |url| && url[i + |sh.prefix|] != sh.stop
  }

  /** The shape's pattern matches somewhere in `url`. */
  ghost predicate HasMatch(url: string, sh: Shape) {
    exists i: nat :: MatchesAt(url, sh, i)
  }

  /** `i` is where the pattern's match starts: the leftmost place it matches. */
  ghost predicate LeftmostAt(url: string, sh: Shape, i: nat) {
    MatchesAt(url, sh, i) && forall k: nat :: k < i ==> !MatchesAt(url, sh, k)
  }

  /** `id` is the longest run of non-`stop` characters of `s` starting at `j`. */
  ghost predicate MaximalRunAt(s: string, j: nat, stop: char, id: string) {
    j + |id| <= |s| && s[j..j + |id|] == id && stop !in id
    && (j + |id| == |s| || s[j + |id|] == stop)
  }

  /** Length of the greedy run of non-`stop` characters from `j`. */
  function RunLength(s: string, j: nat, stop: char): (n: nat)
    requires j <= |s|
    ensures j + n <= |s|
    ensures forall k :: j <= k < j + n ==> s[k] != stop
    ensures j + n == |s| || s[j + n] == stop
    decreases |s| - j
  {
    if j == |s| || s[j] == stop then 0 else 1 + RunLength(s, j + 1, stop)
  }

  /** The first place at or after `i` where the pattern matches. */
  function FirstMatchFrom(url: string, sh: Shape, i: nat): (r: Option<nat>)
    ensures r.Some? ==> i <= r.value && MatchesAt(url, sh, r.value)
    ensures r.Some? ==> forall k: nat :: i <= k < r.value ==> !MatchesAt(url, sh, k)
    ensures r.None? ==> forall k: nat :: i <= k ==> !MatchesAt(url, sh, k)
    decreases |url| - i
  {
    if i >= |url| then None
    else if MatchesAt(url, sh, i) then Some(i)
    else FirstMatchFrom(url, sh, i + 1)
  }

  /** The greedy run after the prefix of a match at `i`: what the capture group holds. */
  function Capture(url: string, sh: Shape, i: nat): (id: string)
    requires i + |sh.prefix| <= |url|
    ensures MaximalRunAt(url, i + |sh.prefix|, sh.stop, id)
  {
    var j := i + |sh.prefix|;
    RunIsMaximal(url, j, sh.stop);
    url[j..j + RunLength(url, j, sh.stop)]
  }

  /** `url.match(pattern)?.[1]` for one shape: the captured id, if the pattern matches. */
  function MatchShape(url: string, sh: Shape): (r: Option<string>)
    ensures r.Some? <==> HasMatch(url, sh)
    ensures r.Some? ==> exists i: nat :: LeftmostAt(url, sh, i) && MaximalRunAt(url, i + |sh.prefix|, sh.stop, r.value)
    ensures r.Some? ==> |r.value| > 0
  {
    match FirstMatchFrom(url, sh, 0)
    case None => None
    case Some(i) =>
      assert LeftmostAt(url, sh, i);
      Some(Capture(url, sh, i))
  }

  /** The capture described by `MatchShape`'s contract is unique, so it is what `MatchShape` returns. */
  lemma MatchShapeDetermined(url: string, sh: Shape, i: nat, id: string)
    requires LeftmostAt(url, sh, i)
    requires MaximalRunAt(url, i + |sh.prefix|, sh.stop, id)
    ensures MatchShape(url, sh) == Some(id)
  {
    FirstMatchIsLeftmost(url, sh, i);
    MaximalRunUnique(url, i + |sh.prefix|, sh.stop, id, Capture(url, sh, i));
  }

  /** The greedy run is a maximal run. */
  lemma RunIsMaximal(s: string, j: nat, stop: char)
    requires j <= |s|
    ensures MaximalRunAt(s, j, stop, s[j..j + RunLength(s, j, stop)])
  {
    var n := RunLength(s, j, stop);
    var id := s[j..j + n];
    assert forall k :: 0 <= k < n ==> id[k] == s[j + k];
  }

  /** The scan from the start stops at the leftmost match. */
  lemma FirstMatchIsLeftmost(url: string, sh: Shape, i: nat)
    requires LeftmostAt(url, sh, i)
    ensures FirstMatchFrom(url, sh, 0) == Some(i)
  {
    var f := FirstMatchFrom(url, sh, 0);
    assert f.Some?;
    LeftmostUnique(url, sh, i, f.value);
  }

  /** A pattern has one leftmost match. */
  lemma LeftmostUnique(url: string, sh: Shape, i: nat, i': nat)
    requires LeftmostAt(url, sh, i) && LeftmostAt(url, sh, i')
    ensures i == i'
  {
  }

  /** Two maximal runs from the same place are equal. */
  lemma MaximalRunUnique(s: string, j: nat, stop: char, a: string, b: string)
    requires MaximalRunAt(s, j, stop, a) && MaximalRunAt(s, j, stop, b)
    ensures a == b
  {
    RunCharAt(s, j, a, |b|);
    RunCharAt(s, j, b, |a|);
    assert |a| == |b|;
  }

  /** Each character of a run read from `s` at `j` is the character of `s` at that offset. */
  lemma RunCharAt(s: string, j: nat, id: string, k: nat)
    ensures j + |id| <= |s| && s[j..j + |id|] == id && k < |id| ==> id[k] == s[j + k]
  {
  }

  /**
   * `extractVideoId`: the shapes are tried in order and the first one that
   * matches anywhere decides the result, wherever a later shape's prefix
   * appears; the result is absent exactly when no shape matches, and an id is
   * never empty.
   */
  function ExtractVideoId(url: string): (r: Option<string>)
    ensures r.None? <==> !HasMatch(url, Watch) && !HasMatch(url, Embed) && !HasMatch(url, Short)
    ensures HasMatch(url, Watch) ==> r == MatchShape(url, Watch)
    ensures !HasMatch(url, Watch) && HasMatch(url, Embed) ==> r == MatchShape(url, Embed)
    ensures !HasMatch(url, Watch) && !HasMatch(url, Embed) ==> r == MatchShape(url, Short)
    ensures r.Some? ==> |r.value| > 0
  {
    match MatchShape(url, Watch)
    case Some(id) => Some(id)
    case None =>
      match MatchShape(url, Embed)
      case Some(id) => Some(id)
      case None => MatchShape(url, Short)
  }

  /** A successful extraction implies the link names one of the two hosts the form checks for. */
  lemma ExtractedLinkNamesHost(url: string)
    ensures ExtractVideoId(url).Some? ==> Contains(url, "youtube.com") || Contains(url, "youtu.be")
  {
    HostPrefixes();
    if HasMatch(url, Watch) {
      MatchNamesHost(url, Watch, "youtube.com");
    } else if HasMatch(url, Embed) {
      MatchNamesHost(url, Embed, "youtube.com");
    } else if HasMatch(url, Short) {
      MatchNamesHost(url, Short, "youtu.be");
    }
  }

  /** The host names are the first part of each shape's literal text. */
  lemma HostPrefixes()
    ensures Watch.prefix[..11] == "youtube.com"
    ensures Embed.prefix[..11] == "youtube.com"
    ensures Short.prefix[..8] == "youtu.be"
  {
  }

  /** Where a shape matches, every prefix of its literal text occurs. */
  lemma MatchNamesHost(url: string, sh: Shape, host: string)
    requires HasMatch(url, sh)
    requires |host| <= |sh.prefix| && sh.prefix[..|host|] == host
    ensures Contains(url, host)
  {
    var i: nat :| MatchesAt(url, sh, i);
    PrefixOccurs(url, sh.prefix, host, i);
  }

  /** A `watch?v=` id stops at the first `&`; the other two stop at the first `?`. */
  lemma IdStopsAtShapeDelimiter(url: string)
    requires ExtractVideoId(url).Some?
    ensures HasMatch(url, Watch) ==> '&' !in ExtractVideoId(url).value
    ensures !HasMatch(url, Watch) ==> '?' !in ExtractVideoId(url).value
  {
    var id := ExtractVideoId(url).value;
    if HasMatch(url, Watch) {
      var i: nat :| LeftmostAt(url, Watch, i) && MaximalRunAt(url, i + |Watch.prefix|, '&', id);
    } else if HasMatch(url, Embed) {
      var i: nat :| LeftmostAt(url, Embed, i) && MaximalRunAt(url, i + |Embed.prefix|, '?', id);
    } else {
      var i: nat :| LeftmostAt(url, Short, i) && MaximalRunAt(url, i + |Short.prefix|, '?', id);
    }
  }

  /** A place where the link's character differs from the shape's literal text is not a match. */
  lemma NoMatchAt(url: string, sh: Shape, k: nat, m: nat)
    requires m < |sh.prefix|
    requires k + m >= |url| || url[k + m] != sh.prefix[m]
    ensures !MatchesAt(url, sh, k)
  {
    if k + |sh.prefix| <= |url| {
      assert url[k..k + |sh.prefix|][m] == url[k + m];
    }
  }

  /** A `youtu.be/` prefix earlier in the link does not beat a later `watch?v=` match. */
  lemma ShapeOrderBeatsPosition()
    ensures ExtractVideoId("youtu.be/X" + Watch.prefix + "B") == Some("B")
  {
    var url := "youtu.be/X" + Watch.prefix + "B";
    forall k: nat | k < 10 ensures !MatchesAt(url, Watch, k) {
      if k == 0 {
        NoMatchAt(url, Watch, 0, 5);
      } else {
        NoMatchAt(url, Watch, k, 0);
      }
    }
    assert url[10..30] == Watch.prefix;
    assert url[30..31] == "B";
    MatchShapeDetermined(url, Watch, 10, "B");
  }

  /** A `watch?v=` link: the id runs up to the first `&`. */
  lemma WatchLink()
    ensures ExtractVideoId(Watch.prefix + "abc&t=9") == Some("abc")
  {
    var url := Watch.prefix + "abc&t=9";
    assert url[..20] == Watch.prefix;
    assert url[20..23] == "abc";
    MatchShapeDetermined(url, Watch, 0, "abc");
  }

  /** An `embed/` link: the id runs up to the first `?`. */
  lemma EmbedLink()
    ensures ExtractVideoId(Embed.prefix + "xyz?rel=0") == Some("xyz")
  {
    var url := Embed.prefix + "xyz?rel=0";
    forall k: nat ensures !MatchesAt(url, Watch, k) {
      if k == 0 {
        NoMatchAt(url, Watch, 0, 12);
      } else if k < 8 {
        NoMatchAt(url, Watch, k, 0);
      } else {
        NoMatchAt(url, Watch, k, 19);
      }
    }
    assert url[..18] == Embed.prefix;
    assert url[18..21] == "xyz";
    MatchShapeDetermined(url, Embed, 0, "xyz");
  }

  /** A `youtu.be/` link: the id runs up to the first `?`. */
  lemma ShortLink()
    ensures ExtractVideoId(Short.prefix + "q1?si=z") == Some("q1")
  {
    var url := Short.prefix + "q1?si=z";
    assert url[..9] == Short.prefix;
    assert url[9..11] == "q1";
    MatchShapeDetermined(url, Short, 0, "q1");
  }
}
