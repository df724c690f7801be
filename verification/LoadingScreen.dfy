/** The pure helpers of components/LoadingScreen.tsx: the one-line
    description of what is being transcribed, and the rotation of the
    status messages (one step per timer tick; the timer is not modelled). */
module LoadingScreen {
  import opened Types
  import opened Strings

  const UrlTag := "From URL: "
  const FileTag := "File: "
  const Ellipsis := "..."
  /** URLs longer than this are shortened. */
  const MaxShownUrl: nat := 60
  /** How much of a shortened URL is kept before the ellipsis. */
  const KeptUrl: nat := 57

  /** The URL as displayed: in full up to 60 characters, otherwise its
      first 57 characters and an ellipsis. */
  function DisplayUrl(url: string): (d: string)
    ensures |d| <= MaxShownUrl
    ensures |url| <= MaxShownUrl ==> d == url
    ensures |url| > MaxShownUrl ==>
              |d| == MaxShownUrl && d[..KeptUrl] == url[..KeptUrl] && EndsWith(d, Ellipsis)
  {
    if |url| > MaxShownUrl then
      var d := url[..KeptUrl] + Ellipsis;
      assert d[KeptUrl..] == Ellipsis;
      d
    else url
  }

  /** Shortening is stable: a displayed URL displays as itself. */
  lemma DisplayUrlIdempotent(url: string)
    ensures DisplayUrl(DisplayUrl(url)) == DisplayUrl(url)
  {
  }

  /** `getSourceName()`: nothing for no source or an empty URL (both are
      falsy), the tagged URL for a URL, the tagged name for a file. */
  function SourceName(source: Option<Source>): (name: string)
    ensures source.None? ==> name == ""
    ensures source.Some? && source.value.UrlSource? && source.value.url == [] ==> name == ""
    ensures source.Some? && source.value.UrlSource? && source.value.url != [] ==>
              StartsWith(name, UrlTag) && name[|UrlTag|..] == DisplayUrl(source.value.url)
    ensures source.Some? && source.value.FileSource? ==>
              StartsWith(name, FileTag) && name[|FileTag|..] == source.value.file.name
  {
    match source
    case None => ""
    case Some(UrlSource(url)) =>
      if url == [] then ""
      else
        StartsWithConcat(UrlTag, DisplayUrl(url));
        UrlTag + DisplayUrl(url)
    case Some(FileSource(f)) =>
      StartsWithConcat(FileTag, f.name);
      FileTag + f.name
  }

  /** The description tells the kinds apart: it is empty exactly for no
      source or an empty URL, carries the URL tag exactly for a non-empty
      URL, and the file tag exactly for a file. */
  lemma SourceNameKinds(source: Option<Source>)
    ensures SourceName(source) == [] <==> source.None? || source == Some(UrlSource([]))
    ensures StartsWith(SourceName(source), UrlTag) <==>
              source.Some? && source.value.UrlSource? && source.value.url != []
    ensures StartsWith(SourceName(source), FileTag) <==> source.Some? && source.value.FileSource?
  {
    var name := SourceName(source);
    match source
    case None =>
    case Some(UrlSource(url)) =>
      if url != [] {
        assert name[1] == UrlTag[1] == 'r';
        assert FileTag[1] == 'i';
      }
    case Some(FileSource(f)) =>
      assert name[1] == FileTag[1] == 'i';
      assert UrlTag[1] == 'r';
  }

  /** A URL of at most 60 characters can be read back from the description. */
  lemma ShortUrlShownInFull(url: string)
    requires 0 < |url| <= MaxShownUrl
    ensures SourceName(Some(UrlSource(url))) == UrlTag + url
  {
  }

  // ---------------------------------------------------------------------
  // The status message rotation.

  const Messages: seq<string> := [
    "Warming up the AI model...",
    "Analyzing audio patterns...",
    "Converting speech to text...",
    "Applying punctuation and formatting...",
    "Finalizing the transcript...",
    "Almost there, Gemini is thinking hard!"
  ]

  /** `list.indexOf(m)`: the first position of `m`, or -1 when absent. */
  function IndexOf(list: seq<string>, m: string): (i: int)
    ensures -1 <= i < |list|
    ensures i == -1 <==> m !in list
    ensures 0 <= i ==> list[i] == m
  {
    if list == [] then -1
    else if list[0] == m then 0
    else
      var k := IndexOf(list[1..], m);
      if k == -1 then -1 else k + 1
  }

  /** The position found is the first one holding `m`. */
  lemma {:induction false} IndexOfFirst(list: seq<string>, m: string, j: nat)
    requires j < |list| && list[j] == m
    ensures 0 <= IndexOf(list, m) <= j
  {
    if list[0] != m {
      IndexOfFirst(list[1..], m, j - 1);
    }
  }

  /** The six messages differ pairwise, so each is found at its own position. */
  lemma MessagesDistinct()
    ensures Distinct(Messages) && |Messages| == 6
  {
    assert Messages[0][0] == 'W' && Messages[1][0] == 'A' && Messages[2][0] == 'C';
    assert Messages[3][0] == 'A' && Messages[4][0] == 'F' && Messages[5][0] == 'A';
    assert Messages[1][1] == 'n' && Messages[3][1] == 'p' && Messages[5][1] == 'l';
  }

  /** Distinct entries: each is found at its own position. */
  predicate Distinct(list: seq<string>) {
    forall i, j :: 0 <= i < j < |list| ==> list[i] != list[j]
  }

  lemma IndexOfDistinct(list: seq<string>, i: nat)
    requires Distinct(list) && i < |list|
    ensures IndexOf(list, list[i]) == i
  {
  }

  /** One rotation step over a non-empty list: the entry after the previous
      one's position, wrapping from the last to the first. An entry not in
      the list counts as position -1, so the first entry follows it. */
  function Rotate(list: seq<string>, prev: string): (next: string)
    requires |list| > 0
    ensures next in list
    ensures prev !in list ==> next == list[0]
  {
    list[NextIndex(IndexOf(list, prev), |list|)]
  }

  /** `(currentIndex + 1) % length` for a position or -1: the following
      position, wrapping from the last one to the first. */
  function NextIndex(i: int, length: nat): (j: nat)
    requires length > 0 && -1 <= i < length
    ensures j < length
    ensures j == if i + 1 == length then 0 else i + 1
  {
    (i + 1) % length
  }

  /** Every entry is found at its own position. */
  predicate Indexed(list: seq<string>) {
    forall i :: 0 <= i < |list| ==> IndexOf(list, list[i]) == i
  }

  lemma DistinctIndexed(list: seq<string>)
    requires Distinct(list)
    ensures Indexed(list)
  {
    forall i | 0 <= i < |list| ensures IndexOf(list, list[i]) == i {
      IndexOfDistinct(list, i);
    }
  }

  /** When every entry is found at its own position, the step moves from
      one position to the next, wrapping at the end. */
  lemma RotateStep(list: seq<string>, i: nat)
    requires Indexed(list) && i < |list|
    ensures Rotate(list, list[i]) == list[NextIndex(i, |list|)]
  {
  }

  /** The entry shown after `n` steps, starting from the first one. */
  function RotateTimes(list: seq<string>, n: nat): string
    requires |list| > 0
  {
    if n == 0 then list[0] else Rotate(list, RotateTimes(list, n - 1))
  }

  /** The position reached after `n` steps from the first one. */
  function Position(n: nat, length: nat): (p: nat)
    requires length > 0
    ensures p < length
  {
    if n == 0 then 0 else NextIndex(Position(n - 1, length), length)
  }

  /** Stepping the entries follows stepping the positions. */
  lemma {:induction false} RotateTimesPosition(list: seq<string>, n: nat)
    requires Indexed(list) && |list| > 0
    ensures RotateTimes(list, n) == list[Position(n, |list|)]
  {
    if n > 0 {
      var p := Position(n - 1, |list|);
      assert RotateTimes(list, n - 1) == list[p] by {
        RotateTimesPosition(list, n - 1);
      }
      assert Rotate(list, list[p]) == list[NextIndex(p, |list|)] by {
        RotateStep(list, p);
      }
      assert RotateTimes(list, n) == Rotate(list, RotateTimes(list, n - 1));
      assert Position(n, |list|) == NextIndex(p, |list|);
    }
  }

  /** Within the first turn the position is the step count. */
  lemma {:induction false} PositionFirstTurn(n: nat, length: nat)
    requires n < length
    ensures Position(n, length) == n
  {
    if n > 0 {
      PositionFirstTurn(n - 1, length);
    }
  }

  /** A full turn returns to the same position. */
  lemma {:induction false} PositionPeriod(n: nat, length: nat)
    requires length > 0
    ensures Position(n + length, length) == Position(n, length)
  {
    if n == 0 {
      PositionFirstTurn(length - 1, length);
    } else {
      PositionPeriod(n - 1, length);
      assert n + length - 1 == (n - 1) + length;
    }
  }

  /** For six entries the position is the step count modulo six. */
  lemma {:induction false} PositionModSix(n: nat)
    ensures Position(n, 6) == n % 6
  {
    if n > 0 {
      PositionModSix(n - 1);
    }
  }

  /** The interval callback on the six messages. */
  function NextMessage(prev: string): (next: string)
    ensures next in Messages
    ensures prev !in Messages ==> next == Messages[0]
  {
    Rotate(Messages, prev)
  }

  /** The step moves from position `i` to position `i + 1` modulo six. */
  lemma NextMessageStep(i: nat)
    requires i < |Messages|
    ensures NextMessage(Messages[i]) == Messages[(i + 1) % 6]
  {
    MessagesDistinct();
    DistinctIndexed(Messages);
    RotateStep(Messages, i);
  }

  /** After `n` ticks from the first message, the one at position `n mod 6`
      is shown; six ticks bring the rotation back to where it was. */
  lemma RotationPeriod(n: nat)
    ensures RotateTimes(Messages, n) == Messages[n % 6]
    ensures RotateTimes(Messages, n + 6) == RotateTimes(Messages, n)
  {
    MessagesDistinct();
    DistinctIndexed(Messages);
    RotateTimesPosition(Messages, n);
    RotateTimesPosition(Messages, n + 6);
    PositionPeriod(n, 6);
    PositionModSix(n);
  }
}
