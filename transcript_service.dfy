/** The transcript service: turning a URL into a video id, and fetching the
    captions of a video with one retry. The captions API is outside the model;
    each of its two possible calls is given as an outcome. */
module TranscriptService {
  import opened Types
  import opened Text

  // ---------------------------------------------------------------- video id

  const WatchMarker: string := "youtube.com/watch?v="
  const ShortLinkMarker: string := "youtu.be/"
  const EmbedMarker: string := "youtube.com/embed/"

  const InvalidUrl: string := "Invalid YouTube URL"

  /** One of the three id patterns. `AfterMarker(ms)` is
      `(?:m0|m1|...)([^&\n?#]+)`, searched anywhere in the input;
      `WholeId` is `^([a-zA-Z0-9_-]{11})$`. */
  datatype Pattern = AfterMarker(markers: seq<string>) | WholeId

  /** The patterns in the order they are tried. */
  const Patterns: seq<Pattern> :=
    [AfterMarker([WatchMarker, ShortLinkMarker]), AfterMarker([EmbedMarker]), WholeId]

  /** The characters that end a captured id: `&`, newline, `?`, `#`. */
  predicate IsStopChar(c: char)
  {
    c == '&' || c == '\n' || c == '?' || c == '#'
  }

  predicate IsIdChar(c: char)
  {
    ('a' <= c <= 'z') || ('A' <= c <= 'Z') || ('0' <= c <= '9') || c == '_' || c == '-'
  }

  /** The whole string is an 11-character id. */
  predicate IsBareId(s: string)
  {
    |s| == 11 && forall i :: 0 <= i < |s| ==> IsIdChar(s[i])
  }

  /** A match of `m([^&\n?#]+)` can start at `p`: the marker occurs there and
      at least one capture character follows it. */
  predicate CaptureAt(s: string, p: nat, m: string)
  {
    OccursAt(s, p, m) && p + |m| < |s| && !IsStopChar(s[p + |m|])
  }

  /** No alternative of the pattern can start a match at `p`. */
  predicate NoCaptureAt(s: string, p: nat, markers: seq<string>)
  {
    forall j :: 0 <= j < |markers| ==> !CaptureAt(s, p, markers[j])
  }

  /** The first alternative, from index `k` on, that starts a match at `p`. */
  function FirstAlternative(s: string, p: nat, markers: seq<string>, k: nat): (r: Option<nat>)
    requires k <= |markers|
    ensures r.Some? ==> k <= r.value < |markers| && CaptureAt(s, p, markers[r.value])
    ensures r.Some? ==> forall j :: k <= j < r.value ==> !CaptureAt(s, p, markers[j])
    ensures r.None? ==> forall j :: k <= j < |markers| ==> !CaptureAt(s, p, markers[j])
    decreases |markers| - k
  {
    if k == |markers| then None
    else if CaptureAt(s, p, markers[k]) then Some(k)
    else FirstAlternative(s, p, markers, k + 1)
  }

  /** Where a regular-expression search finds its match: a position and the
      index of the alternative that matched there. */
  datatype MarkerMatch = MarkerMatch(pos: nat, alternative: nat)

  /** The leftmost position at or after `p` where a match starts. */
  function LeftmostMatch(s: string, markers: seq<string>, p: nat): (r: Option<MarkerMatch>)
    requires p <= |s|
    ensures r.Some? ==> p <= r.value.pos < |s| && r.value.alternative < |markers|
    ensures r.Some? ==> CaptureAt(s, r.value.pos, markers[r.value.alternative])
    ensures r.Some? ==> forall j :: 0 <= j < r.value.alternative ==> !CaptureAt(s, r.value.pos, markers[j])
    ensures r.Some? ==> forall q :: p <= q < r.value.pos ==> NoCaptureAt(s, q, markers)
    ensures r.None? ==> forall q :: p <= q < |s| ==> NoCaptureAt(s, q, markers)
    decreases |s| - p
  {
    if p == |s| then None
    else match FirstAlternative(s, p, markers, 0)
      case Some(k) => Some(MarkerMatch(p, k))
      case None => LeftmostMatch(s, markers, p + 1)
  }

  /** End of the run of non-stop characters that starts at `i`. */
  function RunEnd(s: string, i: nat): (e: nat)
    requires i <= |s|
    ensures i <= e <= |s|
    ensures forall j :: i <= j < e ==> !IsStopChar(s[j])
    ensures e == |s| || IsStopChar(s[e])
    decreases |s| - i
  {
    if i == |s| || IsStopChar(s[i]) then i else RunEnd(s, i + 1)
  }

  /** `url.match(pattern)?.[1]`: the captured id, if the pattern matches. A
      captured id is a non-empty piece of the input; a marker pattern matches
      exactly when some position can start a match, and the bare-id pattern
      returns the whole input exactly when it is an 11-character id. */
  function MatchPattern(url: string, pattern: Pattern): (r: Option<string>)
    ensures r.Some? ==> |r.value| > 0 && IsInfix(r.value, url)
    ensures pattern.AfterMarker? ==>
      (r.None? <==> forall q :: 0 <= q < |url| ==> NoCaptureAt(url, q, pattern.markers))
    ensures pattern.WholeId? ==> (r.Some? <==> IsBareId(url)) && (r.Some? ==> r.value == url)
  {
    match pattern
    case WholeId =>
      if IsBareId(url) then assert OccursAt(url, 0, url); Some(url) else None
    case AfterMarker(markers) =>
      match LeftmostMatch(url, markers, 0)
      case None => None
      case Some(m) =>
        var start := m.pos + |markers[m.alternative]|;
        var end := RunEnd(url, start);
        assert !NoCaptureAt(url, m.pos, markers);
        assert OccursAt(url, start, url[start..end]);
        Some(url[start..end])
  }

  /** The search reading of a marker pattern: the id is the maximal run of
      non-stop characters after the marker of the leftmost match, where at
      one position the alternatives are tried in order. */
  lemma AfterMarkerCapture(url: string, markers: seq<string>, p: nat, k: nat, e: nat)
    requires k < |markers| && CaptureAt(url, p, markers[k])
    requires forall j :: 0 <= j < k ==> !CaptureAt(url, p, markers[j])
    requires forall q :: 0 <= q < p ==> NoCaptureAt(url, q, markers)
    requires p + |markers[k]| <= e <= |url|
    requires forall j :: p + |markers[k]| <= j < e ==> !IsStopChar(url[j])
    requires e == |url| || IsStopChar(url[e])
    ensures MatchPattern(url, AfterMarker(markers)) == Some(url[p + |markers[k]|..e])
  {
    var m := LeftmostMatch(url, markers, 0);
    assert !NoCaptureAt(url, p, markers);
    assert m.Some?;
    assert m.value.pos == p by {
      assert !NoCaptureAt(url, m.value.pos, markers);
    }
    assert m.value.alternative == k;
  }

  /** The patterns tried in order; the first that matches decides. */
  function FirstMatch(url: string, patterns: seq<Pattern>): (r: Option<string>)
    ensures r.Some? ==> |r.value| > 0 && IsInfix(r.value, url)
  {
    if |patterns| == 0 then None
    else match MatchPattern(url, patterns[0])
      case Some(id) => Some(id)
      case None => FirstMatch(url, patterns[1..])
  }

  /** The result of the first pattern that matches is the result of the search. */
  lemma {:induction false} FirstMatchIsFirst(url: string, patterns: seq<Pattern>, k: nat)
    requires k < |patterns| && MatchPattern(url, patterns[k]).Some?
    requires forall j :: 0 <= j < k ==> MatchPattern(url, patterns[j]).None?
    ensures FirstMatch(url, patterns) == MatchPattern(url, patterns[k])
  {
    if k > 0 {
      FirstMatchIsFirst(url, patterns[1..], k - 1);
    }
  }

  /** The search fails exactly when no pattern matches. */
  lemma {:induction false} FirstMatchNone(url: string, patterns: seq<Pattern>)
    ensures FirstMatch(url, patterns).None? <==>
      forall j :: 0 <= j < |patterns| ==> MatchPattern(url, patterns[j]).None?
  {
    if |patterns| > 0 {
      FirstMatchNone(url, patterns[1..]);
      assert forall j :: 1 <= j < |patterns| ==> patterns[j] == patterns[1..][j - 1];
    }
  }

  /** `extractVideoId(url)`: a successful id is a non-empty piece of the
      input; otherwise the error is "Invalid YouTube URL". */
  function ExtractVideoId(url: string): (r: Result<string>)
    ensures r.Ok? ==> |r.value| > 0 && IsInfix(r.value, url)
    ensures r.Err? ==> r.message == InvalidUrl
  {
    match FirstMatch(url, Patterns)
    case Some(id) => Ok(id)
    case None => Err(InvalidUrl)
  }

  /** The three patterns are tried in the fixed order watch/short link, embed,
      bare id, and the first that matches determines the id; when none
      matches, extraction fails. */
  lemma ExtractionOrder(url: string)
    ensures MatchPattern(url, Patterns[0]).Some? ==>
      ExtractVideoId(url) == Ok(MatchPattern(url, Patterns[0]).value)
    ensures MatchPattern(url, Patterns[0]).None? && MatchPattern(url, Patterns[1]).Some? ==>
      ExtractVideoId(url) == Ok(MatchPattern(url, Patterns[1]).value)
    ensures MatchPattern(url, Patterns[0]).None? && MatchPattern(url, Patterns[1]).None? ==>
      ExtractVideoId(url) == if IsBareId(url) then Ok(url) else Err(InvalidUrl)
  {
    if MatchPattern(url, Patterns[0]).Some? {
      FirstMatchIsFirst(url, Patterns, 0);
    } else if MatchPattern(url, Patterns[1]).Some? {
      FirstMatchIsFirst(url, Patterns, 1);
    } else if IsBareId(url) {
      FirstMatchIsFirst(url, Patterns, 2);
    } else {
      FirstMatchNone(url, Patterns);
    }
  }

  /** Each marker contains a '.', which no id character is. */
  lemma MarkerNeedsDot(s: string, p: nat, m: string)
    requires m == WatchMarker || m == ShortLinkMarker || m == EmbedMarker
    requires OccursAt(s, p, m)
    ensures exists i :: p <= i < p + |m| && s[i] == '.'
  {
    var d := if m == ShortLinkMarker then 5 else 7;
    assert m[d] == '.';
    assert s[p..p + |m|][d] == s[p + d];
  }

  /** No marker can start a match at `q` when the capture characters of every
      marker occurrence there would lie in a stretch without '.'. */
  lemma NoCaptureWithoutDot(s: string, q: nat, markers: seq<string>, from: nat)
    requires forall j :: 0 <= j < |markers| ==>
      markers[j] == WatchMarker || markers[j] == ShortLinkMarker || markers[j] == EmbedMarker
    requires from <= q
    requires forall i :: from <= i < |s| ==> s[i] != '.'
    ensures NoCaptureAt(s, q, markers)
  {
    forall j | 0 <= j < |markers| ensures !CaptureAt(s, q, markers[j]) {
      if OccursAt(s, q, markers[j]) {
        MarkerNeedsDot(s, q, markers[j]);
      }
    }
  }

  /** A string that is itself an 11-character id is returned unchanged. */
  lemma {:induction false} BareIdUnchanged(url: string)
    requires IsBareId(url)
    ensures ExtractVideoId(url) == Ok(url)
  {
    assert forall i :: 0 <= i < |url| ==> url[i] != '.' by {
      forall i | 0 <= i < |url| ensures url[i] != '.' { assert IsIdChar(url[i]); }
    }
    forall q | 0 <= q < |url| ensures NoCaptureAt(url, q, Patterns[0].markers) {
      NoCaptureWithoutDot(url, q, Patterns[0].markers, 0);
    }
    forall q | 0 <= q < |url| ensures NoCaptureAt(url, q, Patterns[1].markers) {
      NoCaptureWithoutDot(url, q, Patterns[1].markers, 0);
    }
    ExtractionOrder(url);
  }

  /** Every marker starts with 'y', so none can start a match where there is no 'y'. */
  lemma NoCaptureWithoutY(s: string, q: nat, markers: seq<string>)
    requires forall j :: 0 <= j < |markers| ==>
      markers[j] == WatchMarker || markers[j] == ShortLinkMarker || markers[j] == EmbedMarker
    requires q < |s| ==> s[q] != 'y'
    ensures NoCaptureAt(s, q, markers)
  {
    forall j | 0 <= j < |markers| ensures !CaptureAt(s, q, markers[j]) {
      assert markers[j][0] == 'y';
      OccursAtIndex(s, q, markers[j], 0);
    }
  }

  /** Past its first character, an occurrence of a marker without a further
      'y' cannot start a match. */
  lemma NoCaptureInsideMarker(s: string, p: nat, m: string, markers: seq<string>)
    requires forall j :: 0 <= j < |markers| ==>
      markers[j] == WatchMarker || markers[j] == ShortLinkMarker || markers[j] == EmbedMarker
    requires p + |m| <= |s| && s[p..p + |m|] == m && |m| > 0 && 'y' !in m[1..]
    ensures forall q :: p < q < p + |m| ==> NoCaptureAt(s, q, markers)
  {
    forall q | p < q < p + |m| ensures NoCaptureAt(s, q, markers) {
      assert s[q] == s[p..p + |m|][q - p];
      assert m[q - p] == m[1..][q - p - 1];
      NoCaptureWithoutY(s, q, markers);
    }
  }

  /** After a prefix, an id contributes neither stop characters nor dots. */
  lemma IdTail(url: string, prefix: string, id: string)
    requires IsBareId(id) && url == prefix + id
    ensures forall j :: |prefix| <= j < |url| ==> !IsStopChar(url[j]) && url[j] != '.'
  {
    forall j | |prefix| <= j < |url| ensures !IsStopChar(url[j]) && url[j] != '.' {
      assert url[j] == id[j - |prefix|];
      assert IsIdChar(id[j - |prefix|]);
    }
  }

  /** Positions inside a prefix that holds no 'y' cannot start a match. */
  lemma NoCaptureInPrefix(url: string, prefix: string, markers: seq<string>)
    requires forall j :: 0 <= j < |markers| ==>
      markers[j] == WatchMarker || markers[j] == ShortLinkMarker || markers[j] == EmbedMarker
    requires 'y' !in prefix && |prefix| <= |url| && url[..|prefix|] == prefix
    ensures forall q :: 0 <= q < |prefix| ==> NoCaptureAt(url, q, markers)
  {
    forall q | 0 <= q < |prefix| ensures NoCaptureAt(url, q, markers) {
      assert url[q] == prefix[q] && prefix[q] in prefix;
      NoCaptureWithoutY(url, q, markers);
    }
  }

  const Https: string := "https://"
  const HttpsWww: string := "https://www."

  /** `https://www.youtube.com/watch?v=ID` gives `ID`. */
  lemma {:induction false} WatchUrlGivesId(id: string)
    requires IsBareId(id)
    ensures ExtractVideoId(HttpsWww + WatchMarker + id) == Ok(id)
  {
    var url := HttpsWww + WatchMarker + id;
    var p := |HttpsWww|;
    var start := p + |WatchMarker|;
    assert url[p..start] == WatchMarker;
    assert url[..p] == HttpsWww;
    IdTail(url, HttpsWww + WatchMarker, id);
    NoCaptureInPrefix(url, HttpsWww, Patterns[0].markers);
    var ms := [WatchMarker, ShortLinkMarker];
    assert Patterns[0] == AfterMarker(ms);
    AfterMarkerCapture(url, ms, p, 0, |url|);
    assert ms[0] == WatchMarker;
    assert url[start..|url|] == id;
    ExtractionOrder(url);
  }

  /** `https://youtu.be/ID` gives `ID`. */
  lemma {:induction false} ShortLinkGivesId(id: string)
    requires IsBareId(id)
    ensures ExtractVideoId(Https + ShortLinkMarker + id) == Ok(id)
  {
    var url := Https + ShortLinkMarker + id;
    var p := |Https|;
    var start := p + |ShortLinkMarker|;
    assert url[p..start] == ShortLinkMarker;
    assert url[..p] == Https;
    IdTail(url, Https + ShortLinkMarker, id);
    NoCaptureInPrefix(url, Https, Patterns[0].markers);
    assert !OccursAt(url, p, WatchMarker) by {
      assert url[p + 5] == '.' && WatchMarker[5] == 'b';
    }
    var ms := [WatchMarker, ShortLinkMarker];
    assert Patterns[0] == AfterMarker(ms);
    AfterMarkerCapture(url, ms, p, 1, |url|);
    assert ms[1] == ShortLinkMarker;
    assert url[start..|url|] == id;
    ExtractionOrder(url);
  }

  /** The watch/short-link pattern finds nothing in an embed URL. */
  lemma EmbedUrlMissesFirstPattern(id: string)
    requires IsBareId(id)
    ensures MatchPattern(HttpsWww + EmbedMarker + id, Patterns[0]).None?
  {
    var url := HttpsWww + EmbedMarker + id;
    var p := |HttpsWww|;
    var start := p + |EmbedMarker|;
    assert url[p..start] == EmbedMarker;
    assert url[..p] == HttpsWww;
    IdTail(url, HttpsWww + EmbedMarker, id);
    var first := [WatchMarker, ShortLinkMarker];
    assert Patterns[0] == AfterMarker(first);
    NoCaptureInPrefix(url, HttpsWww, first);
    assert 'y' !in EmbedMarker[1..];
    NoCaptureInsideMarker(url, p, EmbedMarker, first);
    EmbedIsNoOtherMarker(url, p);
    forall q | start <= q < |url| ensures NoCaptureAt(url, q, first) {
      NoCaptureWithoutDot(url, q, first, start);
    }
    assert forall q :: 0 <= q < |url| ==> NoCaptureAt(url, q, first) by {
      forall q | 0 <= q < |url| ensures NoCaptureAt(url, q, first) {
        if q < p {
          assert q < |HttpsWww|;
        }
      }
    }
  }

  /** Where the embed marker occurs, neither the watch nor the short-link marker does. */
  lemma EmbedIsNoOtherMarker(s: string, p: nat)
    requires p + |EmbedMarker| <= |s| && s[p..p + |EmbedMarker|] == EmbedMarker
    ensures NoCaptureAt(s, p, [WatchMarker, ShortLinkMarker])
  {
    assert s[p + 12] == s[p..p + |EmbedMarker|][12] == 'e';
    assert s[p + 5] == s[p..p + |EmbedMarker|][5] == 'b';
    OccursAtIndex(s, p, WatchMarker, 12);
    OccursAtIndex(s, p, ShortLinkMarker, 5);
    assert WatchMarker[12] == 'w' && ShortLinkMarker[5] == '.';
    var ms := [WatchMarker, ShortLinkMarker];
    assert ms[0] == WatchMarker && ms[1] == ShortLinkMarker;
  }

  /** `https://www.youtube.com/embed/ID` gives `ID`. */
  lemma {:induction false} EmbedUrlGivesId(id: string)
    requires IsBareId(id)
    ensures ExtractVideoId(HttpsWww + EmbedMarker + id) == Ok(id)
  {
    var url := HttpsWww + EmbedMarker + id;
    var p := |HttpsWww|;
    var start := p + |EmbedMarker|;
    assert url[p..start] == EmbedMarker;
    assert url[..p] == HttpsWww;
    IdTail(url, HttpsWww + EmbedMarker, id);
    EmbedUrlMissesFirstPattern(id);
    // the second pattern matches right after the scheme and host prefix
    var second := [EmbedMarker];
    assert Patterns[1] == AfterMarker(second);
    NoCaptureInPrefix(url, HttpsWww, second);
    AfterMarkerCapture(url, second, p, 0, |url|);
    assert url[start..|url|] == id;
    ExtractionOrder(url);
  }

  // ---------------------------------------------------------------- captions

  /** One timed text segment returned by the captions API. */
  datatype Segment = Segment(text: string)

  /** What one call to the captions API does: return segments or throw. */
  datatype FetchResult = Segments(segments: seq<Segment>) | Threw(message: string)

  /** The calls made, in order, and the text or the error `getTranscript` ends with. */
  datatype CaptionRun = CaptionRun(steps: seq<Step>, result: Result<string>)

  const EnglishRequest: Option<string> := Some("en")
  const NoSegments: string := "No transcript segments found"
  const NoTranscriptPrefix: string := "No transcript available: "

  /** `segments.map(segment => segment.text)` */
  function SegmentTexts(segments: seq<Segment>): (texts: seq<string>)
    ensures |texts| == |segments|
    ensures forall i :: 0 <= i < |segments| ==> texts[i] == segments[i].text
  {
    seq(|segments|, i requires 0 <= i < |segments| => segments[i].text)
  }

  /** The segment texts in order, separated by single spaces. */
  function JoinSegments(segments: seq<Segment>): (text: string)
    ensures |segments| == 0 ==> text == ""
    ensures |segments| > 0 ==> segments[0].text <= text
    ensures |segments| > 0 ==> var last := segments[|segments| - 1].text;
      |last| <= |text| && text[|text| - |last|..] == last
  {
    var texts := SegmentTexts(segments);
    if |segments| > 0 then JoinEnds(texts, ' '); Join(texts, ' ') else Join(texts, ' ')
  }

  /** The joined text splits back on spaces into the segment texts, in
      order, when no segment text holds a space of its own. */
  lemma JoinSegmentsSplits(segments: seq<Segment>)
    requires |segments| > 0
    requires forall i :: 0 <= i < |segments| ==> ' ' !in segments[i].text
    ensures Split(JoinSegments(segments), ' ') == SegmentTexts(segments)
  {
    SplitJoin(SegmentTexts(segments), ' ');
  }

  /** An attempt that yields text: it returned at least one segment. */
  predicate Usable(f: FetchResult)
  {
    f.Segments? && |f.segments| > 0
  }

  /** The message of the error the English attempt raised: its own, or the
      one raised for an empty segment list. */
  function FirstAttemptError(english: FetchResult): string
  {
    match english
    case Threw(m) => m
    case Segments(_) => NoSegments
  }

  /** `getTranscript(url)`, given what the English request and the request
      without a language would return. An invalid URL fails before any
      request. Otherwise English is asked first; exactly when it yields no
      text, one request without a language follows. The text is the segment
      texts of the first attempt that yields any, joined by single spaces;
      when neither does, the error carries the first attempt's message. */
  function GetTranscript(url: string, english: FetchResult, anyLanguage: FetchResult): (r: CaptionRun)
    ensures ExtractVideoId(url).Err? ==> r == CaptionRun([], Err(InvalidUrl))
    ensures ExtractVideoId(url).Ok? ==>
      var id := ExtractVideoId(url).value;
      1 <= |r.steps| <= 2 && r.steps[0] == CaptionsRequest(id, EnglishRequest)
      && (|r.steps| == 2 <==> !Usable(english))
      && (|r.steps| == 2 ==> r.steps[1] == CaptionsRequest(id, None))
    ensures r.result.Ok? <==> ExtractVideoId(url).Ok? && (Usable(english) || Usable(anyLanguage))
    ensures r.result.Ok? && Usable(english) ==> r.result.value == JoinSegments(english.segments)
    ensures r.result.Ok? && !Usable(english) ==> r.result.value == JoinSegments(anyLanguage.segments)
    ensures r.result.Err? && ExtractVideoId(url).Ok? ==>
      r.result.message == NoTranscriptPrefix + FirstAttemptError(english)
  {
    match ExtractVideoId(url)
    case Err(e) => CaptionRun([], Err(e))
    case Ok(id) =>
      var first := CaptionsRequest(id, EnglishRequest);
      if Usable(english) then CaptionRun([first], Ok(JoinSegments(english.segments)))
      else
        var steps := [first, CaptionsRequest(id, None)];
        if Usable(anyLanguage) then CaptionRun(steps, Ok(JoinSegments(anyLanguage.segments)))
        else CaptionRun(steps, Err(NoTranscriptPrefix + FirstAttemptError(english)))
  }
}
