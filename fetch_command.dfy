/** The `fetch` command: resolve the id, get the metadata and the caption
    text, fall back to downloading and generating when the text is empty,
    and optionally save the transcript as text, JSON or Markdown. The
    metadata and caption-text lookups, the downloader and the generation are
    outside the model; their outcomes are given as values. */
module FetchCmd {
  import opened Types
  import opened Text
  import opened TranscriptService
  import opened GeminiService
  import opened Config

  // ---------------------------------------------------------------- durations

  datatype Hms = Hms(hours: nat, minutes: nat, seconds: nat)

  /** Whole hours, minutes and seconds of a duration: they add back up to
      it, and minutes and seconds are each below 60. */
  function HoursMinutesSeconds(total: nat): (t: Hms)
    ensures t.hours * 3600 + t.minutes * 60 + t.seconds == total
    ensures t.minutes < 60 && t.seconds < 60
  {
    Hms(total / 3600, (total % 3600) / 60, total % 60)
  }

  /** `formatDuration(seconds)`: `"<h>h <m>m <s>s"`. It is one line, and
      reading it back gives the whole hours, the minutes and the seconds of
      the duration. */
  function FormatDuration(total: nat): (r: string)
    ensures ParseDuration(r) == Some(HoursMinutesSeconds(total))
    ensures '\n' !in r
  {
    var t := HoursMinutesSeconds(total);
    var h, m, s := NatToString(t.hours), NatToString(t.minutes), NatToString(t.seconds);
    ParseRendered(t.hours, t.minutes, t.seconds);
    assert forall i :: 0 <= i < |h| ==> IsDigit(h[i]);
    assert forall i :: 0 <= i < |m| ==> IsDigit(m[i]);
    assert forall i :: 0 <= i < |s| ==> IsDigit(s[i]);
    h + "h " + m + "m " + s + "s"
  }

  /** A number in canonical decimal followed by a unit letter, such as "12m". */
  function ParseUnit(part: string, unit: char): Option<nat>
  {
    if |part| >= 2 && part[|part| - 1] == unit && IsCanonicalDecimal(part[..|part| - 1])
    then Some(DecimalValue(part[..|part| - 1]))
    else None
  }

  /** Reads a rendered duration back into its hours, minutes and seconds. */
  function ParseDuration(s: string): Option<Hms>
  {
    var parts := Split(s, ' ');
    if |parts| != 3 then None
    else match (ParseUnit(parts[0], 'h'), ParseUnit(parts[1], 'm'), ParseUnit(parts[2], 's'))
      case (Some(h), Some(m), Some(sec)) => Some(Hms(h, m, sec))
      case _ => None
  }

  /** A rendered number with its unit letter reads back as the number. */
  lemma UnitRoundTrip(n: nat, unit: char)
    requires !IsDigit(unit)
    ensures ParseUnit(NatToString(n) + [unit], unit) == Some(n)
    ensures ' ' !in NatToString(n) + [unit] || unit == ' '
  {
    var part := NatToString(n) + [unit];
    assert part[..|part| - 1] == NatToString(n);
    DecimalRoundTrip(n);
    assert forall i :: 0 <= i < |part| - 1 ==> IsDigit(part[i]);
  }

  /** The only part that reads as `n` with a unit letter is `n` rendered, then the letter. */
  lemma UnitOnlyRendering(part: string, unit: char, n: nat)
    requires ParseUnit(part, unit) == Some(n)
    ensures part == NatToString(n) + [unit]
  {
    var digits := part[..|part| - 1];
    CanonicalDecimalRoundTrip(digits);
    assert part == digits + [unit];
  }

  /** `ParseDuration` reads exactly one string as given hours, minutes and
      seconds: their rendering. */
  lemma ParseDurationOnlyRendering(s: string, t: Hms)
    requires ParseDuration(s) == Some(t)
    ensures s == NatToString(t.hours) + "h " + NatToString(t.minutes) + "m " + NatToString(t.seconds) + "s"
  {
    var parts := Split(s, ' ');
    UnitOnlyRendering(parts[0], 'h', t.hours);
    UnitOnlyRendering(parts[1], 'm', t.minutes);
    UnitOnlyRendering(parts[2], 's', t.seconds);
    assert parts == [parts[0], parts[1], parts[2]];
    JoinSplit(s, ' ');
    JoinThree(NatToString(t.hours), NatToString(t.minutes), NatToString(t.seconds));
  }

  /** The formatted duration is the one string that reads back as the whole
      hours, minutes below 60 and seconds below 60 of the duration. */
  lemma FormatDurationUnique(total: nat, r: string)
    requires ParseDuration(r) == Some(HoursMinutesSeconds(total))
    ensures r == FormatDuration(total)
  {
    var t := HoursMinutesSeconds(total);
    ParseDurationOnlyRendering(r, t);
  }

  /** The three units of a duration, joined by spaces, are its rendering. */
  lemma JoinThree(h: string, m: string, s: string)
    ensures Join([h + "h", m + "m", s + "s"], ' ') == h + "h " + m + "m " + s + "s"
  {
    var a, b, c := h + "h", m + "m", s + "s";
    assert [a, b, c][1..] == [b, c] && [b, c][1..] == [c];
    assert Join([c], ' ') == c;
    assert Join([b, c], ' ') == b + [' '] + c;
    assert Join([a, b, c], ' ') == a + [' '] + (b + [' '] + c);
    assert "h " == "h" + [' '] && "m " == "m" + [' '];
  }

  /** A rendering of whole hours, minutes and seconds reads back as those three numbers. */
  lemma {:induction false} ParseRendered(hours: nat, minutes: nat, seconds: nat)
    ensures ParseDuration(NatToString(hours) + "h " + NatToString(minutes) + "m " + NatToString(seconds) + "s")
         == Some(Hms(hours, minutes, seconds))
  {
    var h, m, s := NatToString(hours) + "h", NatToString(minutes) + "m", NatToString(seconds) + "s";
    UnitRoundTrip(hours, 'h');
    UnitRoundTrip(minutes, 'm');
    UnitRoundTrip(seconds, 's');
    var parts := [h, m, s];
    JoinThree(NatToString(hours), NatToString(minutes), NatToString(seconds));
    SplitJoin(parts, ' ');
  }

  // ---------------------------------------------------------------- file content

  /** The Markdown rendering of a transcript: it opens with the title as a
      heading and closes with the transcript text. */
  function Markdown(t: Transcript): (r: string)
    ensures "# " + t.title <= r
    ensures |t.text| <= |r| && r[|r| - |t.text|..] == t.text
  {
    "# " + t.title + "\n\n\U{23F1}\U{FE0F} Duration: " + FormatDuration(t.duration)
    + "\n\U{1F4CC} Source: " + SourceName(t.source) + "\n\n" + t.text
  }

  /** Splitting after a separator-free first line. */
  lemma SplitFirstLine(a: string, sep: char, b: string)
    requires sep !in a
    ensures Split(a + [sep] + b, sep) == [a] + Split(b, sep)
  {
    FirstIndexOf(a, sep, b);
    var s := a + [sep] + b;
    assert s[..|a|] == a && s[|a| + 1..] == b;
  }

  /** The Markdown text, regrouped line by line. */
  lemma MarkdownShape(title: string, duration: string, source: string, text: string)
    ensures "# " + title + "\n\n\U{23F1}\U{FE0F} Duration: " + duration + "\n\U{1F4CC} Source: " + source + "\n\n" + text
         == ("# " + title) + ['\n'] + ("" + ['\n'] + (("\U{23F1}\U{FE0F} Duration: " + duration) + ['\n']
            + (("\U{1F4CC} Source: " + source) + ['\n'] + ("" + ['\n'] + text))))
  {
    var durationLabel, sourceLabel := "\U{23F1}\U{FE0F} Duration: ", "\U{1F4CC} Source: ";
    assert "\n\n\U{23F1}\U{FE0F} Duration: " == ['\n', '\n'] + durationLabel;
    assert "\n\U{1F4CC} Source: " == ['\n'] + sourceLabel;
    assert "\n\n" == ['\n', '\n'];
    Regroup("# " + title, durationLabel, duration, sourceLabel, source, text);
  }

  /** The same concatenation, grouped line by line. */
  lemma Regroup(heading: string, durationLabel: string, duration: string,
                sourceLabel: string, source: string, text: string)
    ensures heading + (['\n', '\n'] + durationLabel) + duration + (['\n'] + sourceLabel) + source + ['\n', '\n'] + text
         == heading + ['\n'] + ("" + ['\n'] + ((durationLabel + duration) + ['\n']
            + ((sourceLabel + source) + ['\n'] + ("" + ['\n'] + text))))
  {
    assert ['\n', '\n'] == ['\n'] + ['\n'];
    assert "" + ['\n'] == ['\n'];
  }

  /** Lines free of the separator, followed by a text, split back into those
      lines and the text's own pieces. */
  lemma {:induction false} SplitAfterLines(lines: seq<string>, text: string, sep: char)
    requires forall i :: 0 <= i < |lines| ==> sep !in lines[i]
    ensures Split(Join(lines + [text], sep), sep) == lines + Split(text, sep)
  {
    if |lines| > 0 {
      var first, others := lines[0], lines[1..];
      forall i | 0 <= i < |others| ensures sep !in others[i] {
        assert others[i] == lines[i + 1];
      }
      SplitAfterLines(others, text, sep);
      SplitAfterFirstLine(first, others + [text], sep);
      FirstThenRest(lines, [text]);
      FirstThenRest(lines, Split(text, sep));
    } else {
      assert lines + [text] == [text];
    }
  }

  /** A non-empty sequence followed by more is its first element followed by the rest. */
  lemma FirstThenRest<T>(xs: seq<T>, more: seq<T>)
    requires |xs| > 0
    ensures xs + more == [xs[0]] + (xs[1..] + more)
  {
    assert xs == [xs[0]] + xs[1..];
  }

  /** A separator-free first line in front of more pieces splits off as one piece. */
  lemma SplitAfterFirstLine(first: string, rest: seq<string>, sep: char)
    requires sep !in first && |rest| > 0
    ensures Split(Join([first] + rest, sep), sep) == [first] + Split(Join(rest, sep), sep)
  {
    JoinFirst(first, rest, sep);
    SplitFirstLine(first, sep, Join(rest, sep));
  }

  /** The Markdown file is a title heading, a blank line, the duration line,
      the source line, a blank line and then the lines of the text. */
  lemma MarkdownLines(t: Transcript)
    requires '\n' !in t.title
    ensures Split(Markdown(t), '\n') ==
      ["# " + t.title, "", "\U{23F1}\U{FE0F} Duration: " + FormatDuration(t.duration),
       "\U{1F4CC} Source: " + SourceName(t.source), ""] + Split(t.text, '\n')
  {
    var heading := "# " + t.title;
    var duration := "\U{23F1}\U{FE0F} Duration: " + FormatDuration(t.duration);
    var source := "\U{1F4CC} Source: " + SourceName(t.source);
    HeaderLinesAreLines(t.title, FormatDuration(t.duration), t.source);
    MarkdownShape(t.title, FormatDuration(t.duration), SourceName(t.source), t.text);
    JoinFiveThen(heading, "", duration, source, "", t.text, '\n');
    SplitAfterLines([heading, "", duration, source, ""], t.text, '\n');
  }

  /** None of the header lines of the Markdown file holds a line break. */
  lemma HeaderLinesAreLines(title: string, duration: string, source: TranscriptSource)
    requires '\n' !in title && '\n' !in duration
    ensures var lines := ["# " + title, "", "\U{23F1}\U{FE0F} Duration: " + duration,
                          "\U{1F4CC} Source: " + SourceName(source), ""];
      forall i :: 0 <= i < |lines| ==> '\n' !in lines[i]
  {
  }

  /** Five pieces and a last one, joined: each piece followed by a separator, then the last. */
  lemma JoinFiveThen(a: string, b: string, c: string, d: string, e: string, last: string, sep: char)
    ensures Join([a, b, c, d, e] + [last], sep)
         == a + [sep] + (b + [sep] + (c + [sep] + (d + [sep] + (e + [sep] + last))))
  {
    assert [e, last] == [e] + [last];
    JoinFirst(e, [last], sep);
    assert [d, e, last] == [d] + [e, last];
    JoinFirst(d, [e, last], sep);
    assert [c, d, e, last] == [c] + [d, e, last];
    JoinFirst(c, [d, e, last], sep);
    assert [b, c, d, e, last] == [b] + [c, d, e, last];
    JoinFirst(b, [c, d, e, last], sep);
    assert [a, b, c, d, e] + [last] == [a] + [b, c, d, e, last];
    JoinFirst(a, [b, c, d, e, last], sep);
  }

  // ---------------------------------------------------------------- the command

  const NoTranscriptHint: string := "No transcript available. Use --generate to create with Gemini."
  const MissingKeyHint: string := "Gemini API key not found. Set GEMINI_API_KEY or use 'config --set-key'"

  /** How the command ends: with a transcript (and perhaps a saved file), or
      by exiting with status 1 after reporting a message. */
  datatype CommandOutcome =
    | Completed(steps: seq<Step>, transcript: Transcript, saved: Option<SavedFile>)
    | Exited(steps: seq<Step>, message: string)

  /** `fetchCommand(url, options)`, given the `GEMINI_API_KEY` environment
      variable, the stored configuration and the outcomes of the outside
      calls: the metadata lookup, the caption-text lookup, the downloader and
      the generation. */
  method FetchCommand(url: string, options: TranscriptOptions, config: AppConfig, env: Option<string>,
                      metadata: Result<VideoMetadata>, captionText: Result<string>,
                      downloader: DownloaderRun, generation: Result<string>)
    returns (outcome: CommandOutcome)
    // an invalid URL stops the command before any call
    ensures ExtractVideoId(url).Err? ==> outcome == Exited([], InvalidUrl)
    // the metadata, then the caption text, are asked first; an error of either ends the command
    ensures ExtractVideoId(url).Ok? ==>
      var id := ExtractVideoId(url).value;
      var asked := [MetadataRequest(id), CaptionTextRequest(id)];
      (metadata.Err? ==> outcome == Exited(asked[..1], metadata.message))
      && (metadata.Ok? ==> |outcome.steps| >= 2 && outcome.steps[..2] == asked)
      && (metadata.Ok? && captionText.Err? ==> outcome == Exited(asked, captionText.message))
      // empty text without generation: exit before any download
      && (metadata.Ok? && captionText == Ok("") && !options.generateIfMissing ==>
            outcome == Exited(asked, NoTranscriptHint))
      // empty text, generation on, no key anywhere: exit before any download
      && (metadata.Ok? && captionText == Ok("") && options.generateIfMissing
          && CredentialFor(options.geminiApiKey, config, env) == "" ==>
            outcome == Exited(asked, MissingKeyHint))
      // non-empty caption text: the command completes with no further call
      && (metadata.Ok? && captionText.Ok? && captionText.value != "" ==>
            outcome.Completed? && outcome.steps == asked)
      // empty text, generation on and a key: the download, then the generation;
      // the error of either ends the command, otherwise it completes
      && (metadata.Ok? && captionText == Ok("") && options.generateIfMissing
          && CredentialFor(options.geminiApiKey, config, env) != "" ==>
            var key := CredentialFor(options.geminiApiKey, config, env);
            var downloaded := asked + [AudioDownload(id)];
            var generated := downloaded + [TranscriptGeneration(TempAudioPath(id), key)];
            (DownloadAudio(id, downloader).Err? ==>
               outcome == Exited(downloaded, DownloadAudio(id, downloader).message))
            && (DownloadAudio(id, downloader).Ok? && generation.Err? ==>
                  outcome == Exited(generated, generation.message))
            && (DownloadAudio(id, downloader).Ok? && generation.Ok? ==>
                  outcome.Completed? && outcome.steps == generated))
    // a download happens only when the text is empty, generation is on and there is a key
    ensures forall v :: AudioDownload(v) in outcome.steps ==>
      captionText == Ok("") && options.generateIfMissing && CredentialFor(options.geminiApiKey, config, env) != ""
    // the transcript: id, metadata and url as found; the text from captions unless they were empty
    ensures outcome.Completed? ==>
      ExtractVideoId(url).Ok? && metadata.Ok? && captionText.Ok?
      && outcome.transcript.videoId == ExtractVideoId(url).value
      && outcome.transcript.title == metadata.value.title
      && outcome.transcript.duration == metadata.value.duration
      && outcome.transcript.url == Some(url)
      && (captionText.value != "" ==>
            outcome.transcript.text == captionText.value && outcome.transcript.source == YouTube
            && |outcome.steps| == 2)
      && (captionText.value == "" ==>
            generation.Ok? && outcome.transcript.text == generation.value
            && outcome.transcript.source == Gemini25Flash)
    // the file: written exactly when an output path is given, in the chosen format
    ensures outcome.Completed? ==> (outcome.saved.Some? <==> Truthy(options.output))
    ensures outcome.Completed? && outcome.saved.Some? ==>
      var t := outcome.transcript;
      outcome.saved.value.path == options.output.value
      && (options.format == Some("json") ==> outcome.saved.value.content == TranscriptJson(t))
      && (options.format == Some("md") ==> outcome.saved.value.content == PlainText(Markdown(t)))
      && (options.format != Some("json") && options.format != Some("md") ==>
            outcome.saved.value.content == PlainText(t.text))
  {
    var found := ExtractVideoId(url);
    if found.Err? {
      return Exited([], found.message);
    }
    var videoId := found.value;
    var steps := [MetadataRequest(videoId)];
    if metadata.Err? {
      return Exited(steps, metadata.message);
    }
    steps := steps + [CaptionTextRequest(videoId)];
    if captionText.Err? {
      return Exited(steps, captionText.message);
    }
    var text := captionText.value;
    var source := YouTube;
    if text == "" {
      var more, generated := GenerateText(videoId, options, config, env, downloader, generation);
      steps := steps + more;
      if generated.Err? {
        return Exited(steps, generated.message);
      }
      text := generated.value;
      source := Gemini25Flash;
    }
    var transcript := Transcript(videoId, metadata.value.title, metadata.value.duration, text, source, Some(url));
    var saved := WriteOutput(transcript, options);
    outcome := Completed(steps, transcript, saved);
  }

  /** The branch of `fetchCommand` taken when the caption text is empty: stop
      with a hint unless generation is asked for, stop when no key is found,
      else download the audio and generate the text from it. `calls` are the
      outside calls made; an `Err` is the message the command exits with. */
  method GenerateText(videoId: string, options: TranscriptOptions, config: AppConfig, env: Option<string>,
                      downloader: DownloaderRun, generation: Result<string>)
    returns (calls: seq<Step>, text: Result<string>)
    ensures !options.generateIfMissing ==> calls == [] && text == Err(NoTranscriptHint)
    ensures options.generateIfMissing && CredentialFor(options.geminiApiKey, config, env) == "" ==>
      calls == [] && text == Err(MissingKeyHint)
    ensures options.generateIfMissing && CredentialFor(options.geminiApiKey, config, env) != "" ==>
      var key := CredentialFor(options.geminiApiKey, config, env);
      (DownloadAudio(videoId, downloader).Err? ==>
         calls == [AudioDownload(videoId)] && text == Err(DownloadAudio(videoId, downloader).message))
      && (DownloadAudio(videoId, downloader).Ok? ==>
            calls == [AudioDownload(videoId), TranscriptGeneration(TempAudioPath(videoId), key)]
            && text == generation)
  {
    if !options.generateIfMissing {
      return [], Err(NoTranscriptHint);
    }
    var apiKey := CredentialFor(options.geminiApiKey, config, env);
    if apiKey == "" {
      return [], Err(MissingKeyHint);
    }
    calls := [AudioDownload(videoId)];
    var audio := DownloadAudio(videoId, downloader);
    if audio.Err? {
      return calls, Err(audio.message);
    }
    calls := calls + [TranscriptGeneration(audio.value, apiKey)];
    text := generation;
  }

  /** The file `fetchCommand` writes: none without an output path; otherwise
      the transcript as JSON for `-f json`, as Markdown for `-f md`, and its
      plain text for any other format. */
  method WriteOutput(transcript: Transcript, options: TranscriptOptions) returns (saved: Option<SavedFile>)
    ensures saved.Some? <==> Truthy(options.output)
    ensures saved.Some? ==>
      saved.value.path == options.output.value
      && (options.format == Some("json") ==> saved.value.content == TranscriptJson(transcript))
      && (options.format == Some("md") ==> saved.value.content == PlainText(Markdown(transcript)))
      && (options.format != Some("json") && options.format != Some("md") ==>
            saved.value.content == PlainText(transcript.text))
  {
    saved := None;
    if Truthy(options.output) {
      var content := PlainText(transcript.text);
      if options.format == Some("json") {
        content := TranscriptJson(transcript);
      } else if options.format == Some("md") {
        content := PlainText(Markdown(transcript));
      }
      saved := Some(SavedFile(options.output.value, content));
    }
  }
}
