/** The `yt` command line entry point: dispatch on the first argument, the
    option scan, the captions-then-generation acquisition, the preview shown
    on the console and the optional output file. */
module Cli {
  import opened Types
  import opened TranscriptService
  import opened GeminiService
  import opened Config

  // ---------------------------------------------------------------- dispatch

  /** Which branch of the entry point runs. */
  datatype Command = ShowHelp | SaveApiKey(key: string) | ConfigUsage | FetchUrl(url: string)

  /** The branch chosen for the arguments: help for no arguments or a first
      `--help`/`-h`; for `config`, saving the key exactly when `--set-key`
      comes next and is followed by a non-empty key, usage otherwise; any
      other first argument is taken as the URL. */
  function Dispatch(args: seq<string>): (c: Command)
    ensures c.ShowHelp? <==> |args| == 0 || args[0] == "--help" || args[0] == "-h"
    ensures c.SaveApiKey? <==>
      |args| >= 3 && args[0] == "config" && args[1] == "--set-key" && args[2] != ""
    ensures c.SaveApiKey? ==> c.key == args[2]
    ensures c.ConfigUsage? ==> args[0] == "config"
    ensures c.FetchUrl? <==> |args| > 0 && args[0] !in {"--help", "-h", "config"}
    ensures c.FetchUrl? ==> c.url == args[0]
  {
    if |args| == 0 || args[0] == "--help" || args[0] == "-h" then ShowHelp
    else if args[0] == "config" then
      if |args| > 2 && args[1] == "--set-key" && args[2] != "" then SaveApiKey(args[2])
      else ConfigUsage
    else FetchUrl(args[0])
  }

  // ---------------------------------------------------------------- option scan

  /** The options a URL run is configured with. */
  datatype CliOptions = CliOptions(
    output: Option<string>,
    format: Option<string>,
    generate: bool,
    apiKey: Option<string>)

  const DefaultOptions: CliOptions := CliOptions(None, Some("txt"), false, None)

  /** The options that take a value. */
  datatype Field = Output | Format | ApiKey

  /** The field a token sets when it is a value flag. */
  function ValueFlag(token: string): Option<Field>
  {
    if token == "-o" || token == "--output" then Some(Output)
    else if token == "-f" || token == "--format" then Some(Format)
    else if token == "--api-key" then Some(ApiKey)
    else None
  }

  predicate IsGenerateFlag(token: string)
  {
    token == "-g" || token == "--generate"
  }

  /** What the scan does at one position: set a field to the next token
      (`undefined` when there is none), switch generation on, or nothing. */
  datatype OptionEvent = SetValue(field: Field, value: Option<string>) | SetGenerate | Ignore(token: string)

  /** The events the scan meets, reading the tokens from the left. A value
      flag takes the token after it, whatever that token looks like. */
  function Events(tokens: seq<string>): (events: seq<OptionEvent>)
    ensures |events| <= |tokens|
    ensures |tokens| > 0 ==> |events| > 0
    decreases |tokens|
  {
    if |tokens| == 0 then []
    else match ValueFlag(tokens[0])
      case Some(f) =>
        if |tokens| == 1 then [SetValue(f, None)]
        else [SetValue(f, Some(tokens[1]))] + Events(tokens[2..])
      case None =>
        [if IsGenerateFlag(tokens[0]) then SetGenerate else Ignore(tokens[0])] + Events(tokens[1..])
  }

  function Apply(o: CliOptions, e: OptionEvent): CliOptions
  {
    match e
    case SetValue(Output, v) => o.(output := v)
    case SetValue(Format, v) => o.(format := v)
    case SetValue(ApiKey, v) => o.(apiKey := v)
    case SetGenerate => o.(generate := true)
    case Ignore(_) => o
  }

  /** The options after applying the events in order. */
  function ApplyAll(o: CliOptions, events: seq<OptionEvent>): CliOptions
    decreases |events|
  {
    if |events| == 0 then o else ApplyAll(Apply(o, events[0]), events[1..])
  }

  function Get(o: CliOptions, f: Field): Option<string>
  {
    match f
    case Output => o.output
    case Format => o.format
    case ApiKey => o.apiKey
  }

  /** The options for the arguments: the defaults, then every event met in
      the tokens after the first, which is the URL. */
  function ParseOptions(args: seq<string>): (options: CliOptions)
    ensures |args| <= 1 ==> options == DefaultOptions
  {
    ApplyAll(DefaultOptions, Events(if |args| > 0 then args[1..] else []))
  }

  /** The tokens from index `i` on; none once `i` has passed the end. */
  function From(args: seq<string>, i: nat): seq<string>
  {
    if i <= |args| then args[i..] else []
  }

  /** `args[i]`, `undefined` past the end. */
  function At(args: seq<string>, i: nat): Option<string>
  {
    if i < |args| then Some(args[i]) else None
  }

  /** The scan loop of the entry point. */
  method ScanOptions(args: seq<string>) returns (options: CliOptions)
    ensures options == ParseOptions(args)
  {
    options := DefaultOptions;
    var i := 1;
    while i < |args|
      invariant 1 <= i <= |args| + 1
      invariant ApplyAll(options, Events(From(args, i))) == ParseOptions(args)
      decreases |args| + 1 - i
    {
      assert From(args, i)[1..] == From(args, i + 1);
      assert |args| > i + 1 ==> From(args, i)[2..] == From(args, i + 2);
      if args[i] == "-o" || args[i] == "--output" {
        i := i + 1;
        options := options.(output := At(args, i));
      } else if args[i] == "-f" || args[i] == "--format" {
        i := i + 1;
        options := options.(format := At(args, i));
      } else if args[i] == "-g" || args[i] == "--generate" {
        options := options.(generate := true);
      } else if args[i] == "--api-key" {
        i := i + 1;
        options := options.(apiKey := At(args, i));
      }
      i := i + 1;
    }
  }

  /** The value of the last event setting `f`, or `d` when no event sets it. */
  function LastValue(events: seq<OptionEvent>, f: Field, d: Option<string>): Option<string>
    decreases |events|
  {
    if |events| == 0 then d
    else
      var last := events[|events| - 1];
      if last.SetValue? && last.field == f then last.value
      else LastValue(events[..|events| - 1], f, d)
  }

  /** Looking for the last setter after a first event is looking for it with
      that event's effect as the default. */
  lemma {:induction false} LastValueAfterFirst(o: CliOptions, events: seq<OptionEvent>, f: Field)
    requires |events| > 0
    ensures LastValue(events, f, Get(o, f)) == LastValue(events[1..], f, Get(Apply(o, events[0]), f))
    decreases |events|
  {
    if |events| > 1 {
      var init := events[..|events| - 1];
      LastValueAfterFirst(o, init, f);
      assert init[1..] == events[1..][..|events[1..]| - 1];
    }
  }

  /** A later occurrence of a value option overwrites an earlier one: each
      field ends up with the value of its last setter, or keeps its value. */
  lemma {:induction false} LastOccurrenceWins(o: CliOptions, events: seq<OptionEvent>, f: Field)
    ensures Get(ApplyAll(o, events), f) == LastValue(events, f, Get(o, f))
    decreases |events|
  {
    if |events| > 0 {
      LastOccurrenceWins(Apply(o, events[0]), events[1..], f);
      LastValueAfterFirst(o, events, f);
    }
  }

  /** Generation ends up on exactly when it was on or some event switches it on. */
  lemma {:induction false} GenerateIffFlag(o: CliOptions, events: seq<OptionEvent>)
    ensures ApplyAll(o, events).generate <==> o.generate || SetGenerate in events
    decreases |events|
  {
    if |events| > 0 {
      GenerateIffFlag(Apply(o, events[0]), events[1..]);
      assert events == [events[0]] + events[1..];
    }
  }

  /** A value flag consumes the next token even when that token is itself a
      flag; at the end of the arguments it yields `undefined`. */
  lemma ValueFlagConsumesNext(flag: string, next: string, rest: seq<string>)
    requires ValueFlag(flag).Some?
    ensures Events([flag, next] + rest) == [SetValue(ValueFlag(flag).value, Some(next))] + Events(rest)
    ensures Events([flag]) == [SetValue(ValueFlag(flag).value, None)]
  {
    assert ([flag, next] + rest)[2..] == rest;
  }

  /** Tokens that are no option leave the options as they are. */
  lemma {:induction false} UnknownTokensIgnored(o: CliOptions, tokens: seq<string>)
    requires forall i :: 0 <= i < |tokens| ==> ValueFlag(tokens[i]).None? && !IsGenerateFlag(tokens[i])
    ensures ApplyAll(o, Events(tokens)) == o
    decreases |tokens|
  {
    if |tokens| > 0 {
      UnknownTokensIgnored(o, tokens[1..]);
    }
  }

  // ---------------------------------------------------------------- acquisition

  const CaptionsSource: string := "YouTube Captions"
  const GeneratedSource: string := "Gemini AI (Generated)"
  const KeyRequired: string := "Gemini API key required for generation. Use --api-key or 'yt config --set-key'"
  const NoCaptionsHint: string := "No captions found. Use --generate (-g) to create one with AI."

  datatype Acquired = Acquired(text: string, source: string)

  /** The calls made, in order, and the transcript or the error the acquisition ends with. */
  datatype Acquisition = Acquisition(steps: seq<Step>, result: Result<Acquired>)

  /** The acquisition of the entry point, given the outcomes of the calls it
      may make: the two caption requests, the downloader and the generation. */
  function Acquire(url: string, options: CliOptions, config: AppConfig, env: Option<string>,
                   english: FetchResult, anyLanguage: FetchResult,
                   downloader: DownloaderRun, generation: Result<string>): (r: Acquisition)
    // an invalid URL fails before any call
    ensures ExtractVideoId(url).Err? ==> r == Acquisition([], Err(InvalidUrl))
    // captions are always tried first
    ensures var captions := GetTranscript(url, english, anyLanguage);
      |captions.steps| <= |r.steps| && r.steps[..|captions.steps|] == captions.steps
    // captions found: nothing else runs
    ensures var captions := GetTranscript(url, english, anyLanguage);
      captions.result.Ok? ==> r == Acquisition(captions.steps, Ok(Acquired(captions.result.value, CaptionsSource)))
    // no captions and no generation flag: the hint, and no download
    ensures var captions := GetTranscript(url, english, anyLanguage);
      ExtractVideoId(url).Ok? && captions.result.Err? && !options.generate ==>
        r == Acquisition(captions.steps, Err(NoCaptionsHint))
    // no captions and no key anywhere: fails before any download
    ensures var captions := GetTranscript(url, english, anyLanguage);
      ExtractVideoId(url).Ok? && captions.result.Err? && options.generate
      && CredentialFor(options.apiKey, config, env) == "" ==>
        r == Acquisition(captions.steps, Err(KeyRequired))
    // no captions, generation asked for and a key found: the download runs,
    // then the generation; either one's error ends the acquisition, otherwise
    // the generated text is the transcript
    ensures var captions := GetTranscript(url, english, anyLanguage);
      var key := CredentialFor(options.apiKey, config, env);
      ExtractVideoId(url).Ok? && captions.result.Err? && options.generate && key != "" ==>
        var id := ExtractVideoId(url).value;
        var downloaded := captions.steps + [AudioDownload(id)];
        var generated := downloaded + [TranscriptGeneration(TempAudioPath(id), key)];
        (DownloadAudio(id, downloader).Err? ==>
           r == Acquisition(downloaded, Err(DownloadAudio(id, downloader).message)))
        && (DownloadAudio(id, downloader).Ok? && generation.Err? ==>
              r == Acquisition(generated, Err(generation.message)))
        && (DownloadAudio(id, downloader).Ok? && generation.Ok? ==>
              r == Acquisition(generated, Ok(Acquired(generation.value, GeneratedSource))))
    // a download happens only on the generation path with a key
    ensures ExtractVideoId(url).Ok? && AudioDownload(ExtractVideoId(url).value) in r.steps ==>
      GetTranscript(url, english, anyLanguage).result.Err? && options.generate
      && CredentialFor(options.apiKey, config, env) != ""
    // generation is called only after a successful download, with the key
    ensures forall p, k :: TranscriptGeneration(p, k) in r.steps ==>
      ExtractVideoId(url).Ok? && DownloadAudio(ExtractVideoId(url).value, downloader) == Ok(p)
      && k == CredentialFor(options.apiKey, config, env)
    // a generated transcript is the generation's text
    ensures r.result.Ok? && r.result.value.source == GeneratedSource ==>
      generation.Ok? && r.result.value.text == generation.value
  {
    match ExtractVideoId(url)
    case Err(e) => Acquisition([], Err(e))
    case Ok(videoId) =>
      var captions := GetTranscript(url, english, anyLanguage);
      match captions.result
      case Ok(text) => Acquisition(captions.steps, Ok(Acquired(text, CaptionsSource)))
      case Err(_) =>
        if !options.generate then Acquisition(captions.steps, Err(NoCaptionsHint))
        else
          var apiKey := CredentialFor(options.apiKey, config, env);
          if apiKey == "" then Acquisition(captions.steps, Err(KeyRequired))
          else
            var downloaded := captions.steps + [AudioDownload(videoId)];
            match DownloadAudio(videoId, downloader)
            case Err(e) => Acquisition(downloaded, Err(e))
            case Ok(audioPath) =>
              var generated := downloaded + [TranscriptGeneration(audioPath, apiKey)];
              match generation
              case Err(e) => Acquisition(generated, Err(e))
              case Ok(text) => Acquisition(generated, Ok(Acquired(text, GeneratedSource)))
  }

  // ---------------------------------------------------------------- presentation

  const PreviewLength: nat := 1000

  /** The console preview: a transcript of at most 1000 characters in full;
      a longer one cut to its first 1000 characters followed by "...". */
  function Preview(transcript: string): (p: string)
    ensures |transcript| <= PreviewLength ==> p == transcript
    ensures |transcript| > PreviewLength ==>
      |p| == PreviewLength + 3 && p[..PreviewLength] == transcript[..PreviewLength]
      && p[PreviewLength..] == "..."
  {
    var shown := if |transcript| <= PreviewLength then transcript else transcript[..PreviewLength];
    shown + (if |transcript| > PreviewLength then "..." else "")
  }

  // ---------------------------------------------------------------- the whole run

  /** How a run ends. */
  datatype CliOutcome =
    | HelpShown
    | ApiKeySaved(key: string)
    | UsageShown
    | UrlFailed(steps: seq<Step>, message: string)
    | UrlDone(steps: seq<Step>, source: string, preview: string, saved: Option<SavedFile>)

  /** The status the process exits with: 0 after the help, a saved key or a
      finished URL run; 1 after the usage message or a failed URL run. */
  function ExitCode(o: CliOutcome): nat
  {
    match o
    case HelpShown => 0
    case ApiKeySaved(_) => 0
    case UsageShown => 1
    case UrlFailed(_, _) => 1
    case UrlDone(_, _, _, _) => 0
  }

  /** `main()` with the command line `args`, the configuration store, the
      `GEMINI_API_KEY` environment variable and the outcomes of the outside
      calls. Only the `config --set-key` branch writes the store. */
  method RunCli(args: seq<string>, store: ConfigStore, env: Option<string>,
                english: FetchResult, anyLanguage: FetchResult,
                downloader: DownloaderRun, generation: Result<string>) returns (outcome: CliOutcome)
    modifies store
    ensures outcome.ApiKeySaved? <==> Dispatch(args).SaveApiKey?
    ensures outcome.ApiKeySaved? ==> outcome.key == args[2] && store.file == WithApiKey(old(store.file), args[2])
    ensures !outcome.ApiKeySaved? ==> store.file == old(store.file)
    ensures outcome.HelpShown? <==> Dispatch(args).ShowHelp?
    ensures outcome.UsageShown? <==> Dispatch(args).ConfigUsage?
    // exit statuses: help and a saved key exit 0, the usage message exits 1
    ensures Dispatch(args).ShowHelp? || Dispatch(args).SaveApiKey? ==> ExitCode(outcome) == 0
    ensures Dispatch(args).ConfigUsage? ==> ExitCode(outcome) == 1
    // a URL run exits 1 exactly when the acquisition fails
    ensures Dispatch(args).FetchUrl? ==>
      (ExitCode(outcome) == 1 <==>
         Acquire(args[0], ParseOptions(args), ReadConfig(old(store.file)), env,
                 english, anyLanguage, downloader, generation).result.Err?)
    ensures Dispatch(args).FetchUrl? ==>
      var acquisition := Acquire(args[0], ParseOptions(args), ReadConfig(old(store.file)), env,
                                 english, anyLanguage, downloader, generation);
      match acquisition.result
      case Err(e) => outcome == UrlFailed(acquisition.steps, e)
      case Ok(a) =>
        outcome.UrlDone? && outcome.steps == acquisition.steps && outcome.source == a.source
        && outcome.preview == Preview(a.text)
        && (outcome.saved.Some? <==> Truthy(ParseOptions(args).output))
        && (outcome.saved.Some? ==>
              outcome.saved.value.path == ParseOptions(args).output.value
              && outcome.saved.value.content ==
                 (if ParseOptions(args).format == Some("json") then RunJson(args[0], a.source, a.text)
                  else PlainText(a.text)))
  {
    var command := Dispatch(args);
    match command
    case ShowHelp =>
      outcome := HelpShown;
    case SaveApiKey(key) =>
      store.SetApiKey(key);
      outcome := ApiKeySaved(key);
    case ConfigUsage =>
      outcome := UsageShown;
    case FetchUrl(url) =>
      var options := ScanOptions(args);
      var config := store.GetConfig();
      var acquisition := Acquire(url, options, config, env, english, anyLanguage, downloader, generation);
      match acquisition.result
      case Err(e) =>
        outcome := UrlFailed(acquisition.steps, e);
      case Ok(a) =>
        var saved: Option<SavedFile> := None;
        if Truthy(options.output) {
          var content := PlainText(a.text);
          if options.format == Some("json") {
            content := RunJson(url, a.source, a.text);
          }
          saved := Some(SavedFile(options.output.value, content));
        }
        outcome := UrlDone(acquisition.steps, a.source, Preview(a.text), saved);
  }
}
