/** Value types shared by the whole tool: the records declared in
    src/types/index.ts, the wrappers that stand for JavaScript's `undefined`
    and for thrown errors, and the trace of calls made to the outside world. */
module Types {

  /** An optional value: `None` is JavaScript's `undefined`. */
  datatype Option<+T> = None | Some(value: T)

  /** The outcome of an operation that may throw: `Err` carries the error's message. */
  datatype Result<+T> = Ok(value: T) | Err(message: string)

  /** JavaScript truthiness of an optional string: defined and non-empty. */
  predicate Truthy(o: Option<string>)
  {
    o.Some? && o.value != ""
  }

  /** Where the text of a `Transcript` came from. */
  datatype TranscriptSource = YouTube | Gemini25Flash

  function SourceName(s: TranscriptSource): string
  {
    match s
    case YouTube => "YouTube"
    case Gemini25Flash => "Gemini 2.5 Flash"
  }

  datatype Transcript = Transcript(
    videoId: string,
    title: string,
    duration: nat,
    text: string,
    source: TranscriptSource,
    url: Option<string>)

  /** Options of the `fetch` command; `format` is compared as a string at run time. */
  datatype TranscriptOptions = TranscriptOptions(
    generateIfMissing: bool,
    geminiApiKey: Option<string>,
    format: Option<string>,
    output: Option<string>)

  datatype VideoMetadata = VideoMetadata(
    title: string,
    duration: nat,
    thumbnail: Option<string>,
    channel: Option<string>)

  /** The record held by the per-user configuration file. */
  datatype AppConfig = AppConfig(
    geminiApiKey: Option<string>,
    defaultFormat: Option<string>,
    outputDir: Option<string>)

  /** `{}` */
  const EmptyConfig: AppConfig := AppConfig(None, None, None)

  /** One call made to a collaborator outside the model, recorded in the order made. */
  datatype Step =
    | CaptionsRequest(videoId: string, lang: Option<string>)
    | MetadataRequest(videoId: string)
    | CaptionTextRequest(videoId: string)
    | AudioDownload(videoId: string)
    | TranscriptGeneration(audioPath: string, apiKey: string)

  /** What is written to an output file. JSON serialisation is kept symbolic:
      `TranscriptJson(t)` stands for `JSON.stringify(t, null, 2)`, and
      `RunJson(u, s, x)` for `JSON.stringify({url: u, source: s, transcript: x}, null, 2)`. */
  datatype Content =
    | PlainText(text: string)
    | TranscriptJson(transcript: Transcript)
    | RunJson(url: string, source: string, text: string)

  datatype SavedFile = SavedFile(path: string, content: Content)
}
