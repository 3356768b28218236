# youtube-cli in Dafny

A model of the core of `yt`, a command-line tool that fetches YouTube
transcripts. When a video has no captions, it downloads the audio and has
Gemini generate a transcript instead. The model covers:

- extracting a video id from a URL (three regular expressions, tried in order);
- fetching captions with one retry, and joining the segments;
- the entry point `main`:
  - dispatch on the first argument;
  - the option-scanning loop;
  - the captions → generation fallback;
  - the 1000-character console preview;
  - the optional output file;
- the `fetch` command:
  - duration formatting;
  - its own fallback decision;
  - the txt/json/md choice of file content;
- the `batch` command: splitting and filtering lines, then the counting loop;
- the configuration store: read-modify-write of the API key over one file,
  and the precedence chain for credentials.

Everything the tool asks of the outside world is a parameter of the model.
This covers the captions API, the metadata and caption-text lookups of the
`fetch` command, the `yt-dlp` downloader, the Gemini call, the environment
variable `GEMINI_API_KEY`, the config file, and whether each fetch of a batch
completes. Every run returns the sequence of calls it made, as `Step`
values. Contracts can therefore state which calls happen and which never do,
such as "no download is attempted".

Files and modules:

| file | module | source |
|---|---|---|
| `types.dfy` | `Types` | `src/types/index.ts`, plus `Option`/`Result`, the `Step` trace and file contents |
| `text.dfy` | `Text` | the JavaScript string operations the core relies on: `join`, `split`, `trim` and integer rendering |
| `transcript_service.dfy` | `TranscriptService` | `src/services/transcript.service.ts` |
| `gemini_service.dfy` | `GeminiService` | how `downloadAudio` turns the downloader's outcome into a result |
| `config.dfy` | `Config` | `src/utils/config.ts`, with the class `ConfigStore` over a file state |
| `cli.dfy` | `Cli` | `src/main.ts` |
| `fetch_command.dfy` | `FetchCmd` | `src/commands/fetch.ts` |
| `batch_command.dfy` | `BatchCmd` | `src/commands/batch.ts` |

Notes on how the model reads the source:

- **Id patterns.** The patterns `(?:youtube\.com\/watch\?v=|youtu\.be\/)([^&\n?#]+)`
  and `(?:youtube\.com\/embed\/)([^&\n?#]+)` are modelled with the search
  semantics of `String.prototype.match`:
  - The match starts at the leftmost position where a marker occurs and is
    followed by at least one character other than `&`, newline, `?` or `#`.
  - At one position, the alternatives are tried in order.
  - The id is the maximal run of such characters after the marker.
- **Bare id.** The bare-id pattern `^([a-zA-Z0-9_-]{11})$` has no `m` flag, so
  `$` means the end of the input: the whole input must be the id.
- **Truthiness.** JavaScript truthiness of an optional string is `Types.Truthy`:
  the value is defined and non-empty.
- **Exits.** `process.exit` becomes a terminal outcome value. The outcomes are
  `Cli.CliOutcome` with `Cli.ExitCode`, `FetchCmd.CommandOutcome.Exited` and
  `BatchCmd.BatchOutcome.Stopped`.

## Model

| member | source | states |
|---|---|---|
| Text.Split | src/commands/batch.ts:13 | `split(sep)` always yields at least one piece, and no piece contains the separator |
| Text.JoinSplit | src/commands/batch.ts:13 | joining the pieces of a split with the same separator gives back the original text |
| Text.SplitJoin | src/services/transcript.service.ts:20 | splitting a join of one or more separator-free pieces gives back exactly those pieces |
| Text.JoinEnds | src/services/transcript.service.ts:20 | `join(sep)` of one or more pieces begins with the first piece and ends with the last |
| Text.Trim | src/commands/batch.ts:14 | `trim()` yields a piece of its input; it is empty exactly when the input is all whitespace, and otherwise begins and ends with a non-whitespace character |
| Text.TrimRemovesOnlyWhitespace | src/commands/batch.ts:22 | trimming removes only whitespace: the input is a blank prefix, then the trimmed text, then a blank suffix |
| Text.NatToString | src/commands/fetch.ts:88 | a whole number renders as a non-empty string of decimal digits, with a leading zero only for 0 itself |
| Text.DecimalRoundTrip | src/commands/fetch.ts:88 | reading the rendered digits back as a decimal gives the number |
| Text.CanonicalDecimalRoundTrip | src/commands/fetch.ts:88 | digits without a leading zero (or a lone zero) are the rendering of the number they denote |
| TranscriptService.LeftmostMatch | src/services/transcript.service.ts:51 | a regex search finds the leftmost position where some alternative can start a match, and the first such alternative there; with no result, no position can start one |
| TranscriptService.RunEnd | src/services/transcript.service.ts:45-46 | `[^&\n?#]+` is greedy: the capture runs up to the first stop character or the end of the input |
| TranscriptService.MatchPattern | src/services/transcript.service.ts:44-52 | a captured id is a non-empty substring of the input; a URL pattern fails exactly when no position can start a match; the anchored pattern matches exactly an 11-character `[A-Za-z0-9_-]` input and returns it whole |
| TranscriptService.AfterMarkerCapture | src/services/transcript.service.ts:45-46 | a URL pattern's id is the maximal run of non-stop characters after the marker of the leftmost match; there is no length check |
| TranscriptService.FirstMatch | src/services/transcript.service.ts:50-53 | the result of trying the patterns in turn, when present, is a non-empty substring of the input |
| TranscriptService.FirstMatchIsFirst | src/services/transcript.service.ts:50-53 | when pattern k matches and no earlier one does, the search returns pattern k's capture |
| TranscriptService.FirstMatchNone | src/services/transcript.service.ts:50-54 | the search fails exactly when no pattern matches |
| TranscriptService.ExtractVideoId | src/services/transcript.service.ts:43-55 | a successful id is a non-empty substring of the URL; failure is the error "Invalid YouTube URL" |
| TranscriptService.ExtractionOrder | src/services/transcript.service.ts:44-54 | the watch/short-link pattern is tried first, then embed, then the bare id; the first that matches decides; with none, extraction fails |
| TranscriptService.BareIdUnchanged | src/services/transcript.service.ts:47 | an input that is itself an 11-character id is returned unchanged |
| TranscriptService.WatchUrlGivesId | src/services/transcript.service.ts:45 | `https://www.youtube.com/watch?v=ID` yields `ID` for every 11-character id |
| TranscriptService.ShortLinkGivesId | src/services/transcript.service.ts:45 | `https://youtu.be/ID` yields `ID` |
| TranscriptService.EmbedUrlGivesId | src/services/transcript.service.ts:46 | `https://www.youtube.com/embed/ID` yields `ID`; it is found by the second pattern, after the first finds nothing |
| TranscriptService.SegmentTexts | src/services/transcript.service.ts:20 | the map keeps one text per segment, in order |
| TranscriptService.JoinSegments | src/services/transcript.service.ts:20 | the transcript text is "" for no segments; otherwise it begins with the first segment's text and ends with the last one's |
| TranscriptService.JoinSegmentsSplits | src/services/transcript.service.ts:20 | the joined transcript splits back on single spaces into the segment texts, when no segment holds a space of its own |
| TranscriptService.GetTranscript | src/services/transcript.service.ts:4-41 | an invalid URL fails before any request; English is asked first; exactly when it yields no segments, one request without a language follows; the text is the first usable attempt's segments joined by spaces; otherwise the error is "No transcript available: " plus the first attempt's message ("No transcript segments found" for an empty list) |
| GeminiService.DownloadAudio | src/services/gemini.service.ts:6-42 | the download yields `./temp_audio_<id>.mp3` exactly when the downloader closed with code 0 and the file exists; a spawn error keeps its message; any other ending is "Failed to download video audio" |
| Config.FirstTruthy | src/utils/config.ts:32 | a `\|\|` chain ending in "" gives "" exactly when every candidate is undefined or empty; otherwise it gives the first defined, non-empty candidate |
| Config.ResolveApiKey | src/utils/config.ts:30-33 | `getApiKey` gives the stored key if non-empty, else `GEMINI_API_KEY` if non-empty, else "" |
| Config.CredentialFor | src/main.ts:90 | the generation key is the first non-empty of: the `--api-key` option, the stored key, the environment |
| Config.ReadConfig | src/utils/config.ts:9-18 | reading gives `{}` when the file is absent or does not parse, and the stored record otherwise |
| Config.WithApiKey | src/utils/config.ts:24-28 | after `setApiKey` the file holds a record whose key is the new one, and whose `defaultFormat` and `outputDir` are those read before |
| Config.SetApiKeyOnUnreadable | src/utils/config.ts:24-28 | over an absent or unparseable file, `setApiKey` leaves a record holding only the key |
| Config.SetApiKeyIdempotent | src/utils/config.ts:24-28 | setting the same key twice leaves the same file as setting it once |
| Config.SetApiKeyLastWins | src/utils/config.ts:24-28 | of two keys set in turn, the second is the one stored |
| Config.SetThenGetApiKey | src/utils/config.ts:24-33 | after a non-empty key is set, `getApiKey` returns it whatever the environment holds |
| Config.ConfigStore.GetConfig | src/utils/config.ts:9-18 | `getConfig` gives `{}` for an absent or unparseable file, and otherwise the stored record |
| Config.ConfigStore.SaveConfig | src/utils/config.ts:20-22 | afterwards the file holds exactly the record given |
| Config.ConfigStore.SetApiKey | src/utils/config.ts:24-28 | read, replace the key, write back: the new file is the old record with only its key replaced |
| Config.ConfigStore.GetApiKey | src/utils/config.ts:30-33 | the method gives the precedence chain applied to the record in the file |
| Cli.Dispatch | src/main.ts:39-56 | help exactly for no arguments or a first `--help`/`-h`; the key is saved exactly for `config --set-key <non-empty>`; any other use of `config` shows usage; every other first argument is the URL |
| Cli.Events | src/main.ts:67-72 | the scan meets at most one event per token, and at least one when there is any token after the URL |
| Cli.ParseOptions | src/main.ts:60-65 | with no token after the URL the options are the defaults: no output, format "txt", no generation, no key |
| Cli.ScanOptions | src/main.ts:60-72 | the scan loop from index 1 produces `ParseOptions(args)`: the defaults (`format` "txt", the rest unset or off) updated by the events met, left to right |
| Cli.LastOccurrenceWins | src/main.ts:67-72 | each value option ends with the value of its last occurrence, or keeps its default |
| Cli.ValueFlagConsumesNext | src/main.ts:68-71 | `-o`, `-f` and `--api-key` take the next token even if it is a flag, and yield `undefined` as the last token |
| Cli.GenerateIffFlag | src/main.ts:70 | generation ends up on exactly when `-g`/`--generate` occurs as an option token |
| Cli.UnknownTokensIgnored | src/main.ts:67-72 | tokens that are no option leave the options unchanged |
| Cli.Acquire | src/main.ts:74-101 | an invalid URL fails before any call; captions are always tried first; on success nothing else runs and the source is "YouTube Captions"; without `-g` the run fails with the hint and no download; with no key anywhere it fails before any download; with `-g` and a key the download runs next: its error ends the run, otherwise generation runs on `./temp_audio_<id>.mp3` with the resolved key, and its error ends the run or its text is the transcript with source "Gemini AI (Generated)" |
| Cli.Preview | src/main.ts:107 | a transcript of at most 1000 characters is shown whole; a longer one is shown as its first 1000 characters followed by "..." |
| Cli.RunCli | src/main.ts:36-143 | only `config --set-key` changes the store, in the way `setApiKey` does; help, usage and URL runs follow `Dispatch`; help and a saved key exit 0, usage exits 1, and a URL run exits 1 exactly when the acquisition fails; a URL run fails with the acquisition's error, or shows the preview and writes a file exactly when `-o` is given: JSON of url, source and transcript for `-f json`, the raw text otherwise |
| FetchCmd.HoursMinutesSeconds | src/commands/fetch.ts:84-87 | hours·3600 + minutes·60 + seconds is the input, and minutes and seconds are below 60 |
| FetchCmd.FormatDuration | src/commands/fetch.ts:84-89 | the rendered `"<h>h <m>m <s>s"` is a single line and reads back as exactly the whole hours, the minutes below 60 and the seconds below 60 of the duration |
| FetchCmd.UnitOnlyRendering | src/commands/fetch.ts:88 | the only text that reads as a number followed by a unit letter is that number in decimal, then the letter |
| FetchCmd.ParseDurationOnlyRendering | src/commands/fetch.ts:88 | a text reads as given hours, minutes and seconds only if it is their `"<h>h <m>m <s>s"` rendering |
| FetchCmd.FormatDurationUnique | src/commands/fetch.ts:84-89 | the formatted duration is the one text that reads back as the duration's hours, minutes and seconds |
| FetchCmd.Markdown | src/commands/fetch.ts:72 | the Markdown content opens with `# <title>` and closes with the transcript text |
| FetchCmd.MarkdownLines | src/commands/fetch.ts:72 | for a single-line title, the Markdown file is, line by line: `# <title>`, a blank line, the duration line, the source line, a blank line, then the lines of the text |
| FetchCmd.GenerateText | src/commands/fetch.ts:21-40 | with empty caption text: no generation flag gives the hint and no call; no key gives the key message and no call; otherwise the download is made, its error is kept, and after a successful download generation is called on the temporary path with the key and its outcome is the text |
| FetchCmd.WriteOutput | src/commands/fetch.ts:64-77 | a file is written exactly when an output path is given, at that path: the transcript JSON for `json`, the Markdown for `md`, the plain text for any other format |
| FetchCmd.FetchCommand | src/commands/fetch.ts:10-82 | an invalid URL exits before any call; the metadata and the caption text are asked for first, and an error of either exits; non-empty text completes with no further call and source YouTube; empty text without generation exits with the hint, and with no key exits before any download; with generation and a key the download runs, its error exits, then generation runs on `./temp_audio_<id>.mp3` with the key, its error exits, and otherwise the command completes with the generated text and source "Gemini 2.5 Flash"; a download happens only with empty text, generation on and a key; a file is written exactly when an output path is given: the JSON record for `json`, Markdown for `md`, the raw text otherwise |
| BatchCmd.KeepNonBlank | src/commands/batch.ts:12-14 | the filter keeps no whitespace-only line |
| BatchCmd.KeepNonBlankMembers | src/commands/batch.ts:14 | a line is kept exactly when it is one of the file's lines and is not blank |
| BatchCmd.KeepNonBlankAppend | src/commands/batch.ts:12-14 | filtering works piece by piece, so the kept lines stay in the file's order |
| BatchCmd.UrlLines | src/commands/batch.ts:12-14 | the URLs of a file are no more than its lines, and none of them is blank |
| BatchCmd.UrlLinesOfJoined | src/commands/batch.ts:12-14 | a file of non-blank URLs written one per line gives back exactly those URLs |
| BatchCmd.Completed | src/commands/batch.ts:23 | the number of completed fetches among the first n is at most n |
| BatchCmd.Failed | src/commands/batch.ts:26 | the number of failed fetches among the first n is at most n |
| BatchCmd.CountsPartition | src/commands/batch.ts:17-27 | every processed URL is counted once, as completed or as failed |
| BatchCmd.CountsAtExtremes | src/commands/batch.ts:17-27 | all fetches are counted as completed and none as failed exactly when every fetch succeeded, and the reverse exactly when every fetch failed |
| BatchCmd.FailedLines | src/commands/batch.ts:24-27 | exactly one line is reported per failure |
| BatchCmd.TrimAll | src/commands/batch.ts:22 | one fetch per URL, and the k-th is called with the k-th URL trimmed |
| BatchCmd.FetchEach | src/commands/batch.ts:17-28 | the loop calls the fetch once per URL, in order, with the URL trimmed; completed, failed and the reported lines are the counts over all calls, and completed + failed is the number of URLs |
| BatchCmd.BatchCommand | src/commands/batch.ts:5-37 | a missing file stops with "File not found: <path>" before any URL; an unreadable file stops with its error; otherwise each non-blank line is fetched once, in order, trimmed; a failure is counted and reported, and the loop goes on; completed + failed is the number of URLs |

## Left out

- Clipboard copying (`src/main.ts:110-124`, `src/commands/fetch.ts:91-104`): it shells out to OS tools and swallows every failure.
- Directory creation and the file write itself: a saved file is modelled as its path and its content (`Types.SavedFile`).
- The text `JSON.stringify` produces: JSON content is the value being serialised (`Types.Content`).
- Logger output, chalk colours, banners and every other console line except the transcript preview.
- Async machinery: every call is awaited in sequence, so runs are modelled as sequential.
- `generateTranscript`: reading and base64-encoding the audio, the Gemini SDK call and the removal of the temporary file. Callers receive its outcome as a `Result<string>`; an error stands for the thrown "Gemini generation failed: …".
- `downloadAudio`: removing a stale temporary file and the `yt-dlp` command line are outside the model; only how its ending becomes a path or an error is modelled.
- `fetchTranscript` from `youtube-transcript-plus`: each of the two calls is given as an outcome (`TranscriptService.FetchResult`). A `null` result is treated like an empty list, which the source also does. A segment carries only its text, because nothing else of it is used.
- `src/commands/config.ts` is not part of this model: it only forwards to the configuration store.
- `src/utils/logger.ts` is not part of this model: it is presentation only.
- The metadata and caption-text lookups of `fetchCommand` call services that `src/services/transcript.service.ts` does not export. They are given as outcomes.
- FetchCmd.FetchCommand: `src/commands/fetch.ts:1` imports `transcriptService`, which `src/services/transcript.service.ts` does not export, so as written line 12 (`transcriptService.extractVideoId(url)`) fails for every URL, like the two lookups after it. The model assumes that call resolves to the exported `extractVideoId` (`TranscriptService.ExtractVideoId`); it does not model the failure of the unresolved import.
- BatchCmd.BatchCommand: the outcome of each fetch is an abstract per-call value. `fetchCommand` reports its own errors and exits the process instead of rethrowing, so the batch loop cannot observe a failure as written.
- FetchCmd.FormatDuration: durations are whole non-negative numbers. Fractional and negative JavaScript numbers, and the exponent notation JavaScript uses from 1e21 on, are not modelled.
- Cli.Preview: lengths count Dafny characters (code points), whereas `substring` and `length` count UTF-16 code units. The two differ only for characters outside the Basic Multilingual Plane.
- Config.ReadConfig: a config file is absent, unparseable or holds a record of the three known fields. Extra JSON fields, and JSON that parses to something other than an object, are not modelled.
- Cli.RunCli: the model reads the stored configuration once for every URL run. The source reads it only when `--api-key` is not given. This is harmless, because reading does not change the file.
