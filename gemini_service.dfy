/** The audio download step of the Gemini service. The downloader runs as a
    child process outside the model; what it did is given as a value, and the
    model states how that is turned into a path or an error. The generation
    call itself is not modelled here: callers receive its outcome directly. */
module GeminiService {
  import opened Types

  /** How the downloader child process ended: it could not be spawned (its
      'error' event), or it closed with an exit code, after which the output
      file is there or not. */
  datatype DownloaderRun = SpawnFailed(message: string) | Closed(exitCode: int, fileExists: bool)

  const DownloadFailed: string := "Failed to download video audio"

  /** The deterministic temporary path the audio of a video is written to. */
  function TempAudioPath(videoId: string): string
  {
    "./temp_audio_" + videoId + ".mp3"
  }

  /** `downloadAudio(videoId)`: it yields the temporary path exactly when the
      process closed with exit code 0 and the file exists; a spawn error keeps
      its own message, every other ending is "Failed to download video audio". */
  function DownloadAudio(videoId: string, run: DownloaderRun): (r: Result<string>)
    ensures r.Ok? <==> run.Closed? && run.exitCode == 0 && run.fileExists
    ensures r.Ok? ==> r.value == TempAudioPath(videoId)
    ensures run.SpawnFailed? ==> r == Err(run.message)
    ensures run.Closed? && r.Err? ==> r.message == DownloadFailed
  {
    match run
    case SpawnFailed(m) => Err(m)
    case Closed(code, exists_) =>
      if code == 0 && exists_ then Ok(TempAudioPath(videoId)) else Err(DownloadFailed)
  }
}
