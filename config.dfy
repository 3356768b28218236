/** The configuration store: one JSON record in a per-user file, read whole
    and written whole. The file is modelled by what reading it yields:
    nothing there, text that does not parse, or a record. */
module Config {
  import opened Types

  datatype ConfigFile = Absent | Unparseable | Holds(config: AppConfig)

  /** The record reading the file gives: the stored one, or `{}` when the
      file is absent or does not parse. */
  function ReadConfig(file: ConfigFile): (c: AppConfig)
    ensures file.Holds? ==> c == file.config
    ensures !file.Holds? ==> c == EmptyConfig
  {
    match file
    case Holds(c) => c
    case _ => EmptyConfig
  }

  /** The file after `setApiKey(key)`: a record whose key is the new one and
      whose other fields are those read before. */
  function WithApiKey(file: ConfigFile, key: string): (after: ConfigFile)
    ensures after.Holds? && after.config.geminiApiKey == Some(key)
    ensures after.config.defaultFormat == ReadConfig(file).defaultFormat
    ensures after.config.outputDir == ReadConfig(file).outputDir
  {
    Holds(ReadConfig(file).(geminiApiKey := Some(key)))
  }

  // ---------------------------------------------------------------- credential precedence

  /** Index of the first truthy candidate, or the number of candidates. */
  function FirstTruthyIndex(candidates: seq<Option<string>>): (k: nat)
    ensures k <= |candidates|
    ensures forall j :: 0 <= j < k ==> !Truthy(candidates[j])
    ensures k < |candidates| ==> Truthy(candidates[k])
  {
    if |candidates| == 0 then 0
    else if Truthy(candidates[0]) then 0
    else 1 + FirstTruthyIndex(candidates[1..])
  }

  /** `c0 || c1 || ... || ""`: the first defined, non-empty candidate, or "" when there is none. */
  function FirstTruthy(candidates: seq<Option<string>>): (r: string)
    ensures r == "" <==> forall i :: 0 <= i < |candidates| ==> !Truthy(candidates[i])
    ensures r != "" ==> exists i :: 0 <= i < |candidates| && candidates[i] == Some(r)
                                    && forall j :: 0 <= j < i ==> !Truthy(candidates[j])
  {
    var k := FirstTruthyIndex(candidates);
    if k < |candidates| then candidates[k].value else ""
  }

  /** `getApiKey()` on a given record and `GEMINI_API_KEY`: the stored key if
      non-empty, else the environment's if non-empty, else "". */
  function ResolveApiKey(config: AppConfig, env: Option<string>): (r: string)
    ensures Truthy(config.geminiApiKey) ==> r == config.geminiApiKey.value
    ensures !Truthy(config.geminiApiKey) && Truthy(env) ==> r == env.value
    ensures !Truthy(config.geminiApiKey) && !Truthy(env) ==> r == ""
  {
    var candidates := [config.geminiApiKey, env];
    assert candidates[1] == env;
    FirstTruthy(candidates)
  }

  /** `optionKey || getApiKey()`: the key used for generation. It is the first
      non-empty of the explicit option, the stored key and the environment. */
  function CredentialFor(optionKey: Option<string>, config: AppConfig, env: Option<string>): (r: string)
    ensures r == FirstTruthy([optionKey, config.geminiApiKey, env])
  {
    FirstTruthy([optionKey, Some(ResolveApiKey(config, env))])
  }

  // ---------------------------------------------------------------- properties of the store

  /** Setting the key over an absent or unreadable file leaves a record holding only the key. */
  lemma SetApiKeyOnUnreadable(file: ConfigFile, key: string)
    requires !file.Holds?
    ensures WithApiKey(file, key) == Holds(AppConfig(Some(key), None, None))
  {
  }

  /** Setting the same key twice leaves the same file as setting it once. */
  lemma SetApiKeyIdempotent(file: ConfigFile, key: string)
    ensures WithApiKey(WithApiKey(file, key), key) == WithApiKey(file, key)
  {
  }

  /** The last key set is the one stored. */
  lemma SetApiKeyLastWins(file: ConfigFile, first: string, second: string)
    ensures WithApiKey(WithApiKey(file, first), second) == WithApiKey(file, second)
  {
  }

  /** After a non-empty key is set, it is the key `getApiKey` returns, whatever the environment says. */
  lemma SetThenGetApiKey(file: ConfigFile, key: string, env: Option<string>)
    requires key != ""
    ensures ResolveApiKey(ReadConfig(WithApiKey(file, key)), env) == key
  {
  }

  /** `configManager` over its file. */
  class ConfigStore {
    var file: ConfigFile

    constructor (file: ConfigFile)
      ensures this.file == file
    {
      this.file := file;
    }

    /** `getConfig()`: `{}` when the file is absent or does not parse, else its record. */
    method GetConfig() returns (config: AppConfig)
      ensures !file.Holds? ==> config == EmptyConfig
      ensures file.Holds? ==> config == file.config
    {
      if file.Absent? {
        return EmptyConfig;
      }
      match file
      case Holds(c) => config := c;
      case _ => config := EmptyConfig;
    }

    /** `saveConfig(config)`: the file holds exactly this record afterwards. */
    method SaveConfig(config: AppConfig)
      modifies this
      ensures file == Holds(config)
    {
      file := Holds(config);
    }

    /** `setApiKey(key)`: read, replace the key, write back. */
    method SetApiKey(key: string)
      modifies this
      ensures file == WithApiKey(old(file), key)
    {
      var config := GetConfig();
      config := config.(geminiApiKey := Some(key));
      SaveConfig(config);
    }

    /** `getApiKey()` with the given `GEMINI_API_KEY`. */
    method GetApiKey(env: Option<string>) returns (key: string)
      ensures key == ResolveApiKey(ReadConfig(file), env)
    {
      var config := GetConfig();
      key := FirstTruthy([config.geminiApiKey, env]);
    }
  }
}
