/** The configuration of the AI client: API keys taken from the environment,
    the list of places searched for `aerogel.toml`, and the rule that picks
    the file to read. The environment, the home and configuration directories
    and the file system are parameters. */
module Config {
  import opened Wrappers
  import opened Strings

  /** The four API keys; an unset variable leaves its key `None`. */
  datatype ApiKeys = ApiKeys(openai: Option<string>, claude: Option<string>,
                             gemini: Option<string>, xai: Option<string>)

  /** Reading the keys from the environment never fails: a variable that is
      not set gives `None`. */
  function LoadKeys(env: string -> Option<string>): ApiKeys {
    ApiKeys(env("OPENAI_API_KEY"), env("CLAUDE_API_KEY"), env("GEMINI_API_KEY"), env("XAI_API_KEY"))
  }

  /** The key for a provider name, whatever its case; "anthropic" and
      "google" are other names for Claude and Gemini, and every other name has
      no key. */
  function GetKey(keys: ApiKeys, provider: string): Option<string> {
    var p := ToAsciiLower(provider);
    if p == "openai" then keys.openai
    else if p == "claude" || p == "anthropic" then keys.claude
    else if p == "gemini" || p == "google" then keys.gemini
    else if p == "xai" then keys.xai
    else None
  }

  /* ---------------- keys ---------------- */

  /** Names that differ only in ASCII case give the same key. */
  lemma GetKeyIgnoresCase(keys: ApiKeys, a: string, b: string)
    requires EqIgnoreAsciiCase(a, b)
    ensures GetKey(keys, a) == GetKey(keys, b)
  {
  }

  /** The environment variable each provider name (in lower case) reads. */
  const KEY_VARIABLES: map<string, string> :=
    map["openai" := "OPENAI_API_KEY", "claude" := "CLAUDE_API_KEY", "anthropic" := "CLAUDE_API_KEY",
        "gemini" := "GEMINI_API_KEY", "google" := "GEMINI_API_KEY", "xai" := "XAI_API_KEY"]

  /** The key a provider gets is the value of the variable the table lists
      for its lower-cased name, `None` when that variable is not set, and
      `None` for a name the table does not list. */
  lemma KeyFromEnvironment(env: string -> Option<string>, provider: string)
    ensures var p := ToAsciiLower(provider);
            GetKey(LoadKeys(env), provider) == if p in KEY_VARIABLES then env(KEY_VARIABLES[p]) else None
  {
    var p := ToAsciiLower(provider);
    if p !in KEY_VARIABLES {
      assert p != "openai" && p != "claude" && p != "anthropic";
      assert p != "gemini" && p != "google" && p != "xai";
    }
  }

  /** The names the chat functions ask for select their own keys. */
  lemma ProviderKeys(keys: ApiKeys, openai: string, claude: string, gemini: string, xai: string)
    requires openai == "openai" && claude == "claude" && gemini == "gemini" && xai == "xai"
    ensures GetKey(keys, openai) == keys.openai && GetKey(keys, claude) == keys.claude
    ensures GetKey(keys, gemini) == keys.gemini && GetKey(keys, xai) == keys.xai
  {
    OpenAiAndClaudeKeys(keys, openai, claude);
    GeminiAndXaiKeys(keys, gemini, xai);
  }

  lemma OpenAiAndClaudeKeys(keys: ApiKeys, openai: string, claude: string)
    requires openai == "openai" && claude == "claude"
    ensures GetKey(keys, openai) == keys.openai && GetKey(keys, claude) == keys.claude
  {
    LowerWord(openai);
    LowerWord(claude);
  }

  lemma GeminiAndXaiKeys(keys: ApiKeys, gemini: string, xai: string)
    requires gemini == "gemini" && xai == "xai"
    ensures GetKey(keys, gemini) == keys.gemini && GetKey(keys, xai) == keys.xai
  {
    LowerWord(gemini);
    LowerWord(xai);
  }

  lemma LowerWord(w: string)
    requires forall i :: 0 <= i < |w| ==> !('A' <= w[i] <= 'Z')
    ensures ToAsciiLower(w) == w
  {
  }

  /** OpenRouter has no key of its own, whatever the environment holds. */
  lemma OpenRouterHasNoKey(keys: ApiKeys, provider: string)
    requires provider == "openrouter"
    ensures GetKey(keys, provider) == None
  {
    var p := ToAsciiLower(provider);
    assert |p| == 10;
  }

  /* ---------------- where the configuration file is looked for ---------------- */

  const FILE_NAME: string := "aerogel.toml"

  /** `Path::join` of a relative name on a unix system: a '/' goes between
      the two unless the base is empty or already ends in one. */
  function JoinPath(base: string, name: string): (r: string)
    ensures EndsWith(r, name)
  {
    var r := if base != [] && base[|base| - 1] != '/' then base + "/" + name else base + name;
    assert r[|r| - |name|..] == name;
    r
  }

  /** The places searched, best first: the working directory and the one two
      levels up, then the home directory and the configuration directory when
      they are known, then the system directory. */
  function ConfigPathList(home: Option<string>, configDir: Option<string>): seq<string> {
    var start := [FILE_NAME, "../../aerogel.toml"];
    var withHome :=
      if home.Some? then start + [JoinPath(home.value, FILE_NAME)] + [JoinPath(home.value, ".aerogel.toml")]
      else start;
    var withDir :=
      if configDir.Some? then
        var dir := JoinPath(configDir.value, "aerogel");
        withHome + [JoinPath(dir, FILE_NAME)] + [JoinPath(dir, "config.toml")]
      else withHome;
    withDir + ["/etc/aerogel/aerogel.toml"] + ["/etc/aerogel/config.toml"]
  }

  /** The search list, built one entry at a time. */
  method GetConfigPaths(home: Option<string>, configDir: Option<string>) returns (paths: seq<string>)
    ensures paths == ConfigPathList(home, configDir)
  {
    paths := [FILE_NAME, "../../aerogel.toml"];
    if home.Some? {
      paths := paths + [JoinPath(home.value, FILE_NAME)];
      paths := paths + [JoinPath(home.value, ".aerogel.toml")];
    }
    if configDir.Some? {
      var dir := JoinPath(configDir.value, "aerogel");
      paths := paths + [JoinPath(dir, FILE_NAME)];
      paths := paths + [JoinPath(dir, "config.toml")];
    }
    paths := paths + ["/etc/aerogel/aerogel.toml"];
    paths := paths + ["/etc/aerogel/config.toml"];
  }

  /** The order of the search list: two relative paths first, two system
      paths last, and in between two home entries and then two entries of the
      configuration directory, each pair present only when its directory is
      known. */
  lemma ConfigPathOrder(home: Option<string>, configDir: Option<string>)
    ensures var paths := ConfigPathList(home, configDir);
            && |paths| == 4 + (if home.Some? then 2 else 0) + (if configDir.Some? then 2 else 0)
            && paths[0] == FILE_NAME && paths[1] == "../../aerogel.toml"
            && (home.Some? ==> paths[2] == JoinPath(home.value, FILE_NAME)
                               && paths[3] == JoinPath(home.value, ".aerogel.toml"))
            && (configDir.Some? ==>
                  var k := if home.Some? then 4 else 2;
                  paths[k] == JoinPath(JoinPath(configDir.value, "aerogel"), FILE_NAME)
                  && paths[k + 1] == JoinPath(JoinPath(configDir.value, "aerogel"), "config.toml"))
            && paths[|paths| - 2] == "/etc/aerogel/aerogel.toml"
            && paths[|paths| - 1] == "/etc/aerogel/config.toml"
  {
  }

  /* ---------------- which file is read ---------------- */

  /** The contents found and the path they came from. */
  datatype Found = Found(content: string, path: string)

  /** A path that exists and can be read. */
  predicate Readable(path: string, pathExists: string -> bool, read: string -> Option<string>) {
    pathExists(path) && read(path).Some?
  }

  /** The position of the first readable path at `i` or later. */
  function FirstReadableFrom(paths: seq<string>, pathExists: string -> bool, read: string -> Option<string>, i: nat)
    : (r: Option<nat>)
    requires i <= |paths|
    ensures r.Some? ==> i <= r.value < |paths| && Readable(paths[r.value], pathExists, read)
    ensures r.Some? ==> forall j :: i <= j < r.value ==> !Readable(paths[j], pathExists, read)
    ensures r.None? ==> forall j :: i <= j < |paths| ==> !Readable(paths[j], pathExists, read)
    decreases |paths| - i
  {
    if i == |paths| then None
    else if Readable(paths[i], pathExists, read) then Some(i)
    else FirstReadableFrom(paths, pathExists, read, i + 1)
  }

  function FirstReadable(paths: seq<string>, pathExists: string -> bool, read: string -> Option<string>): Option<nat> {
    FirstReadableFrom(paths, pathExists, read, 0)
  }

  /** The error that lists every place searched, one per line. */
  function NotFoundMessage(paths: seq<string>): string {
    "Could not find aerogel.toml configuration file in any of the following locations:\n"
    + Join(seq(|paths|, k requires 0 <= k < |paths| => "  - " + paths[k]), '\n')
  }

  /** Reads the first path in list order that exists and can be read; one
      that exists but cannot be read is passed over. */
  method FindAndReadConfig(paths: seq<string>, pathExists: string -> bool, read: string -> Option<string>)
    returns (r: Result<Found, string>)
    ensures match FirstReadable(paths, pathExists, read)
            case None => r == Err(NotFoundMessage(paths))
            case Some(i) => r == Ok(Found(read(paths[i]).value, paths[i]))
  {
    for i := 0 to |paths|
      invariant forall j :: 0 <= j < i ==> !Readable(paths[j], pathExists, read)
    {
      if pathExists(paths[i]) {
        match read(paths[i]) {
          case Some(content) =>
            FirstReadableIs(paths, pathExists, read, i);
            return Ok(Found(content, paths[i]));
          case None =>
        }
      }
    }
    FirstReadableIs(paths, pathExists, read, |paths|);
    return Err(NotFoundMessage(paths));
  }

  /** The first readable path is at `i` when nothing before `i` can be read
      and the one at `i` can; there is none when nothing at all can be read. */
  lemma FirstReadableIs(paths: seq<string>, pathExists: string -> bool, read: string -> Option<string>, i: nat)
    requires i <= |paths|
    requires forall j :: 0 <= j < i ==> !Readable(paths[j], pathExists, read)
    requires i < |paths| ==> Readable(paths[i], pathExists, read)
    ensures FirstReadable(paths, pathExists, read) == if i < |paths| then Some(i) else None
  {
  }

  /** A readable file in the working directory is always the one used. */
  lemma WorkingDirectoryFirst(home: Option<string>, configDir: Option<string>,
                              pathExists: string -> bool, read: string -> Option<string>)
    requires Readable(FILE_NAME, pathExists, read)
    ensures FirstReadable(ConfigPathList(home, configDir), pathExists, read) == Some(0)
  {
    ConfigPathOrder(home, configDir);
  }

  /** The system-wide file is used only when nothing before it can be read. */
  lemma SystemFileLast(home: Option<string>, configDir: Option<string>,
                       pathExists: string -> bool, read: string -> Option<string>)
    requires var paths := ConfigPathList(home, configDir);
             FirstReadable(paths, pathExists, read) == Some(|paths| - 1)
    ensures var paths := ConfigPathList(home, configDir);
            forall j :: 0 <= j < |paths| - 1 ==> !Readable(paths[j], pathExists, read)
    ensures !Readable(FILE_NAME, pathExists, read)
  {
    ConfigPathOrder(home, configDir);
  }
}
