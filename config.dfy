/** Configuration of the agents (agents/config.py): defaults, then the
    YAML file, then environment variables; and the choice of chat model
    by role and provider. Each dataclass section is a map from attribute
    name to value, so `hasattr` is membership of the key. */
module AgentSettings {
  import opened StrUtil

  /** A YAML value as yaml.safe_load returns it. */
  datatype Value =
    | Str(s: string)
    | Int(i: int)
    | Real(r: real)
    | Bool(b: bool)
    | Null
    | List(items: seq<Value>)
    | Dict(entries: map<string, Value>)

  /** One dataclass instance: attribute name to value. */
  type Section = map<string, Value>

  datatype Config = Config(llm: Section, ollama: Section, github: Section, site: Section,
                           scheduleIntervalMinutes: Value, logLevel: Value)

  function DefaultLlm(): Section
  {
    map["provider" := Str("openrouter"),
        "openrouter_api_key" := Str(""),
        "openrouter_base_url" := Str("https://openrouter.ai/api/v1"),
        "user_model" := Str("meta-llama/llama-3.3-70b-instruct:free"),
        "coder_model" := Str("meta-llama/llama-3.3-70b-instruct:free"),
        "temperature" := Real(0.35)]
  }

  function DefaultOllama(): Section
  {
    map["host" := Str("http://localhost:11434"),
        "user_model" := Str("llama3.2:3b"),
        "admin_model" := Str("deepseek-r1:8b"),
        "coder_model" := Str("qwen2.5-coder:7b"),
        "temperature" := Real(0.35),
        "num_ctx" := Int(8192)]
  }

  function DefaultGitHub(): Section
  {
    map["token" := Str(""), "repo" := Str("KlimDos/my-blog"), "discussions_category" := Str("For Developers")]
  }

  function DefaultSite(): Section
  {
    map["url" := Str("https://blog.alimov.top"), "repo_path" := Str("")]
  }

  /** AgentConfig(). */
  function DefaultConfig(): Config
  {
    Config(DefaultLlm(), DefaultOllama(), DefaultGitHub(), DefaultSite(), Int(60), Str("INFO"))
  }

  /** The attributes of a configuration are those of the dataclasses. */
  predicate WellFormed(cfg: Config)
  {
    && cfg.llm.Keys == DefaultLlm().Keys
    && cfg.ollama.Keys == DefaultOllama().Keys
    && cfg.github.Keys == DefaultGitHub().Keys
    && cfg.site.Keys == DefaultSite().Keys
  }

  /** Python truthiness of a loaded document (`yaml.safe_load(f) or {}`). */
  predicate Falsy(v: Value)
  {
    match v
    case Str(s) => s == ""
    case Int(i) => i == 0
    case Real(r) => r == 0.0
    case Bool(b) => !b
    case Null => true
    case List(items) => |items| == 0
    case Dict(entries) => |entries| == 0
  }

  // ---------------------------------------------------------------------
  // The YAML file
  // ---------------------------------------------------------------------

  /** The setattr loop over one section of the file: each entry naming an
      attribute of the section replaces it; other entries are ignored. */
  method MergeSection(section: Section, entries: map<string, Value>) returns (r: Section)
    ensures r.Keys == section.Keys
    ensures forall k :: k in r ==> r[k] == (if k in entries then entries[k] else section[k])
  {
    r := section;
    var todo := entries.Keys;
    while todo != {}
      invariant todo <= entries.Keys
      invariant r.Keys == section.Keys
      invariant forall k :: k in r ==> r[k] == (if k in entries && k !in todo then entries[k] else section[k])
      decreases |todo|
    {
      var k :| k in todo;
      if k in r {
        r := r[k := entries[k]];
      }
      todo := todo - {k};
    }
  }

  /** The value an attribute takes from the file's section `name`, or its
      previous value when the file does not set it. */
  function FileOr(data: map<string, Value>, name: string, k: string, previous: Value): Value
  {
    if name in data && data[name].Dict? && k in data[name].entries then data[name].entries[k] else previous
  }

  /** Section `name` of a configuration read from `data`: the attributes
      of the dataclass, each set from the file when the file names it. */
  predicate SectionFromFile(sec: Section, defaults: Section, data: map<string, Value>, name: string)
  {
    && sec.Keys == defaults.Keys
    && forall k :: k in sec ==> sec[k] == FileOr(data, name, k, defaults[k])
  }

  /** The file's value of the schedule interval, else the default 60. */
  function ScheduleFrom(data: map<string, Value>): Value
  {
    if "schedule_interval_minutes" in data then data["schedule_interval_minutes"] else Int(60)
  }

  predicate FromFile(cfg: Config, data: map<string, Value>)
  {
    && SectionFromFile(cfg.llm, DefaultLlm(), data, "llm")
    && SectionFromFile(cfg.ollama, DefaultOllama(), data, "ollama")
    && SectionFromFile(cfg.github, DefaultGitHub(), data, "github")
    && SectionFromFile(cfg.site, DefaultSite(), data, "site")
    && cfg.scheduleIntervalMinutes == ScheduleFrom(data)
    && cfg.logLevel == Str("INFO")
  }

  /** The keys load_config looks up in the loaded document. */
  const FileKeys: seq<string> := ["llm", "ollama", "github", "site", "schedule_interval_minutes"]

  /** load_config raises on a truthy document when a section is present
      but is not a mapping (`.items()` fails), and on a document that is
      not a mapping when a lookup of it fails: `in` on a number is a type
      error, and a string or list that passes an `in` test cannot be
      indexed by a string. */
  predicate FileRejected(doc: Value)
  {
    && !Falsy(doc)
    && match doc
       case Dict(e) => exists i :: 0 <= i < 4 && FileKeys[i] in e && !e[FileKeys[i]].Dict?
       case Str(s) => exists i :: 0 <= i < |FileKeys| && Contains(s, FileKeys[i])
       case List(items) => exists i :: 0 <= i < |FileKeys| && Str(FileKeys[i]) in items
       case _ => true
  }

  /** The entries of a mapping document; any other document sets nothing. */
  function DocEntries(doc: Value): map<string, Value>
  {
    if doc.Dict? then doc.entries else map[]
  }

  /** One `if name in data: for k, v in data[name].items(): ...` block. */
  method FileSection(section: Section, entries: map<string, Value>, name: string) returns (r: Result<Section>)
    ensures r.Err? <==> name in entries && !entries[name].Dict?
    ensures r.Ok? ==> r.value.Keys == section.Keys
    ensures r.Ok? ==> forall k :: k in r.value ==> r.value[k] == FileOr(entries, name, k, section[k])
  {
    if name !in entries {
      return Ok(section);
    }
    if !entries[name].Dict? {
      return Err("object has no attribute 'items'");
    }
    var merged := MergeSection(section, entries[name].entries);
    return Ok(merged);
  }

  /** The four section blocks and the schedule interval, for a document
      that is a mapping. */
  method FileMapping(entries: map<string, Value>) returns (r: Result<Config>)
    ensures r.Err? <==> exists i :: 0 <= i < 4 && FileKeys[i] in entries && !entries[FileKeys[i]].Dict?
    ensures r.Ok? ==> WellFormed(r.value) && FromFile(r.value, entries)
  {
    var cfg := DefaultConfig();
    var llm := FileSection(cfg.llm, entries, "llm");
    if llm.Err? { assert FileKeys[0] == "llm"; return Err(llm.msg); }
    var ollama := FileSection(cfg.ollama, entries, "ollama");
    if ollama.Err? { assert FileKeys[1] == "ollama"; return Err(ollama.msg); }
    var github := FileSection(cfg.github, entries, "github");
    if github.Err? { assert FileKeys[2] == "github"; return Err(github.msg); }
    var site := FileSection(cfg.site, entries, "site");
    if site.Err? { assert FileKeys[3] == "site"; return Err(site.msg); }
    r := Ok(Config(llm.value, ollama.value, github.value, site.value, ScheduleFrom(entries), cfg.logLevel));
  }

  /** A document that sets nothing leaves the defaults. */
  lemma DefaultsFromNothing()
    ensures WellFormed(DefaultConfig()) && FromFile(DefaultConfig(), map[])
  {
  }

  /** The file part of load_config; `doc` is None when no path is given or
      the file does not exist. */
  method ApplyFile(doc: Option<Value>) returns (r: Result<Config>)
    ensures doc.None? ==> r == Ok(DefaultConfig())
    ensures doc.Some? ==> (r.Err? <==> FileRejected(doc.value))
    ensures r.Ok? ==> WellFormed(r.value)
    ensures r.Ok? ==> FromFile(r.value, if doc.Some? then DocEntries(doc.value) else map[])
  {
    var cfg := DefaultConfig();
    DefaultsFromNothing();
    if doc.None? || Falsy(doc.value) {
      return Ok(cfg);
    }
    match doc.value {
      case Dict(entries) =>
        r := FileMapping(entries);
      case Str(s) =>
        if exists i :: 0 <= i < |FileKeys| && Contains(s, FileKeys[i]) {
          return Err("string indices must be integers");
        }
        return Ok(cfg);
      case List(items) =>
        if exists i :: 0 <= i < |FileKeys| && Str(FileKeys[i]) in items {
          return Err("list indices must be integers or slices, not str");
        }
        return Ok(cfg);
      case _ =>
        return Err("argument of type is not iterable");
    }
  }

  // ---------------------------------------------------------------------
  // Environment variables
  // ---------------------------------------------------------------------

  /** The variable overriding attribute `k` of section `name`, if one does. */
  function VariableFor(name: string, k: string): Option<string>
  {
    if name == "llm" then
      if k == "provider" then Some("LLM_PROVIDER")
      else if k == "openrouter_api_key" then Some("OPENROUTER_API_KEY")
      else if k == "user_model" then Some("OPENROUTER_MODEL")
      else if k == "coder_model" then Some("OPENROUTER_CODER_MODEL")
      else None
    else if name == "ollama" then
      if k == "host" then Some("OLLAMA_HOST")
      else if k == "user_model" then Some("OLLAMA_USER_MODEL")
      else if k == "admin_model" then Some("OLLAMA_ADMIN_MODEL")
      else None
    else if name == "github" then
      if k == "token" then Some("GITHUB_TOKEN")
      else if k == "repo" then Some("GITHUB_REPO")
      else None
    else if name == "site" then
      if k == "url" then Some("SITE_URL")
      else if k == "repo_path" then Some("BLOG_REPO_PATH")
      else None
    else None
  }

  /** `os.getenv(name, current)`. */
  function GetEnv(env: map<string, string>, name: string, current: Value): (v: Value)
    ensures name in env ==> v == Str(env[name])
    ensures name !in env ==> v == current
  {
    if name in env then Str(env[name]) else current
  }

  /** An attribute after the environment: its variable's value when that
      variable is set, else what it was. */
  function EnvOr(env: map<string, string>, name: string, k: string, previous: Value): Value
  {
    if VariableFor(name, k).Some? then GetEnv(env, VariableFor(name, k).value, previous) else previous
  }

  predicate SectionFromEnv(sec: Section, before: Section, env: map<string, string>, name: string)
  {
    && sec.Keys == before.Keys
    && forall k :: k in sec ==> sec[k] == EnvOr(env, name, k, before[k])
  }

  /** `section.k = os.getenv(variable, section.k)`. */
  function Override(sec: Section, k: string, variable: string, env: map<string, string>): (r: Section)
    requires k in sec
    ensures r.Keys == sec.Keys
    ensures r[k] == GetEnv(env, variable, sec[k])
    ensures forall j :: j in sec && j != k ==> r[j] == sec[j]
  {
    sec[k := GetEnv(env, variable, sec[k])]
  }

  /** The LLM_PROVIDER, OPENROUTER_* overrides of the llm section. */
  method EnvLlm(sec: Section, env: map<string, string>) returns (r: Section)
    requires sec.Keys == DefaultLlm().Keys
    ensures SectionFromEnv(r, sec, env, "llm")
  {
    r := Override(sec, "provider", "LLM_PROVIDER", env);
    r := Override(r, "openrouter_api_key", "OPENROUTER_API_KEY", env);
    r := Override(r, "user_model", "OPENROUTER_MODEL", env);
    r := Override(r, "coder_model", "OPENROUTER_CODER_MODEL", env);
  }

  /** The OLLAMA_* overrides of the ollama section. */
  method EnvOllama(sec: Section, env: map<string, string>) returns (r: Section)
    requires sec.Keys == DefaultOllama().Keys
    ensures SectionFromEnv(r, sec, env, "ollama")
  {
    r := Override(sec, "host", "OLLAMA_HOST", env);
    r := Override(r, "user_model", "OLLAMA_USER_MODEL", env);
    r := Override(r, "admin_model", "OLLAMA_ADMIN_MODEL", env);
  }

  /** The GITHUB_* overrides of the github section. */
  method EnvGitHub(sec: Section, env: map<string, string>) returns (r: Section)
    requires sec.Keys == DefaultGitHub().Keys
    ensures SectionFromEnv(r, sec, env, "github")
  {
    r := Override(sec, "token", "GITHUB_TOKEN", env);
    r := Override(r, "repo", "GITHUB_REPO", env);
  }

  /** The SITE_URL and BLOG_REPO_PATH overrides of the site section. */
  method EnvSite(sec: Section, env: map<string, string>) returns (r: Section)
    requires sec.Keys == DefaultSite().Keys
    ensures SectionFromEnv(r, sec, env, "site")
  {
    r := Override(sec, "url", "SITE_URL", env);
    r := Override(r, "repo_path", "BLOG_REPO_PATH", env);
  }

  /** The environment part of load_config, in the source's order. */
  method ApplyEnv(cfg: Config, env: map<string, string>) returns (r: Config)
    requires WellFormed(cfg)
    ensures WellFormed(r)
    ensures SectionFromEnv(r.llm, cfg.llm, env, "llm")
    ensures SectionFromEnv(r.ollama, cfg.ollama, env, "ollama")
    ensures SectionFromEnv(r.github, cfg.github, env, "github")
    ensures SectionFromEnv(r.site, cfg.site, env, "site")
    ensures r.scheduleIntervalMinutes == cfg.scheduleIntervalMinutes
    ensures r.logLevel == GetEnv(env, "LOG_LEVEL", cfg.logLevel)
  {
    var llm := EnvLlm(cfg.llm, env);
    var ollama := EnvOllama(cfg.ollama, env);
    var github := EnvGitHub(cfg.github, env);
    var site := EnvSite(cfg.site, env);
    r := Config(llm, ollama, github, site, cfg.scheduleIntervalMinutes, GetEnv(env, "LOG_LEVEL", cfg.logLevel));
  }

  /** The value of an attribute after all three layers: an environment
      variable that is set wins, then the file, then the default. */
  function Layered(env: map<string, string>, data: map<string, Value>, name: string, k: string, default: Value): Value
  {
    EnvOr(env, name, k, FileOr(data, name, k, default))
  }

  predicate SectionLayered(sec: Section, defaults: Section, env: map<string, string>,
                           data: map<string, Value>, name: string)
  {
    && sec.Keys == defaults.Keys
    && forall k :: k in sec ==> sec[k] == Layered(env, data, name, k, defaults[k])
  }

  /** A section read from the file and then overridden by the environment
      holds the layered values. */
  lemma LayeredSection(file: Section, sec: Section, defaults: Section, env: map<string, string>,
                       data: map<string, Value>, name: string)
    requires SectionFromFile(file, defaults, data, name)
    requires SectionFromEnv(sec, file, env, name)
    ensures SectionLayered(sec, defaults, env, data, name)
  {
    forall k | k in sec ensures sec[k] == Layered(env, data, name, k, defaults[k]) {
      assert file[k] == FileOr(data, name, k, defaults[k]);
    }
  }

  /** load_config: defaults, then the file, then the environment. */
  method LoadConfig(doc: Option<Value>, env: map<string, string>) returns (r: Result<Config>)
    ensures doc.Some? ==> (r.Err? <==> FileRejected(doc.value))
    ensures doc.None? ==> r.Ok?
    ensures r.Ok? ==> WellFormed(r.value)
    ensures r.Ok? ==>
      var data := if doc.Some? then DocEntries(doc.value) else map[];
      && SectionLayered(r.value.llm, DefaultLlm(), env, data, "llm")
      && SectionLayered(r.value.ollama, DefaultOllama(), env, data, "ollama")
      && SectionLayered(r.value.github, DefaultGitHub(), env, data, "github")
      && SectionLayered(r.value.site, DefaultSite(), env, data, "site")
      && r.value.scheduleIntervalMinutes == ScheduleFrom(data)
      && r.value.logLevel == GetEnv(env, "LOG_LEVEL", Str("INFO"))
  {
    var fromFile := ApplyFile(doc);
    if fromFile.Err? {
      return fromFile;
    }
    var cfg := ApplyEnv(fromFile.value, env);
    ghost var data := if doc.Some? then DocEntries(doc.value) else map[];
    LayeredSection(fromFile.value.llm, cfg.llm, DefaultLlm(), env, data, "llm");
    LayeredSection(fromFile.value.ollama, cfg.ollama, DefaultOllama(), env, data, "ollama");
    LayeredSection(fromFile.value.github, cfg.github, DefaultGitHub(), env, data, "github");
    LayeredSection(fromFile.value.site, cfg.site, DefaultSite(), env, data, "site");
    r := Ok(cfg);
  }

  /** For an attribute with a variable: a set variable decides it, else
      the file, else the default. Attributes without a variable are never
      touched by the environment, and a file key that names no attribute
      of the section has no effect at all. */
  lemma LayeredPrecedence(env: map<string, string>, data: map<string, Value>, name: string, k: string, default: Value)
    ensures VariableFor(name, k).Some? && VariableFor(name, k).value in env ==>
      Layered(env, data, name, k, default) == Str(env[VariableFor(name, k).value])
    ensures (VariableFor(name, k).None? || VariableFor(name, k).value !in env)
            && name in data && data[name].Dict? && k in data[name].entries ==>
      Layered(env, data, name, k, default) == data[name].entries[k]
    ensures (VariableFor(name, k).None? || VariableFor(name, k).value !in env)
            && !(name in data && data[name].Dict? && k in data[name].entries) ==>
      Layered(env, data, name, k, default) == default
  {
  }

  // ---------------------------------------------------------------------
  // create_llm
  // ---------------------------------------------------------------------

  datatype Backend = ChatOllama | ChatOpenAI

  /** The chat model create_llm builds: its class and arguments. */
  datatype Llm = Llm(backend: Backend, model: Value, baseUrl: Value, temperature: Value,
                     apiKey: Option<Value>, numCtx: Option<Value>)

  function OllamaLlm(o: Section, model: Value): Llm
    requires o.Keys == DefaultOllama().Keys
  {
    Llm(ChatOllama, model, o["host"], o["temperature"], None, Some(o["num_ctx"]))
  }

  /** create_llm: the admin role always runs on Ollama's admin model; the
      other roles use OpenRouter when the provider is "openrouter" and
      Ollama otherwise, with the user model for "user" and the coder model
      for every other role. */
  function CreateLlm(cfg: Config, role: string): (m: Llm)
    requires WellFormed(cfg)
    ensures m.backend == ChatOpenAI <==> role != "admin" && cfg.llm["provider"] == Str("openrouter")
    ensures role == "admin" ==> m.model == cfg.ollama["admin_model"]
    ensures m.backend == ChatOllama ==>
      m.baseUrl == cfg.ollama["host"] && m.temperature == cfg.ollama["temperature"]
      && m.numCtx == Some(cfg.ollama["num_ctx"]) && m.apiKey.None?
    ensures m.backend == ChatOpenAI ==>
      m.model == cfg.llm[if role == "user" then "user_model" else "coder_model"]
      && m.apiKey == Some(cfg.llm["openrouter_api_key"])
      && m.baseUrl == cfg.llm["openrouter_base_url"] && m.temperature == cfg.llm["temperature"]
    ensures m.backend == ChatOllama && role != "admin" ==>
      m.model == cfg.ollama[if role == "user" then "user_model" else "coder_model"]
  {
    var o := cfg.ollama;
    var l := cfg.llm;
    if role == "admin" then OllamaLlm(o, o["admin_model"])
    else if l["provider"] == Str("openrouter") then
      Llm(ChatOpenAI, if role == "user" then l["user_model"] else l["coder_model"],
          l["openrouter_base_url"], l["temperature"], Some(l["openrouter_api_key"]), None)
    else OllamaLlm(o, if role == "user" then o["user_model"] else o["coder_model"])
  }

  /** The admin model does not depend on the provider setting. */
  lemma AdminIgnoresProvider(cfg: Config, provider: Value)
    requires WellFormed(cfg)
    ensures var other := cfg.(llm := cfg.llm["provider" := provider]);
      WellFormed(other) && CreateLlm(other, "admin") == CreateLlm(cfg, "admin")
  {
  }

  /** With LLM_PROVIDER set to anything but "openrouter", no role gets an
      OpenRouter model, whatever the file says. */
  lemma ProviderVariableDecides(cfg: Config, env: map<string, string>, data: map<string, Value>, role: string)
    requires WellFormed(cfg)
    requires SectionLayered(cfg.llm, DefaultLlm(), env, data, "llm")
    requires "LLM_PROVIDER" in env && env["LLM_PROVIDER"] != "openrouter"
    ensures CreateLlm(cfg, role).backend == ChatOllama
  {
    assert "provider" in DefaultLlm();
  }
}
