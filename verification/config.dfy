/** The JSON configuration file (`firekey/config.py`): loading merges the
    defaults under what the file holds and writes the result back when it
    differs, and `ensure_api_key` prompts until it gets a non-blank key. */
module Config {
  import opened Base
  import opened Strings

  type ConfigMap = map<string, Json>

  const DefaultConfig: ConfigMap :=
    map["api_key" := JStr(""), "default_model" := JStr("gpt-4o-mini"), "default_creativity" := JNum("0.4")]

  /** What reading the file gives: no file; a file whose reading fails with
      an `OSError` or whose text is not JSON (`JSONDecodeError`), both of
      which `load` catches (the model's writes always succeed, so a path
      that cannot be read is taken to be one that can still be written); a file whose bytes are not UTF-8, whose
      `UnicodeDecodeError` `load` does not catch; or the JSON document it
      holds. */
  datatype ConfigFile = Missing | Unreadable | NotUtf8 | Contents(data: Json)

  /** What `load` and `ensure_api_key` raise: the `UnicodeDecodeError` of a
      file that is not UTF-8, or the end of the prompt's input (Python's
      `input` raises `EOFError`) before a non-blank answer arrives. */
  datatype ConfigError = UndecodableFile | EndOfInput

  /** `DEFAULT_CONFIG.copy()` updated with `data`: every file key wins. */
  function Merge(data: ConfigMap): ConfigMap
  {
    DefaultConfig + data
  }

  /** The merged configuration keeps every key of the file with its value,
      and has each default key the file lacks with its default value. */
  lemma MergeKeeps(data: ConfigMap)
    ensures Merge(data).Keys == DefaultConfig.Keys + data.Keys
    ensures forall k :: k in data ==> Merge(data)[k] == data[k]
    ensures forall k :: k in DefaultConfig && k !in data ==> Merge(data)[k] == DefaultConfig[k]
  {
  }

  /** The merge changes the file's mapping exactly when one of the default
      keys is missing from it. */
  lemma MergeChangesIff(data: ConfigMap)
    ensures Merge(data) == data <==> DefaultConfig.Keys <= data.Keys
  {
    if DefaultConfig.Keys <= data.Keys {
      assert Merge(data).Keys == data.Keys;
      forall k | k in data ensures Merge(data)[k] == data[k] {
      }
    } else {
      var k :| k in DefaultConfig.Keys && k !in data.Keys;
      assert k in Merge(data);
    }
  }

  /** The mapping `load` reads from the file: an object's entries, and
      nothing for anything else (no file, an unreadable file, or JSON that
      is not an object). */
  function FileData(file: ConfigFile): ConfigMap
  {
    if file.Contents? && file.data.JObj? then file.data.fields else map[]
  }

  /** The configuration `load` produces, or the decoding error it lets
      through. */
  function Loaded(file: ConfigFile): (r: Result<ConfigMap, ConfigError>)
    ensures r.Err? <==> file.NotUtf8?
    ensures r.Err? ==> r.error == UndecodableFile
    ensures r.Ok? ==> DefaultConfig.Keys <= r.value.Keys
  {
    if file.NotUtf8? then Err(UndecodableFile)
    else if file.Missing? then Ok(DefaultConfig)
    else Ok(Merge(FileData(file)))
  }

  /** The file after `load`: the defaults are written when there was none,
      the merged configuration when it differs from what was read, and
      otherwise (a file that is not UTF-8 included) the file is left alone. */
  function FileAfterLoad(file: ConfigFile): ConfigFile
  {
    if file.NotUtf8? then file
    else if file.Missing? then Contents(JObj(DefaultConfig))
    else if FileData(file) != Merge(FileData(file)) then Contents(JObj(Merge(FileData(file))))
    else file
  }

  /** A missing file yields exactly the defaults, which are then written. */
  lemma MissingGivesDefaults()
    ensures Loaded(Missing) == Ok(DefaultConfig)
    ensures FileAfterLoad(Missing) == Contents(JObj(DefaultConfig))
  {
  }

  /** A file whose reading raises `OSError` or `JSONDecodeError`, or one
      that is not a JSON object, loads as the defaults and is overwritten
      with them, provided the path can be written. */
  lemma UnusableGivesDefaults(file: ConfigFile)
    requires file.Unreadable? || (file.Contents? && !file.data.JObj?)
    ensures Loaded(file) == Ok(DefaultConfig)
    ensures FileAfterLoad(file) == Contents(JObj(DefaultConfig))
  {
    assert Merge(map[]) == DefaultConfig;
    assert map[] != DefaultConfig by {
      assert "api_key" in DefaultConfig;
    }
  }

  /** The file is rewritten exactly when it is missing, unusable, or lacks
      one of the default keys; a file that is not UTF-8 is never rewritten. */
  lemma RewriteIff(file: ConfigFile)
    ensures FileAfterLoad(file) == file <==>
      file.NotUtf8? || (file.Contents? && file.data.JObj? && DefaultConfig.Keys <= file.data.fields.Keys)
  {
    MergeChangesIff(FileData(file));
    if file.Unreadable? || (file.Contents? && !file.data.JObj?) {
      UnusableGivesDefaults(file);
    }
  }

  /** Loading again what a load left behind changes nothing: the same
      configuration, and no second write. */
  lemma LoadSettles(file: ConfigFile)
    ensures Loaded(FileAfterLoad(file)) == Loaded(file)
    ensures FileAfterLoad(FileAfterLoad(file)) == FileAfterLoad(file)
  {
    if !file.NotUtf8? {
      var after := FileAfterLoad(file);
      var cfg := Loaded(file).value;
      assert FileData(after) == cfg || after == file;
      MergeChangesIff(cfg);
      MergeChangesIff(FileData(file));
      if after != file {
        assert FileData(after) == cfg;
        assert DefaultConfig.Keys <= FileData(after).Keys;
      }
    }
  }

  /** `str(value)` for the JSON values a configuration holds. Containers are
      shown by a placeholder (their rendering is not part of the model). */
  function PyStr(v: Json): string
  {
    match v
    case JNull => "None"
    case JBool(b) => if b then "True" else "False"
    case JNum(literal) => literal
    case JStr(s) => s
    case JArr(_) => "[...]"
    case JObj(_) => "{...}"
  }

  /** `str(config.get("api_key", "")).strip()` */
  function StoredKey(cfg: ConfigMap): string
  {
    Strip(PyStr(if "api_key" in cfg then cfg["api_key"] else JStr("")))
  }

  /** The index of the first answer from `i` on that is not blank. */
  function FirstNonBlank(answers: seq<string>, i: nat): (r: Option<nat>)
    requires i <= |answers|
    ensures r.Some? ==> i <= r.value < |answers| && Strip(answers[r.value]) != ""
    ensures r.Some? ==> forall j :: i <= j < r.value ==> Strip(answers[j]) == ""
    ensures r.None? ==> forall j :: i <= j < |answers| ==> Strip(answers[j]) == ""
    decreases |answers| - i
  {
    if i == |answers| then None
    else if Strip(answers[i]) != "" then Some(i)
    else FirstNonBlank(answers, i + 1)
  }

  /** `ensure_api_key` on a loaded configuration, with `answers` the lines
      the prompt returns in turn: the key returned and the configuration
      afterwards. */
  function KeyOutcome(cfg: ConfigMap, answers: seq<string>): (Result<string, ConfigError>, ConfigMap)
  {
    if StoredKey(cfg) != "" then (Ok(StoredKey(cfg)), cfg)
    else match FirstNonBlank(answers, 0)
      case None => (Err(EndOfInput), cfg)
      case Some(i) => (Ok(Strip(answers[i])), cfg["api_key" := JStr(Strip(answers[i]))])
  }

  /** A non-blank stored key is returned as it is and nothing is asked or
      changed. */
  lemma StoredKeyKept(cfg: ConfigMap, answers: seq<string>)
    requires StoredKey(cfg) != ""
    ensures KeyOutcome(cfg, answers) == (Ok(StoredKey(cfg)), cfg)
    ensures Strip(StoredKey(cfg)) == StoredKey(cfg)
  {
    StripIdempotent(PyStr(if "api_key" in cfg then cfg["api_key"] else JStr("")));
  }

  /** Without a stored key, the first non-blank answer, stripped, is stored
      and returned; every blank answer before it leaves the configuration as
      it was; the stored key then reads back as the one returned. */
  lemma EnteredKeyStored(cfg: ConfigMap, answers: seq<string>, i: nat)
    requires StoredKey(cfg) == ""
    requires i < |answers| && Strip(answers[i]) != ""
    requires forall j :: 0 <= j < i ==> Strip(answers[j]) == ""
    ensures var key := Strip(answers[i]);
      && KeyOutcome(cfg, answers) == (Ok(key), cfg["api_key" := JStr(key)])
      && StoredKey(cfg["api_key" := JStr(key)]) == key
  {
    var first := FirstNonBlank(answers, 0);
    assert first == Some(i);
    var key := Strip(answers[i]);
    var cfg' := cfg["api_key" := JStr(key)];
    assert StoredKey(cfg') == Strip(key) by {
      assert "api_key" in cfg' && cfg'["api_key"] == JStr(key);
      assert PyStr(JStr(key)) == key;
    }
    StripIdempotent(answers[i]);
  }

  /** Without a stored key, the prompt fails exactly when every answer is
      blank, and then nothing changes. */
  lemma NoKeyWithoutAnswer(cfg: ConfigMap, answers: seq<string>)
    requires StoredKey(cfg) == ""
    ensures KeyOutcome(cfg, answers).0.Err? <==> forall i :: 0 <= i < |answers| ==> Strip(answers[i]) == ""
    ensures KeyOutcome(cfg, answers).0.Err? ==> KeyOutcome(cfg, answers).1 == cfg
  {
    var first := FirstNonBlank(answers, 0);
    if first.Some? {
      assert Strip(answers[first.value]) != "";
    }
  }

  /** The answers of the interactive test: two blank ones, then the key. */
  lemma PromptsUntilValue(cfg: ConfigMap)
    requires StoredKey(cfg) == ""
    ensures KeyOutcome(cfg, ["", "  ", "secret-key"]) ==
      (Ok("secret-key"), cfg["api_key" := JStr("secret-key")])
  {
    var answers := ["", "  ", "secret-key"];
    assert Strip("") == "";
    assert Strip("  ") == "" by {
      assert SkipSpaces("  ", 0) == 2;
    }
    assert Strip("secret-key") == "secret-key" by {
      StripStripped("secret-key");
    }
    assert FirstNonBlank(answers, 0) == Some(2);
  }

  class ConfigManager {
    const configPath: string
    /** The configuration file on disk. */
    var file: ConfigFile
    /** `_config`: `None` until loaded. */
    var config: Option<ConfigMap>

    constructor (configPath: string, file: ConfigFile)
      ensures this.configPath == configPath && this.file == file && config == None
    {
      this.configPath := configPath;
      this.file := file;
      config := None;
    }

    /** `save`: write the loaded configuration, or do nothing before a load. */
    method Save()
      modifies this
      ensures config == old(config)
      ensures file == if config.Some? then Contents(JObj(config.value)) else old(file)
    {
      if config.None? {
        return;
      }
      file := Contents(JObj(config.value));
    }

    /** `load`: the configuration is set and returned, or, for a file that
        is not UTF-8, the error is raised with the configuration and the
        file as they were. */
    method Load() returns (r: Result<ConfigMap, ConfigError>)
      modifies this
      ensures r == Loaded(old(file))
      ensures config == if r.Ok? then Some(r.value) else old(config)
      ensures file == FileAfterLoad(old(file))
    {
      if file.Missing? {
        config := Some(DefaultConfig);
        Save();
        return Ok(DefaultConfig);
      }
      if file.NotUtf8? {
        return Err(UndecodableFile);
      }
      var data: ConfigMap := map[];
      if file.Contents? && file.data.JObj? {
        data := file.data.fields;
      }
      var merged := DefaultConfig + data;
      config := Some(merged);
      if data != merged {
        Save();
      }
      r := Ok(merged);
    }

    /** The `config` property: load on first use, which may raise. */
    method GetConfig() returns (r: Result<ConfigMap, ConfigError>)
      modifies this
      ensures old(config).Some? ==> r == Ok(old(config).value) && file == old(file)
      ensures old(config).None? ==> r == Loaded(old(file)) && file == FileAfterLoad(old(file))
      ensures config == if r.Ok? then Some(r.value) else old(config)
    {
      if config.None? {
        r := Load();
      } else {
        r := Ok(config.value);
      }
    }

    /** `ensure_api_key`, with the prompt's answers given in advance. The
        configuration it starts from is the loaded one (loading it first if
        need be); a key typed in is stored and saved. */
    method EnsureApiKey(answers: seq<string>) returns (r: Result<string, ConfigError>)
      modifies this
      ensures old(config).None? && old(file).NotUtf8? ==>
        r == Err(UndecodableFile) && config == old(config) && file == old(file)
      ensures old(config).Some? || !old(file).NotUtf8? ==>
        var cfg := if old(config).Some? then old(config).value else Loaded(old(file)).value;
        var loadedFile := if old(config).Some? then old(file) else FileAfterLoad(old(file));
        var (key, cfg') := KeyOutcome(cfg, answers);
        && r == key && config == Some(cfg')
        && file == if StoredKey(cfg) == "" && r.Ok? then Contents(JObj(cfg')) else loadedFile
    {
      var got := GetConfig();
      if got.Err? {
        return Err(got.error);
      }
      var cfg := got.value;
      var apiKey := StoredKey(cfg);
      if apiKey != "" {
        return Ok(apiKey);
      }
      ghost var loadedFile := file;
      var i := 0;
      while i < |answers|
        invariant 0 <= i <= |answers|
        invariant FirstNonBlank(answers, 0) == FirstNonBlank(answers, i)
        invariant config == Some(cfg) && file == loadedFile
      {
        var userInput := Strip(answers[i]);
        if userInput != "" {
          config := Some(cfg["api_key" := JStr(userInput)]);
          Save();
          return Ok(userInput);
        }
        i := i + 1;
      }
      r := Err(EndOfInput);
    }
  }
}
