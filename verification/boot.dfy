/**
 * The two pieces of the bootstrap that decide configuration: the merged
 * settings tree (default settings, the project's own settings and the
 * manifest), kept in a preflight store under a key derived from the three
 * files' modification times; and the cache service's driver name and
 * driver configuration.
 */
module Boot {
  import opened Php
  import opened Text
  import opened Cache
  import Plugins

  // ---------------------------------------------------------------------
  // Settings merge and preflight store
  // ---------------------------------------------------------------------

  /** The manifest, the default settings file and the project's settings file. */
  datatype BootPaths = BootPaths(manifest: string, defaults: string, custom: string)

  datatype BootError = MissingDefaultSettings | Unreadable(path: string) | Malformed(path: string)

  /** The preflight key: md5 of the three paths and their modification times (empty when a file is missing). */
  function PreflightKey(paths: BootPaths, fs: Plugins.FileSystem, md5: string -> Plugins.Digest): Plugins.Digest
  {
    md5(paths.manifest + paths.defaults + paths.custom + Plugins.MTimeText(fs, paths.manifest)
        + Plugins.MTimeText(fs, paths.defaults) + Plugins.MTimeText(fs, paths.custom))
  }

  /** The preflight key changes only with the paths or the three files' modification times. */
  lemma PreflightKeyDependsOnTimesOnly(paths: BootPaths, fs1: Plugins.FileSystem, fs2: Plugins.FileSystem,
                                       md5: string -> Plugins.Digest)
    requires Plugins.MTimeText(fs1, paths.manifest) == Plugins.MTimeText(fs2, paths.manifest)
    requires Plugins.MTimeText(fs1, paths.defaults) == Plugins.MTimeText(fs2, paths.defaults)
    requires Plugins.MTimeText(fs1, paths.custom) == Plugins.MTimeText(fs2, paths.custom)
    ensures PreflightKey(paths, fs1, md5) == PreflightKey(paths, fs2, md5)
  {
  }

  /** Blank text reads as `[]`; anything else must parse, though it may parse to a scalar. */
  function ParseUnlessBlank(path: string, content: string, yaml: string -> Option<Value>): (r: Result<Value, BootError>)
    ensures (forall i :: 0 <= i < |content| ==> IsBlank(content[i])) ==> r == Success(Arr(map[]))
    ensures r.Failure? ==> r.error == Malformed(path)
  {
    if Trim(content) == "" then Success(Arr(map[]))
    else match yaml(content)
      case None => Failure(Malformed(path))
      case Some(v) => Success(v)
  }

  /** `array_replace_recursive(['settings' => d], ['settings' => c], ['manifest' => m])`. */
  function MergeOf(d: Value, c: Value, m: Value): (r: map<string, Value>)
    ensures r.Keys == {"settings", "manifest"}
    ensures r["manifest"] == m
    ensures !c.Arr? ==> r["settings"] == c
  {
    ReplaceRecursive(ReplaceRecursive(map["settings" := d], map["settings" := c]), map["manifest" := m])
  }

  /** Every leaf the project's settings define wins over the defaults. */
  lemma CustomSettingsWin(d: Value, c: Value, m: Value, path: seq<string>)
    requires c.Arr? && |path| > 0
    requires Find(c.m, path).Some? && !Find(c.m, path).value.Arr?
    ensures Find(MergeOf(d, c, m), ["settings"] + path) == Find(c.m, path)
  {
    var base := map["settings" := d];
    var over := map["settings" := c];
    assert (["settings"] + path)[1..] == path;
    OverrideWinsAtLeaves(base, over, ["settings"] + path);
    var inner := ReplaceRecursive(base, over);
    assert MergeOf(d, c, m)["settings"] == inner["settings"];
  }

  /** A default the project's settings leave alone survives. */
  lemma DefaultSettingsKept(d: Value, c: Value, m: Value, path: seq<string>)
    requires d.Arr? && c.Arr? && |path| > 0
    requires Find(d.m, path).Some? && Untouched(c.m, path)
    ensures Find(MergeOf(d, c, m), ["settings"] + path) == Find(d.m, path)
  {
    var base := map["settings" := d];
    var over := map["settings" := c];
    assert (["settings"] + path)[1..] == path;
    BaseKeptWhereUntouched(base, over, ["settings"] + path);
    var inner := ReplaceRecursive(base, over);
    assert MergeOf(d, c, m)["settings"] == inner["settings"];
  }

  /**
   * The merged tree. The default settings file must exist; the project's
   * file starts as a copy of it; the manifest must be readable.
   */
  function MergeSettings(paths: BootPaths, fs: Plugins.FileSystem, yaml: string -> Option<Value>)
    : (r: Result<map<string, Value>, BootError>)
    ensures !fs.present(paths.defaults) ==> r == Failure(MissingDefaultSettings)
    ensures r.Success? ==> r.value.Keys == {"settings", "manifest"}
  {
    if !fs.present(paths.defaults) then Failure(MissingDefaultSettings)
    else
      var defaultContent := fs.read(paths.defaults);
      match ParseUnlessBlank(paths.defaults, defaultContent, yaml)
      case Failure(e) => Failure(e)
      case Success(d) =>
        var customContent := if fs.present(paths.custom) then fs.read(paths.custom) else defaultContent;
        match ParseUnlessBlank(paths.custom, customContent, yaml)
        case Failure(e) => Failure(e)
        case Success(c) =>
          if !fs.present(paths.manifest) then Failure(Unreadable(paths.manifest))
          else match ParseUnlessBlank(paths.manifest, fs.read(paths.manifest), yaml)
            case Failure(e) => Failure(e)
            case Success(m) => Success(MergeOf(d, c, m))
  }

  /** With no project settings file yet, the project's settings are the defaults themselves. */
  lemma FirstBootUsesDefaults(paths: BootPaths, fs: Plugins.FileSystem, yaml: string -> Option<Value>)
    requires fs.present(paths.defaults) && !fs.present(paths.custom) && paths.custom != paths.defaults
    requires MergeSettings(paths, fs, yaml).Success?
    ensures var d := ParseUnlessBlank(paths.defaults, fs.read(paths.defaults), yaml);
            d.Success? && d.value.Arr? ==> MergeSettings(paths, fs, yaml).value["settings"] == d.value
  {
    var d := ParseUnlessBlank(paths.defaults, fs.read(paths.defaults), yaml);
    if d.Success? && d.value.Arr? {
      ReplaceRecursiveIdempotent(d.value.m);
      var base := map["settings" := d.value];
      assert ReplaceRecursive(base, base)["settings"] == d.value;
    }
  }

  /**
   * The preflight step: a stored tree under the key is reused; otherwise
   * the tree is merged and stored.
   */
  method LoadSettings(paths: BootPaths, fs: Plugins.FileSystem, yaml: string -> Option<Value>,
                      md5: string -> Plugins.Digest, preflight: CacheStore<map<string, Value>>)
    returns (r: Result<map<string, Value>, BootError>)
    requires preflight.Valid()
    modifies preflight
    ensures preflight.Valid()
    ensures var key := PreflightKey(paths, fs, md5);
            if key in old(preflight.entries) then
              r == Success(old(preflight.entries)[key]) && preflight.entries == old(preflight.entries)
            else
              r == MergeSettings(paths, fs, yaml)
              && preflight.entries == (if r.Success? && preflight.keeps then old(preflight.entries)[key := r.value]
                                       else old(preflight.entries))
  {
    var key := PreflightKey(paths, fs, md5);
    var stored := preflight.Get(key);
    if stored.Some? {
      return Success(stored.value);
    }
    r := MergeSettings(paths, fs, yaml);
    if r.Success? {
      preflight.Set(key, r.value);
    }
  }

  // ---------------------------------------------------------------------
  // Cache driver
  // ---------------------------------------------------------------------

  /** The driver names the cache service has a configuration class for. */
  const KnownDrivers: set<string> := {
    "apcu", "cassandra", "cookie", "couchbase", "couchdb", "devfalse", "devnull", "devtrue", "files",
    "phparray", "leveldb", "memcache", "memcached", "memstatic", "mongodb", "predis", "redis", "riak",
    "sqlite", "ssdb", "wincache", "zenddisk", "zendshm"}

  /** The drivers whose `path` setting names a directory under the temporary folder. */
  const PathDrivers: set<string> := {"files", "sqlite", "leveldb", "phparray"}

  /** `auto`: the first loaded of apcu and wincache, else the file-based array driver. */
  function AutoDriver(apcuLoaded: bool, wincacheLoaded: bool): (name: string)
    ensures name in KnownDrivers
    ensures name == "apcu" <==> apcuLoaded
  {
    if apcuLoaded then "apcu" else if wincacheLoaded then "wincache" else "phparray"
  }

  /**
   * The driver name: a falsy name or `auto` is resolved from the loaded
   * extensions; `cache.enabled` strictly `false` forces `devnull`.
   */
  method SelectDriver(configured: Value, enabled: Value, apcuLoaded: bool, wincacheLoaded: bool)
    returns (driver: Value)
    ensures enabled == Bool(false) ==> driver == Str("devnull")
    ensures enabled != Bool(false) && (!Truthy(configured) || configured == Str("auto"))
            ==> driver == Str(AutoDriver(apcuLoaded, wincacheLoaded))
    ensures enabled != Bool(false) && Truthy(configured) && configured != Str("auto") ==> driver == configured
    ensures driver.Str? && driver.s in KnownDrivers <==>
            enabled == Bool(false) || !Truthy(configured) || configured == Str("auto")
            || (configured.Str? && configured.s in KnownDrivers)
  {
    driver := configured;
    if !Truthy(driver) || driver == Str("auto") {
      if apcuLoaded {
        driver := Str("apcu");
      } else if wincacheLoaded {
        driver := Str("wincache");
      } else {
        driver := Str("phparray");
      }
    }
    if enabled == Bool(false) {
      driver := Str("devnull");
    }
  }

  /** The temporary folder, the system's temporary directory, and the camel-casing of keys. */
  datatype DriverEnv = DriverEnv(tmp: string, sysTemp: string, camel: string -> string)

  /** The configuration key a driver setting is stored under. */
  function Target(driver: string, key: string, env: DriverEnv): string
  {
    if key == "path" && driver in PathDrivers then "path" else env.camel(key)
  }

  /** The configuration value a driver setting is stored as. */
  function Written(driver: string, key: string, value: Value, env: DriverEnv): Value
  {
    if key == "path" && driver in PathDrivers then
      (if Truthy(value) then Str(env.tmp + "/" + StrVal(value)) else Str(env.sysTemp))
    else value
  }

  /** The configuration built from the driver's settings, in their order; a later key overwrites. */
  function DriverConfig(driver: string, settings: seq<(string, Value)>, env: DriverEnv): map<string, Value>
  {
    if settings == [] then map[]
    else
      var (key, value) := settings[|settings| - 1];
      DriverConfig(driver, settings[..|settings| - 1], env)[Target(driver, key, env) := Written(driver, key, value, env)]
  }

  /** `getDriverConfig`. */
  method GetDriverConfig(driver: string, settings: seq<(string, Value)>, env: DriverEnv)
    returns (config: map<string, Value>)
    ensures config == DriverConfig(driver, settings, env)
  {
    config := map[];
    for i := 0 to |settings|
      invariant config == DriverConfig(driver, settings[..i], env)
    {
      assert settings[..i + 1][..i] == settings[..i];
      var (key, value) := settings[i];
      if key == "path" && driver in PathDrivers {
        config := config["path" := if Truthy(value) then Str(env.tmp + "/" + StrVal(value)) else Str(env.sysTemp)];
      } else {
        config := config[env.camel(key) := value];
      }
    }
    assert settings[..|settings|] == settings;
  }

  /** A configuration key is present exactly when some setting is stored under it. */
  lemma {:induction false} DriverConfigKeys(driver: string, settings: seq<(string, Value)>, env: DriverEnv, k: string)
    ensures k in DriverConfig(driver, settings, env) <==>
            exists i :: 0 <= i < |settings| && Target(driver, settings[i].0, env) == k
    decreases |settings|
  {
    if settings != [] {
      var n := |settings| - 1;
      var init := settings[..n];
      DriverConfigKeys(driver, init, env, k);
      if k in DriverConfig(driver, settings, env) {
        if Target(driver, settings[n].0, env) != k {
          var i :| 0 <= i < n && Target(driver, init[i].0, env) == k;
          assert settings[i] == init[i];
        }
      } else {
        forall i | 0 <= i < |settings|
          ensures Target(driver, settings[i].0, env) != k
        {
          if i < n {
            assert settings[i] == init[i];
          }
        }
      }
    }
  }

  /** A key holds what the last setting stored under it wrote. */
  lemma {:induction false} DriverConfigLastWriter(driver: string, settings: seq<(string, Value)>, env: DriverEnv, i: nat)
    requires i < |settings|
    requires forall j :: i < j < |settings| ==> Target(driver, settings[j].0, env) != Target(driver, settings[i].0, env)
    ensures var k := Target(driver, settings[i].0, env);
            k in DriverConfig(driver, settings, env)
            && DriverConfig(driver, settings, env)[k] == Written(driver, settings[i].0, settings[i].1, env)
    decreases |settings|
  {
    var n := |settings| - 1;
    if i < n {
      var init := settings[..n];
      assert init[i] == settings[i];
      forall j | i < j < n
        ensures Target(driver, init[j].0, env) != Target(driver, init[i].0, env)
      {
        assert init[j] == settings[j];
      }
      DriverConfigLastWriter(driver, init, env, i);
    }
  }

  /** `new Cache($driverName, $config)`: a recognised name gets its configuration, any other an empty one. */
  function CacheConfig(driver: Value, settingsFor: string -> seq<(string, Value)>, env: DriverEnv)
    : (config: map<string, Value>)
    ensures !(driver.Str? && driver.s in KnownDrivers) ==> config == map[]
  {
    if driver.Str? && driver.s in KnownDrivers then DriverConfig(driver.s, settingsFor(driver.s), env) else map[]
  }
}
