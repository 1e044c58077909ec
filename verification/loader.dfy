/**
 * The plugin manager's boot step (`init`): discover the plugin
 * directories, reuse the activation set cached under the key derived from
 * their files' modification times, or else load, sort, filter and check
 * the plugins and cache the result; then `require_once` each enabled
 * plugin's script. The registry entry `plugins` is kept as an ordered
 * field of the manager.
 */
module PluginLoader {
  import opened Php
  import opened Runtime
  import opened Cache
  import opened Plugins
  import opened Dependencies

  /** What a fresh activation produces. */
  datatype Activation =
    | Active(plugins: seq<Plugin>)
    | LoadFailed(error: LoadError)
    | Halted(missing: seq<string>)

  /** The state `init` ends in: running, or stopped by an exception or by the dependency alert. */
  datatype Status = Ready | Failed(error: LoadError) | Stopped(missing: seq<string>)

  /** Load every listed plugin, sort by priority, drop the key, keep the enabled ones, check dependencies. */
  function Activate(project: string, list: seq<string>, fs: FileSystem,
                    yaml: string -> Option<map<string, Value>>, host: Host): Activation
  {
    match LoadPlugins(project, list, fs, yaml)
    case Failure(e) => LoadFailed(e)
    case Success(ps) =>
      match Validate(EnabledOnly(StripPriority(SortByPriority(ps))), host)
      case Failure(missing) => Halted(missing)
      case Success(plugins) => Active(plugins)
  }

  /**
   * An activation set has distinct keys drawn from the plugin list, holds
   * only enabled plugins whose dependencies all hold, carries no sort key,
   * and is ordered by ascending settings priority.
   */
  lemma ActiveCollection(project: string, list: seq<string>, fs: FileSystem,
                         yaml: string -> Option<map<string, Value>>, host: Host)
    requires NoDuplicates(list)
    requires Activate(project, list, fs, yaml, host).Active?
    ensures var r := Activate(project, list, fs, yaml, host).plugins;
            && UniqueNames(r)
            && SortedBySettings(r)
            && AllPass(r, host)
            && (forall q :: q in r ==> IsEnabled(q) && "_priority" !in q.data && q.name in list)
  {
    LoadPluginsShape(project, list, fs, yaml);
    var ps := LoadPlugins(project, list, fs, yaml).value;
    var stripped := StripPriority(SortByPriority(ps));
    OrderedCollection(ps, list);
    var enabled := EnabledOnly(stripped);
    EnabledCollection(stripped, list);
    ValidateSucceeds(enabled, host);
  }

  /** After sorting and dropping the key: distinct listed names, ordered by settings priority. */
  lemma OrderedCollection(ps: seq<Plugin>, list: seq<string>)
    requires NoDuplicates(list) && Names(ps) == list
    requires forall i :: 0 <= i < |ps| ==> Keyed(ps[i])
    ensures var r := StripPriority(SortByPriority(ps));
            && UniqueNames(r) && SortedBySettings(r)
            && forall q :: q in r ==> "_priority" !in q.data && q.name in list
  {
    StrippedUnique(ps);
    assert forall q :: q in ps ==> Keyed(q);
    SortedCollection(ps);
    StrippedListed(ps, list);
  }

  lemma StrippedUnique(ps: seq<Plugin>)
    requires NoDuplicates(Names(ps))
    ensures UniqueNames(StripPriority(SortByPriority(ps)))
  {
    var sorted := SortByPriority(ps);
    var r := StripPriority(sorted);
    UniqueNamesOfNames(ps);
    SortKeepsUniqueNames(ps);
    forall i, j | 0 <= i < j < |r|
      ensures r[i].name != r[j].name
    {
      assert r[i].name == sorted[i].name && r[j].name == sorted[j].name;
    }
  }

  lemma StrippedListed(ps: seq<Plugin>, list: seq<string>)
    requires Names(ps) == list
    requires forall n :: n in Names(StripPriority(SortByPriority(ps))) <==> n in Names(ps)
    ensures forall q :: q in StripPriority(SortByPriority(ps)) ==> q.name in list
  {
    var r := StripPriority(SortByPriority(ps));
    forall q | q in r
      ensures q.name in list
    {
      var i :| 0 <= i < |r| && r[i] == q;
      assert Names(r)[i] == q.name;
    }
  }

  /** After keeping the enabled entries: still distinct, ordered, keyless and listed, and all enabled. */
  lemma EnabledCollection(stripped: seq<Plugin>, list: seq<string>)
    requires UniqueNames(stripped) && SortedBySettings(stripped)
    requires forall q :: q in stripped ==> "_priority" !in q.data && q.name in list
    ensures var r := EnabledOnly(stripped);
            && UniqueNames(r) && SortedBySettings(r)
            && forall q :: q in r ==> IsEnabled(q) && "_priority" !in q.data && q.name in list
  {
    EnabledKeepsUniqueNames(stripped);
    EnabledKeepsSettingsOrder(stripped);
    forall q | q in EnabledOnly(stripped)
      ensures IsEnabled(q) && q in stripped
    {
      EnabledOnlyExact(stripped, q);
    }
  }

  /** The scripts `includeEnabledPlugins` requires, in collection order. */
  function EnabledScripts(project: string, ps: seq<Plugin>): (r: seq<string>)
    ensures |r| <= |ps|
  {
    if ps == [] then []
    else
      var before := EnabledScripts(project, ps[..|ps| - 1]);
      var p := ps[|ps| - 1];
      if IsEnabled(p) then before + [ScriptFile(project, p.name)] else before
  }

  /** Exactly the enabled plugins' scripts are required. */
  lemma {:induction false} EnabledScriptsExact(project: string, ps: seq<Plugin>, f: string)
    ensures f in EnabledScripts(project, ps) <==> exists q :: q in ps && IsEnabled(q) && f == ScriptFile(project, q.name)
    decreases |ps|
  {
    if ps != [] {
      var init := ps[..|ps| - 1];
      EnabledScriptsExact(project, init, f);
      assert ps == init + [ps[|ps| - 1]];
    }
  }

  lemma EnabledScriptsOneMore(project: string, ps: seq<Plugin>, i: nat)
    requires i < |ps|
    ensures EnabledScripts(project, ps[..i + 1])
            == EnabledScripts(project, ps[..i]) + (if IsEnabled(ps[i]) then [ScriptFile(project, ps[i].name)] else [])
  {
    assert ps[..i + 1][..i] == ps[..i];
  }

  /** One more entry of the collection: its script is required when it is enabled. */
  lemma IncludeStep(project: string, start: seq<string>, ps: seq<Plugin>, i: nat)
    requires i < |ps|
    ensures var before := LoadAll(start, EnabledScripts(project, ps[..i]));
            var f := ScriptFile(project, ps[i].name);
            LoadAll(start, EnabledScripts(project, ps[..i + 1]))
            == if !IsEnabled(ps[i]) || f in before then before else before + [f]
  {
    var done := EnabledScripts(project, ps[..i]);
    EnabledScriptsOneMore(project, ps, i);
    if IsEnabled(ps[i]) {
      LoadOneMore(start, done, ScriptFile(project, ps[i].name));
    } else {
      assert done + [] == done;
    }
  }

  /** The discovered plugin list, given the listing of the plugins folder. */
  function ListOf(project: string, listing: Option<seq<string>>, fs: FileSystem): seq<string>
  {
    if listing.None? then [] else Discovered(listing.value, project, fs)
  }

  function CacheKey(project: string, list: seq<string>, fs: FileSystem, md5: string -> Digest): Digest
  {
    md5("plugins" + project + "/plugins/" + Stamp(list, project, fs))
  }

  class Manager {
    /** The registry entry `plugins`. */
    var registered: seq<Plugin>
    const project: string

    constructor (project: string)
      ensures registered == [] && this.project == project
    {
      registered := [];
      this.project := project;
    }

    /** `includeEnabledPlugins`: `require_once` every enabled plugin's script, in collection order. */
    method IncludeEnabled(runtime: Includes)
      modifies runtime
      ensures runtime.files == LoadAll(old(runtime.files), EnabledScripts(project, registered))
      ensures NoDuplicates(old(runtime.files)) ==> NoDuplicates(runtime.files)
    {
      if |registered| == 0 {
        return;
      }
      var ps := registered;
      ghost var start := runtime.files;
      for i := 0 to |ps|
        invariant runtime.files == LoadAll(start, EnabledScripts(project, ps[..i]))
        invariant NoDuplicates(start) ==> NoDuplicates(runtime.files)
      {
        IncludeStep(project, start, ps, i);
        if IsEnabled(ps[i]) {
          runtime.IncludeOnce(ScriptFile(project, ps[i].name));
        }
      }
      assert ps[..|ps|] == ps;
    }

    /**
     * `init`. An empty plugin list leaves nothing registered. A cached
     * activation set is reused as it is. Otherwise the set is computed;
     * a loading error or a dependency alert stops the boot before anything
     * is registered, cached or required.
     */
    method Init(listing: Option<seq<string>>, fs: FileSystem, yaml: string -> Option<map<string, Value>>,
                md5: string -> Digest, host: Host, cache: CacheStore<seq<Plugin>>, runtime: Includes)
      returns (status: Status)
      requires cache.Valid()
      modifies this, cache, runtime
      ensures cache.Valid()
      ensures var list := ListOf(project, listing, fs);
              var key := CacheKey(project, list, fs, md5);
              if list == [] then
                status == Ready && registered == [] && cache.entries == old(cache.entries)
              else if key in old(cache.entries) then
                status == Ready && registered == old(cache.entries)[key] && cache.entries == old(cache.entries)
              else match Activate(project, list, fs, yaml, host)
                case Active(ps) =>
                  status == Ready && registered == ps
                  && cache.entries == (if cache.keeps then old(cache.entries)[key := ps] else old(cache.entries))
                case LoadFailed(e) =>
                  status == Failed(e) && registered == [] && cache.entries == old(cache.entries)
                case Halted(missing) =>
                  status == Stopped(missing) && registered == [] && cache.entries == old(cache.entries)
      ensures status == Ready ==> runtime.files == LoadAll(old(runtime.files), EnabledScripts(project, registered))
      ensures status != Ready ==> runtime.files == old(runtime.files)
    {
      registered := [];
      var list := GetPluginsList(project, listing, fs);
      var key := GetPluginsCacheId(list, project, fs, md5);
      if |list| == 0 {
        return Ready;
      }
      var hit := cache.Has(key);
      if hit {
        var cached := cache.Get(key);
        registered := cached.value;
      } else {
        var loaded := LoadAllPlugins(project, list, fs, yaml);
        if loaded.Failure? {
          return Failed(loaded.error);
        }
        var sorted := SortByPriority(loaded.value);
        var stripped := StripPriority(sorted);
        var enabled := GetEnabledPlugins(stripped);
        var checked := GetValidPluginsDependencies(enabled, host);
        if checked.Failure? {
          return Stopped(checked.error);
        }
        registered := checked.value;
        cache.Set(key, registered);
      }
      IncludeEnabled(runtime);
      status := Ready;
    }
  }
}
