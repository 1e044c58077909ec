/**
 * The plugin activation set: which plugin directories count as installed,
 * the cache key derived from their files' modification times, each
 * plugin's effective settings, the ordering by priority and the selection
 * of enabled plugins. A plugin collection is an ordered PHP array keyed by
 * plugin name; it is modelled as a sequence of named entries.
 */
module Plugins {
  import opened Php
  import opened Text
  import opened Runtime

  /** `$plugins[$name] = $data`: one entry of the plugin collection. */
  datatype Plugin = Plugin(name: string, data: map<string, Value>)

  function Names(ps: seq<Plugin>): (r: seq<string>)
    ensures |r| == |ps| && forall i :: 0 <= i < |ps| ==> r[i] == ps[i].name
  {
    if ps == [] then [] else Names(ps[..|ps| - 1]) + [ps[|ps| - 1].name]
  }

  lemma NamesSnoc(ps: seq<Plugin>, p: Plugin)
    ensures Names(ps + [p]) == Names(ps) + [p.name]
  {
    assert (ps + [p])[..|ps|] == ps;
  }

  /** The keys of a PHP array are distinct. */
  predicate UniqueNames(ps: seq<Plugin>)
  {
    forall i, j :: 0 <= i < j < |ps| ==> ps[i].name != ps[j].name
  }

  /**
   * The part of the filesystem the loader reads: whether a file exists,
   * its content, and its modification time.
   */
  datatype FileSystem = FileSystem(present: string -> bool, read: string -> string, mtime: string -> int)

  function ScriptFile(project: string, name: string): string
  {
    project + "/plugins/" + name + "/plugin.php"
  }

  function ManifestFile(project: string, name: string): string
  {
    project + "/plugins/" + name + "/plugin.yaml"
  }

  function DefaultSettingsFile(project: string, name: string): string
  {
    project + "/plugins/" + name + "/settings.yaml"
  }

  function ProjectSettingsFile(project: string, name: string): string
  {
    project + "/config/plugins/" + name + "/settings.yaml"
  }

  // ---------------------------------------------------------------------
  // getPluginsList
  // ---------------------------------------------------------------------

  /** A plugin directory holds all three required files. */
  predicate Installable(project: string, name: string, fs: FileSystem)
  {
    fs.present(ScriptFile(project, name)) && fs.present(ManifestFile(project, name))
    && fs.present(DefaultSettingsFile(project, name))
  }

  /** The installable directories of a listing, in listing order, each once. */
  function Discovered(dirs: seq<string>, project: string, fs: FileSystem): seq<string>
  {
    if dirs == [] then []
    else
      var before := Discovered(dirs[..|dirs| - 1], project, fs);
      var d := dirs[|dirs| - 1];
      if Installable(project, d, fs) && d !in before then before + [d] else before
  }

  /** A directory is listed iff it is in the plugins folder and holds the three files. */
  lemma {:induction false} DiscoveredExact(dirs: seq<string>, project: string, fs: FileSystem, name: string)
    ensures name in Discovered(dirs, project, fs) <==> name in dirs && Installable(project, name, fs)
    decreases |dirs|
  {
    if dirs != [] {
      var init := dirs[..|dirs| - 1];
      DiscoveredExact(init, project, fs, name);
      assert dirs == init + [dirs[|dirs| - 1]];
    }
  }

  lemma {:induction false} DiscoveredUnique(dirs: seq<string>, project: string, fs: FileSystem)
    ensures NoDuplicates(Discovered(dirs, project, fs))
    decreases |dirs|
  {
    if dirs != [] {
      DiscoveredUnique(dirs[..|dirs| - 1], project, fs);
    }
  }

  /**
   * `getPluginsList`: the plugin directory names, given the basenames of
   * the plugins folder's subdirectories (`None` when the folder is missing).
   */
  method GetPluginsList(project: string, listing: Option<seq<string>>, fs: FileSystem)
    returns (list: seq<string>)
    ensures list == if listing.None? then [] else Discovered(listing.value, project, fs)
  {
    list := [];
    if listing.None? {
      return;
    }
    var dirs := listing.value;
    for i := 0 to |dirs|
      invariant list == Discovered(dirs[..i], project, fs)
    {
      assert dirs[..i + 1][..i] == dirs[..i];
      var name := dirs[i];
      if Installable(project, name, fs) && name !in list {
        list := list + [name];
      }
    }
    assert dirs[..|dirs|] == dirs;
  }

  // ---------------------------------------------------------------------
  // getPluginsCacheID
  // ---------------------------------------------------------------------

  /** A file's modification time as text; a missing file contributes nothing. */
  function MTimeText(fs: FileSystem, path: string): string
  {
    if fs.present(path) then IntToDecimal(fs.mtime(path)) else ""
  }

  /** The three modification times of one plugin. */
  function PluginStamp(project: string, name: string, fs: FileSystem): string
  {
    MTimeText(fs, DefaultSettingsFile(project, name)) + MTimeText(fs, ManifestFile(project, name))
      + MTimeText(fs, ProjectSettingsFile(project, name))
  }

  /** The modification times of all plugins, concatenated in list order. */
  function Stamp(list: seq<string>, project: string, fs: FileSystem): string
  {
    if list == [] then "" else Stamp(list[..|list| - 1], project, fs) + PluginStamp(project, list[|list| - 1], fs)
  }

  predicate IsHexDigest(s: string)
  {
    |s| == 32 && forall i :: 0 <= i < |s| ==> IsDigit(s[i]) || 'a' <= s[i] <= 'f'
  }

  /** What `md5` returns: 32 lower-case hexadecimal digits. */
  type Digest = s: string | IsHexDigest(s) witness "00000000000000000000000000000000"

  /** `getPluginsCacheID`: the md5 of a fixed prefix and all the modification times. */
  method GetPluginsCacheId(list: seq<string>, project: string, fs: FileSystem, md5: string -> Digest)
    returns (id: Digest)
    ensures id == md5("plugins" + project + "/plugins/" + Stamp(list, project, fs))
  {
    var acc := "";
    for i := 0 to |list|
      invariant acc == Stamp(list[..i], project, fs)
    {
      assert list[..i + 1][..i] == list[..i];
      var name := list[i];
      var f1 := MTimeText(fs, DefaultSettingsFile(project, name));
      var f2 := MTimeText(fs, ManifestFile(project, name));
      var f3 := MTimeText(fs, ProjectSettingsFile(project, name));
      acc := acc + (f1 + f2 + f3);
      assert acc == Stamp(list[..i + 1], project, fs);
    }
    assert list[..|list|] == list;
    id := md5("plugins" + project + "/plugins/" + acc);
  }

  /** Two filesystems that agree on the plugins' three files agree on the plugin files' part. */
  predicate SameStampFiles(list: seq<string>, project: string, fs1: FileSystem, fs2: FileSystem)
  {
    forall name :: name in list ==>
      MTimeText(fs1, DefaultSettingsFile(project, name)) == MTimeText(fs2, DefaultSettingsFile(project, name))
      && MTimeText(fs1, ManifestFile(project, name)) == MTimeText(fs2, ManifestFile(project, name))
      && MTimeText(fs1, ProjectSettingsFile(project, name)) == MTimeText(fs2, ProjectSettingsFile(project, name))
  }

  /** The cache key depends on nothing but the plugin list and those files' times. */
  lemma {:induction false} StampDependsOnTimesOnly(list: seq<string>, project: string, fs1: FileSystem, fs2: FileSystem)
    requires SameStampFiles(list, project, fs1, fs2)
    ensures Stamp(list, project, fs1) == Stamp(list, project, fs2)
    decreases |list|
  {
    if list != [] {
      var init := list[..|list| - 1];
      assert SameStampFiles(init, project, fs1, fs2) by {
        forall name | name in init
          ensures name in list
        {
        }
      }
      StampDependsOnTimesOnly(init, project, fs1, fs2);
      assert list[|list| - 1] in list;
    }
  }

  // ---------------------------------------------------------------------
  // Loading one plugin's settings and manifest
  // ---------------------------------------------------------------------

  datatype LoadError =
    | MissingSettings(plugin: string)
    | MissingManifest(plugin: string)
    | MalformedYaml(file: string)

  /** `empty($content) ? [] : yaml->decode($content)`: `""` and `"0"` count as empty. */
  function DecodeUnlessEmpty(file: string, content: string, yaml: string -> Option<map<string, Value>>)
    : (r: Result<map<string, Value>, LoadError>)
    ensures content == "" || content == "0" ==> r == Success(map[])
  {
    if !Truthy(Str(content)) then Success(map[])
    else match yaml(content)
      case None => Failure(MalformedYaml(file))
      case Some(m) => Success(m)
  }

  /** `trim($content) === '' ? [] : yaml->decode($content)`: blank text counts as empty. */
  function DecodeUnlessBlank(file: string, content: string, yaml: string -> Option<map<string, Value>>)
    : (r: Result<map<string, Value>, LoadError>)
    ensures (forall i :: 0 <= i < |content| ==> IsBlank(content[i])) ==> r == Success(map[])
  {
    if Trim(content) == "" then Success(map[])
    else match yaml(content)
      case None => Failure(MalformedYaml(file))
      case Some(m) => Success(m)
  }

  /** A missing (or null) `priority` becomes 100; an explicit one is kept; no other key changes. */
  function WithDefaultPriority(settings: map<string, Value>): (r: map<string, Value>)
    ensures IsSet(Arr(r), "priority")
    ensures IsSet(Arr(settings), "priority") ==> r == settings
    ensures forall k :: k != "priority" ==> (k in r <==> k in settings) && (k in r ==> r[k] == settings[k])
  {
    if IsSet(Arr(settings), "priority") then settings else settings["priority" := Int(100)]
  }

  /**
   * A plugin's settings: the defaults merged with the project's own file,
   * which starts as a copy of the defaults when it is missing.
   */
  function LoadSettings(project: string, name: string, fs: FileSystem, yaml: string -> Option<map<string, Value>>)
    : Result<map<string, Value>, LoadError>
  {
    var defaultFile := DefaultSettingsFile(project, name);
    var projectFile := ProjectSettingsFile(project, name);
    if !fs.present(defaultFile) then Failure(MissingSettings(name))
    else
      var defaultContent := fs.read(defaultFile);
      match DecodeUnlessEmpty(defaultFile, defaultContent, yaml)
      case Failure(e) => Failure(e)
      case Success(defaults) =>
        var projectContent := if fs.present(projectFile) then fs.read(projectFile) else defaultContent;
        match DecodeUnlessBlank(projectFile, projectContent, yaml)
        case Failure(e) => Failure(e)
        case Success(own) => Success(ReplaceRecursive(defaults, own))
  }

  function LoadManifest(project: string, name: string, fs: FileSystem, yaml: string -> Option<map<string, Value>>)
    : Result<map<string, Value>, LoadError>
  {
    var manifestFile := ManifestFile(project, name);
    if !fs.present(manifestFile) then Failure(MissingManifest(name))
    else DecodeUnlessEmpty(manifestFile, fs.read(manifestFile), yaml)
  }

  /** The entry's sort key is its settings' priority. */
  predicate Keyed(p: Plugin)
  {
    "_priority" in p.data && p.data["_priority"] == Lookup(Lookup(Arr(p.data), "settings"), "priority")
  }

  /** The entry built from a manifest and merged settings. */
  function Entry(name: string, manifest: map<string, Value>, merged: map<string, Value>): (p: Plugin)
    ensures p.name == name && Keyed(p)
    ensures Lookup(Arr(p.data), "manifest") == Arr(manifest)
    ensures IsSet(Lookup(Arr(p.data), "settings"), "priority")
  {
    var settings := WithDefaultPriority(merged);
    Plugin(name, map["manifest" := Arr(manifest), "settings" := Arr(settings), "_priority" := settings["priority"]])
  }

  /** One plugin's entry: settings first, then the manifest; the first failure is reported. */
  function LoadPlugin(project: string, name: string, fs: FileSystem, yaml: string -> Option<map<string, Value>>)
    : (r: Result<Plugin, LoadError>)
    ensures r.Success? ==> r.value.name == name && Keyed(r.value)
    ensures r.Success? <==> LoadSettings(project, name, fs, yaml).Success? && LoadManifest(project, name, fs, yaml).Success?
  {
    match LoadSettings(project, name, fs, yaml)
    case Failure(e) => Failure(e)
    case Success(merged) =>
      match LoadManifest(project, name, fs, yaml)
      case Failure(e) => Failure(e)
      case Success(manifest) => Success(Entry(name, manifest, merged))
  }

  /** The entries of all listed plugins, in list order; the first failure stops the loading. */
  function LoadPlugins(project: string, list: seq<string>, fs: FileSystem, yaml: string -> Option<map<string, Value>>)
    : (r: Result<seq<Plugin>, LoadError>)
    ensures r.Success? ==> |r.value| == |list|
  {
    if list == [] then Success([])
    else match LoadPlugins(project, list[..|list| - 1], fs, yaml)
      case Failure(e) => Failure(e)
      case Success(ps) =>
        match LoadPlugin(project, list[|list| - 1], fs, yaml)
        case Failure(e) => Failure(e)
        case Success(p) => Success(ps + [p])
  }

  /** The loaded collection has exactly the listed names, in list order, each entry with its sort key. */
  lemma {:induction false} LoadPluginsShape(project: string, list: seq<string>, fs: FileSystem,
                                            yaml: string -> Option<map<string, Value>>)
    ensures var r := LoadPlugins(project, list, fs, yaml);
            r.Success? ==> Names(r.value) == list && forall i :: 0 <= i < |r.value| ==> Keyed(r.value[i])
    decreases |list|
  {
    if list != [] {
      var init := list[..|list| - 1];
      var name := list[|list| - 1];
      LoadPluginsShape(project, init, fs, yaml);
      var before := LoadPlugins(project, init, fs, yaml);
      var one := LoadPlugin(project, name, fs, yaml);
      if before.Success? && one.Success? {
        var r := before.value + [one.value];
        assert LoadPlugins(project, list, fs, yaml) == Success(r);
        NamesSnoc(before.value, one.value);
        assert list == init + [name];
        assert forall i :: 0 <= i < |before.value| ==> r[i] == before.value[i];
      }
    }
  }

  /** The loop of `init` that builds `$plugins`. */
  method LoadAllPlugins(project: string, list: seq<string>, fs: FileSystem, yaml: string -> Option<map<string, Value>>)
    returns (r: Result<seq<Plugin>, LoadError>)
    ensures r == LoadPlugins(project, list, fs, yaml)
  {
    var plugins: seq<Plugin> := [];
    for i := 0 to |list|
      invariant LoadPlugins(project, list[..i], fs, yaml) == Success(plugins)
    {
      LoadPluginsOneMore(project, list, i, fs, yaml);
      var loaded := LoadPlugin(project, list[i], fs, yaml);
      if loaded.Failure? {
        PrefixFailureIsFinal(project, list, i + 1, fs, yaml);
        return Failure(loaded.error);
      }
      plugins := plugins + [loaded.value];
    }
    assert list[..|list|] == list;
    r := Success(plugins);
  }

  lemma LoadPluginsOneMore(project: string, list: seq<string>, i: nat, fs: FileSystem,
                           yaml: string -> Option<map<string, Value>>)
    requires i < |list|
    ensures LoadPlugins(project, list[..i + 1], fs, yaml)
            == match LoadPlugins(project, list[..i], fs, yaml)
               case Failure(e) => Failure(e)
               case Success(ps) =>
                 match LoadPlugin(project, list[i], fs, yaml)
                 case Failure(e) => Failure(e)
                 case Success(p) => Success(ps + [p])
  {
    assert list[..i + 1][..i] == list[..i];
  }

  /** Once a prefix fails, the whole list fails with the same error. */
  lemma {:induction false} PrefixFailureIsFinal(project: string, list: seq<string>, n: nat, fs: FileSystem,
                                                yaml: string -> Option<map<string, Value>>)
    requires n <= |list| && LoadPlugins(project, list[..n], fs, yaml).Failure?
    ensures LoadPlugins(project, list, fs, yaml) == LoadPlugins(project, list[..n], fs, yaml)
    decreases |list| - n
  {
    if n < |list| {
      LoadPluginsOneMore(project, list, n, fs, yaml);
      PrefixFailureIsFinal(project, list, n + 1, fs, yaml);
    } else {
      assert list[..n] == list;
    }
  }


  // ---------------------------------------------------------------------
  // Sorting by priority and dropping the sort key
  // ---------------------------------------------------------------------

  /** The sort key: `_priority` compared as an integer. */
  function Priority(p: Plugin): int
  {
    IntCast(Lookup(Arr(p.data), "_priority"))
  }

  predicate SortedByPriority(ps: seq<Plugin>)
  {
    forall i, j :: 0 <= i < j < |ps| ==> Priority(ps[i]) <= Priority(ps[j])
  }

  /** Where `p` goes: before the first entry with a strictly greater key (so after equal ones). */
  function InsertionPoint(p: Plugin, sorted: seq<Plugin>): (k: nat)
    ensures k <= |sorted|
    ensures forall i :: 0 <= i < k ==> Priority(sorted[i]) <= Priority(p)
    ensures k < |sorted| ==> Priority(p) < Priority(sorted[k])
    decreases |sorted|
  {
    if sorted == [] || Priority(p) < Priority(sorted[0]) then 0 else 1 + InsertionPoint(p, sorted[1..])
  }

  function Insert(p: Plugin, sorted: seq<Plugin>): (r: seq<Plugin>)
    requires SortedByPriority(sorted)
    ensures SortedByPriority(r)
    ensures multiset(r) == multiset(sorted) + multiset{p}
  {
    var k := InsertionPoint(p, sorted);
    SpliceSorted(sorted, p, k);
    SpliceMultiset(sorted, p, k);
    sorted[..k] + [p] + sorted[k..]
  }

  /** Putting an entry between the keys not above it and those above it keeps the order. */
  lemma SpliceSorted(a: seq<Plugin>, p: Plugin, k: nat)
    requires SortedByPriority(a) && k <= |a|
    requires forall i :: 0 <= i < k ==> Priority(a[i]) <= Priority(p)
    requires k < |a| ==> Priority(p) < Priority(a[k])
    ensures SortedByPriority(a[..k] + [p] + a[k..])
  {
    var r := a[..k] + [p] + a[k..];
    forall i, j | 0 <= i < j < |r|
      ensures Priority(r[i]) <= Priority(r[j])
    {
      var x := if i < k then a[i] else if i == k then p else a[i - 1];
      var y := if j < k then a[j] else if j == k then p else a[j - 1];
      assert r[i] == x && r[j] == y;
      if i < k && j > k {
        assert Priority(a[i]) <= Priority(p);
      } else if i == k {
        assert Priority(a[k]) <= Priority(a[j - 1]);
      }
    }
  }

  lemma SpliceMultiset(a: seq<Plugin>, p: Plugin, k: nat)
    requires k <= |a|
    ensures multiset(a[..k] + [p] + a[k..]) == multiset(a) + multiset{p}
  {
    assert a == a[..k] + a[k..];
  }

  /** `sortBy('_priority', 'ASC')`: each entry, in collection order, inserted after its equals. */
  function SortByPriority(ps: seq<Plugin>): (r: seq<Plugin>)
    ensures SortedByPriority(r)
    ensures multiset(r) == multiset(ps)
  {
    if ps == [] then []
    else
      assert ps == ps[..|ps| - 1] + [ps[|ps| - 1]];
      Insert(ps[|ps| - 1], SortByPriority(ps[..|ps| - 1]))
  }

  /** Putting an entry with a new name anywhere keeps the names distinct. */
  lemma SpliceKeepsUniqueNames(a: seq<Plugin>, p: Plugin, k: nat)
    requires k <= |a| && UniqueNames(a)
    requires forall i :: 0 <= i < |a| ==> a[i].name != p.name
    ensures UniqueNames(a[..k] + [p] + a[k..])
  {
    var r := a[..k] + [p] + a[k..];
    assert r[k] == p;
    assert forall i :: 0 <= i < k ==> r[i] == a[i];
    assert forall i :: k < i < |r| ==> r[i] == a[i - 1];
  }

  /** Sorting keeps the keys distinct. */
  lemma {:induction false} SortKeepsUniqueNames(ps: seq<Plugin>)
    requires UniqueNames(ps)
    ensures UniqueNames(SortByPriority(ps))
    decreases |ps|
  {
    if ps != [] {
      var init := ps[..|ps| - 1];
      var p := ps[|ps| - 1];
      SortKeepsUniqueNames(init);
      var sorted := SortByPriority(init);
      forall i | 0 <= i < |sorted|
        ensures sorted[i].name != p.name
      {
        assert sorted[i] in multiset(init);
      }
      SpliceKeepsUniqueNames(sorted, p, InsertionPoint(p, sorted));
    }
  }

  /** Keys that were distinct stay distinct when entries are reordered. */
  lemma UniqueNamesOfNames(ps: seq<Plugin>)
    requires NoDuplicates(Names(ps))
    ensures UniqueNames(ps)
  {
    forall i, j | 0 <= i < j < |ps|
      ensures ps[i].name != ps[j].name
    {
      assert Names(ps)[i] != Names(ps)[j];
    }
  }

  /** The loop deleting `<name>._priority` from every entry. */
  function StripPriority(ps: seq<Plugin>): (r: seq<Plugin>)
    ensures |r| == |ps|
    ensures forall i :: 0 <= i < |ps| ==> r[i] == Plugin(ps[i].name, ps[i].data - {"_priority"})
  {
    if ps == [] then []
    else StripPriority(ps[..|ps| - 1]) + [Plugin(ps[|ps| - 1].name, ps[|ps| - 1].data - {"_priority"})]
  }

  /** The settings' own priority, which the sort key copied. */
  function SettingsPriority(p: Plugin): int
  {
    IntCast(Lookup(Lookup(Arr(p.data), "settings"), "priority"))
  }

  predicate SortedBySettings(ps: seq<Plugin>)
  {
    forall i, j :: 0 <= i < j < |ps| ==> SettingsPriority(ps[i]) <= SettingsPriority(ps[j])
  }

  /** Dropping the key keeps the order the key gave, now read from the settings. */
  lemma StripKeepsOrder(sorted: seq<Plugin>)
    requires SortedByPriority(sorted)
    requires forall q :: q in sorted ==> Keyed(q)
    ensures SortedBySettings(StripPriority(sorted))
  {
    var r := StripPriority(sorted);
    forall i | 0 <= i < |r|
      ensures SettingsPriority(r[i]) == Priority(sorted[i])
    {
      assert sorted[i] in sorted;
      assert Lookup(Arr(r[i].data), "settings") == Lookup(Arr(sorted[i].data), "settings");
    }
  }

  lemma NamesOfSameEntries(a: seq<Plugin>, b: seq<Plugin>)
    requires forall q :: q in a <==> q in b
    ensures forall n :: n in Names(a) <==> n in Names(b)
  {
    forall n | n in Names(a)
      ensures n in Names(b)
    {
      var i :| 0 <= i < |a| && Names(a)[i] == n;
      assert a[i] in b;
      var j :| 0 <= j < |b| && b[j] == a[i];
      assert Names(b)[j] == n;
    }
    forall n | n in Names(b)
      ensures n in Names(a)
    {
      var j :| 0 <= j < |b| && Names(b)[j] == n;
      assert b[j] in a;
      var i :| 0 <= i < |a| && a[i] == b[j];
      assert Names(a)[i] == n;
    }
  }

  /**
   * The collection `init` hands on: the loaded entries reordered by
   * ascending settings priority, none of them carrying the sort key.
   */
  lemma SortedCollection(ps: seq<Plugin>)
    requires forall q :: q in ps ==> Keyed(q)
    ensures var r := StripPriority(SortByPriority(ps));
            && |r| == |ps|
            && (forall i :: 0 <= i < |r| ==> "_priority" !in r[i].data)
            && SortedBySettings(r)
            && (forall n :: n in Names(r) <==> n in Names(ps))
  {
    var sorted := SortByPriority(ps);
    SortKeepsEntries(ps);
    StripKeepsOrder(sorted);
    NamesOfSameEntries(sorted, ps);
    StripKeepsNames(sorted);
  }

  /** Sorting reorders: same length, same entries. */
  lemma SortKeepsEntries(ps: seq<Plugin>)
    ensures |SortByPriority(ps)| == |ps|
    ensures forall q :: q in SortByPriority(ps) <==> q in ps
  {
    var sorted := SortByPriority(ps);
    assert |multiset(sorted)| == |multiset(ps)|;
    forall q
      ensures q in sorted <==> q in ps
    {
      assert q in sorted <==> q in multiset(sorted);
    }
  }

  lemma StripKeepsNames(ps: seq<Plugin>)
    ensures Names(StripPriority(ps)) == Names(ps)
  {
  }

  // ---------------------------------------------------------------------
  // getEnabledPlugins
  // ---------------------------------------------------------------------

  /** `settings.enabled` is set and not loosely equal to `false`. */
  predicate IsEnabled(p: Plugin)
  {
    Truthy(Lookup(Lookup(Arr(p.data), "settings"), "enabled"))
  }

  /** The enabled entries, in collection order. */
  function EnabledOnly(ps: seq<Plugin>): (r: seq<Plugin>)
    ensures |r| <= |ps|
  {
    if ps == [] then []
    else
      var before := EnabledOnly(ps[..|ps| - 1]);
      if IsEnabled(ps[|ps| - 1]) then before + [ps[|ps| - 1]] else before
  }

  method GetEnabledPlugins(ps: seq<Plugin>) returns (r: seq<Plugin>)
    ensures r == EnabledOnly(ps)
  {
    r := [];
    for i := 0 to |ps|
      invariant r == EnabledOnly(ps[..i])
    {
      assert ps[..i + 1][..i] == ps[..i];
      if IsEnabled(ps[i]) {
        r := r + [ps[i]];
      }
    }
    assert ps[..|ps|] == ps;
  }

  /** Exactly the enabled entries are kept. */
  lemma {:induction false} EnabledOnlyExact(ps: seq<Plugin>, q: Plugin)
    ensures q in EnabledOnly(ps) <==> q in ps && IsEnabled(q)
    decreases |ps|
  {
    if ps != [] {
      var init := ps[..|ps| - 1];
      EnabledOnlyExact(init, q);
      assert ps == init + [ps[|ps| - 1]];
    }
  }

  /** Filtering works piece by piece, so the kept entries keep their relative order. */
  lemma {:induction false} EnabledOnlyConcat(a: seq<Plugin>, b: seq<Plugin>)
    ensures EnabledOnly(a + b) == EnabledOnly(a) + EnabledOnly(b)
    decreases |b|
  {
    if b == [] {
      assert a + b == a;
    } else {
      var init := b[..|b| - 1];
      var last := b[|b| - 1];
      var kept := if IsEnabled(last) then [last] else [];
      calc {
        EnabledOnly(a + b);
        { assert a + b == (a + init) + [last]; }
        EnabledOnly((a + init) + [last]);
        { EnabledOnlySnoc(a + init, last); }
        EnabledOnly(a + init) + kept;
        { EnabledOnlyConcat(a, init); }
        (EnabledOnly(a) + EnabledOnly(init)) + kept;
        EnabledOnly(a) + (EnabledOnly(init) + kept);
        { assert b == init + [last]; EnabledOnlySnoc(init, last); }
        EnabledOnly(a) + EnabledOnly(b);
      }
    }
  }

  lemma EnabledOnlySnoc(ps: seq<Plugin>, q: Plugin)
    ensures EnabledOnly(ps + [q]) == EnabledOnly(ps) + (if IsEnabled(q) then [q] else [])
  {
    assert (ps + [q])[..|ps|] == ps;
  }

  lemma {:induction false} EnabledKeepsUniqueNames(ps: seq<Plugin>)
    requires UniqueNames(ps)
    ensures UniqueNames(EnabledOnly(ps))
    decreases |ps|
  {
    if ps != [] {
      var init := ps[..|ps| - 1];
      EnabledKeepsUniqueNames(init);
      forall q | q in EnabledOnly(init)
        ensures q.name != ps[|ps| - 1].name
      {
        EnabledOnlyExact(init, q);
      }
    }
  }

  /** Filtering keeps the order by settings priority. */
  lemma {:induction false} EnabledKeepsSettingsOrder(ps: seq<Plugin>)
    requires SortedBySettings(ps)
    ensures SortedBySettings(EnabledOnly(ps))
    decreases |ps|
  {
    if ps != [] {
      var init := ps[..|ps| - 1];
      var last := ps[|ps| - 1];
      EnabledKeepsSettingsOrder(init);
      var before := EnabledOnly(init);
      forall q | q in before
        ensures SettingsPriority(q) <= SettingsPriority(last)
      {
        EnabledOnlyExact(init, q);
        var i :| 0 <= i < |init| && init[i] == q;
        assert ps[i] == q;
      }
      if IsEnabled(last) {
        var r := before + [last];
        forall i, j | 0 <= i < j < |r|
          ensures SettingsPriority(r[i]) <= SettingsPriority(r[j])
        {
          if j == |r| - 1 {
            assert r[i] in before;
          } else {
            assert r[i] == before[i] && r[j] == before[j];
          }
        }
      }
    }
  }
}
