# Flextype content pipeline and plugin boot, modelled in Dafny

This project models the parts of Flextype (a flat-file CMS written in PHP) that decide what a stored
entry turns into and which plugins run:

- the **frontmatter serializer**: encoding a record as `---` header `---` body, and decoding it
  back, with BOM removal, line-ending normalisation, the delimiter regular expression and its cache;
- the **shortcode parser service**: the lazily created singleton, loading the configured handler
  files with `include_once`, and the cached `parse`;
- the **entry directives** `@var(...)`, `@markdown` and `@shortcodes`, and the **default fields**
  `uuid`, `published_at` (on create and on fetch) and the media `modified_at`, all as listeners that
  read and write the shared registry in place, called in order by the event emitter;
- the **plugin manager** boot: discovery of plugin directories, the cache key built from modification
  times, loading and merging each plugin's settings, the sort by priority, the enabled filter, the
  dependency check that withdraws dependents and halts the boot, and `require_once` of the enabled
  plugins' scripts;
- the **bootstrap's configuration slice**: the preflight-cached merge of default settings, project
  settings and manifest, and the cache service's driver selection and driver configuration.

PHP values are a `Value` datatype (null, bool, int, string, array-as-map), with PHP's truthiness,
`isset`, `(int)` casts and `array_replace_recursive` written out. Collections whose order matters
(plugin collections, driver settings, directory listings) are sequences. The registry is a class
whose `data` field is reassigned; each cache is a class holding a map. Collaborators the code
calls but does not define are function-typed parameters: YAML and other header serializers, the
markdown parser, the shortcode processor, `md5` and the string hash, `Semver::satisfies`, UUID
generation, `date`/`strtotime`/`time`, `filemtime`, file existence and content, and camel-casing.

`decode` checks its configured header serializer against the list of serializers allowed for
*encoding* (there is no separate decode list); `Frontmatter.DecodeWith` takes that list as it is.

Files: `php.dfy` (values), `text.dfy` (trim, search, replace), `registry.dfy`, `cache.dfy`,
`runtime.dfy` (`include_once` state), `frontmatter.dfy`, `shortcodes.dfy`, `directives.dfy`,
`fields.dfy`, `events.dfy`, `plugins.dfy`, `dependencies.dfy`, `loader.dfy`, `boot.dfy`.

## Model

| member | source | states |
|---|---|---|
| Php.Lookup | src/flextype/core/Plugins.php:162 | a lookup yields something other than null exactly when `isset` holds for the key |
| Php.ReplaceRecursive | src/flextype/core/Plugins.php:159 | the keys are the union of both sides; a key only in the base keeps its value; an overriding key wins unless both sides hold arrays, which are merged |
| Php.OverrideWinsAtLeaves | src/flextype/core/Plugins.php:159 | every non-array leaf the project settings define is what the merge holds at that path |
| Php.BaseKeptWhereUntouched | src/flextype/core/Plugins.php:159 | a default at a path the project settings leave alone survives the merge |
| Php.ReplaceRecursiveIdempotent | src/flextype/core/Plugins.php:137-159 | merging a tree with itself changes nothing, so a project file copied from the defaults leaves the defaults as they are |
| Php.ReplaceRecursiveUnits | src/flextype/flextype.php:127-157 | an empty tree on either side leaves the other as it is |
| Php.NatToDecimal | src/flextype/core/Plugins.php:251-253 | the decimal text of a time is a non-empty run of digits without a leading zero |
| Php.DecimalRoundTrip | src/flextype/core/Plugins.php:251-255 | the decimal text of a time reads back as the same number |
| Php.DecimalInjective | src/flextype/core/Plugins.php:251-255 | different times have different decimal texts |
| Php.IntCastOfDecimal | src/flextype/core/Entries/Fields/Default/PublishedAtField.php:32 | `(int)` of an integer's decimal text is that integer |
| Text.Trim | src/flextype/core/Serializers/Frontmatter.php:92 | the result has no blank at either end |
| Text.TrimFrames | src/flextype/core/Serializers/Frontmatter.php:92 | the input is the result framed by two runs of blanks |
| Text.TrimIdempotent | src/flextype/core/Entries/Directives/MarkdownDirective.php:30 | trimming twice is trimming once |
| Text.TrimAbsorbsBlanks | src/flextype/core/Serializers/Frontmatter.php:95 | blanks added around a text do not survive `trim` |
| Text.IndexOf | src/flextype/core/Entries/Directives/VarsDirective.php:30 | the first occurrence at or after the start, or none at all |
| Text.ContainsMeansOccurs | src/flextype/core/Entries/Directives/MarkdownDirective.php:29 | `contains` holds exactly when the pattern occurs somewhere |
| Text.ReplaceAll | src/flextype/core/Entries/Directives/MarkdownDirective.php:30 | a text without the pattern is unchanged |
| Text.ReplaceAllFirst | src/flextype/core/Entries/Directives/MarkdownDirective.php:30 | `replace` keeps the text before the first occurrence, replaces it, and continues after it |
| Registry.GetAfterSet | src/flextype/core/Entries/Directives/VarsDirective.php:35-36 | a value set under a path reads back |
| Registry.GetAfterSetElsewhere | src/flextype/core/Entries/Directives/VarsDirective.php:35-36 | setting a path leaves every disjoint path unchanged |
| Registry.Store.Set | src/flextype/core/Entries/Fields/Default/UuidField.php:36 | the registry's new data is the old data with the path set |
| Cache.CacheStore.Has | src/flextype/core/Plugins.php:94 | true exactly when the key is stored |
| Cache.CacheStore.Get | src/flextype/core/Serializers/Frontmatter.php:101 | a hit returns the stored value, a miss returns nothing |
| Cache.CacheStore.Set | src/flextype/core/Serializers/Frontmatter.php:106 | the key is stored, except in a store that keeps nothing |
| Runtime.Includes.IncludeOnce | src/flextype/core/Parsers/Shortcodes.php:115 | the file is loaded once; loading it again changes nothing; no file is loaded twice |
| Runtime.LoadAllExact | src/flextype/core/Plugins.php:418-424 | after a series of `*_once` loads, exactly the earlier and the given files are loaded, none twice |
| Frontmatter.HeaderSerializer | src/flextype/core/Serializers/Frontmatter.php:40-46 | never `frontmatter`; the configured name exactly when it is allowed and not `frontmatter`, `yaml` otherwise |
| Frontmatter.Encode | src/flextype/core/Serializers/Frontmatter.php:48-57 | the text starts with a delimiter line; what it writes is pinned down by the two round trips below (with a body and without one) |
| Frontmatter.RoundTripWithoutBody | src/flextype/core/Serializers/Frontmatter.php:48-57 | a record without a set `content` is written as a bare header and decodes to itself plus an empty `content` (the header's own null `content` winning), when the header serializer round-trips |
| Frontmatter.NormalizeEol | src/flextype/core/Serializers/Frontmatter.php:86 | the result holds no carriage return |
| Frontmatter.NormalizeEolFixes | src/flextype/core/Serializers/Frontmatter.php:86 | text without carriage returns is left as it is |
| Frontmatter.StripBomCommutes | src/flextype/core/Serializers/Frontmatter.php:83-86 | removing the mark and normalising line endings can be done in either order |
| Frontmatter.DelimiterAt | src/flextype/core/Serializers/Frontmatter.php:89 | a delimiter starts a line and holds `---` at its start or after one optional space character |
| Frontmatter.SplitEnds | src/flextype/core/Serializers/Frontmatter.php:89 | with no delimiter after the start, `preg_split` yields the remaining text as one piece |
| Frontmatter.DecodeText | src/flextype/core/Serializers/Frontmatter.php:81-96 | a decoded record always has a `content` entry |
| Frontmatter.DecodeIgnoresLineEndings | src/flextype/core/Serializers/Frontmatter.php:86 | decoding normalised text gives the same result as decoding the original |
| Frontmatter.CrlfDecodesAlike | src/flextype/core/Serializers/Frontmatter.php:86 | a document written with CRLF line endings decodes like its LF form |
| Frontmatter.NoDelimiterMeansBodyOnly | src/flextype/core/Serializers/Frontmatter.php:89-93 | without a delimiter line the record is only the trimmed text as `content` |
| Frontmatter.DecodeEncoded | src/flextype/core/Serializers/Frontmatter.php:89-95 | a non-empty header text and a body, both free of delimiter lines and carriage returns, written between delimiters, decode to what the serializer reads from the trimmed header plus the trimmed body, the header's own `content` winning |
| Frontmatter.RoundTrip | src/flextype/core/Serializers/Frontmatter.php:35-96 | decoding an encoded record gives the record back with its body trimmed, when the header serializer's output is a non-empty text ending in a line break, holds no carriage return and no delimiter line, and reads back (trimmed) to the header, and the body holds no carriage return and no delimiter line |
| Frontmatter.Decode | src/flextype/core/Serializers/Frontmatter.php:98-111 | caching off: decode, cache untouched; truthy cached value: returned as it is; otherwise decode and store a successful result |
| Frontmatter.DecodeTwice | src/flextype/core/Serializers/Frontmatter.php:98-108 | with caching on, a second decode of the same text returns what the first returned |
| Shortcodes.CacheIdsSeparate | src/flextype/core/Parsers/Shortcodes.php:195 | with an injective hash, shortcode keys never collide with frontmatter keys |
| Shortcodes.AdmittedIsListed | src/flextype/core/Parsers/Shortcodes.php:102-115 | every enabled entry whose file exists is among the files to load |
| Shortcodes.ListedIsAdmitted | src/flextype/core/Parsers/Shortcodes.php:103-113 | only enabled entries whose file exists are loaded |
| Shortcodes.Shortcodes.InitShortcodes | src/flextype/core/Parsers/Shortcodes.php:92-117 | the loaded files are the earlier ones followed by the admitted paths in list order, each once |
| Shortcodes.Shortcodes.Parse | src/flextype/core/Parsers/Shortcodes.php:164-182 | both flags strictly true and a truthy cached value: returned; otherwise processed, and stored when caching is on |
| Shortcodes.Shortcodes.ParseTwice | src/flextype/core/Parsers/Shortcodes.php:168-178 | a truthy first result is returned again by a second parse |
| Shortcodes.Service.GetInstance | src/flextype/core/Parsers/Shortcodes.php:68-75 | the instance is created once and then always returned |
| Shortcodes.Service.GetInstanceTwice | src/flextype/core/Parsers/Shortcodes.php:68-75 | two calls return the same object |
| Directives.WriteFieldEffect | src/flextype/core/Entries/Directives/VarsDirective.php:35-36 | the write-back stores the key and value and changes no other path |
| Directives.InterpolateWithoutCall | src/flextype/core/Entries/Directives/VarsDirective.php:29-33 | text without an `@var(...)` call is unchanged |
| Directives.InterpolateFirst | src/flextype/core/Entries/Directives/VarsDirective.php:30-32 | the first call is replaced by the variable at its dotted path, lazily up to the first `)`, and the rest is processed alike |
| Directives.VarsRewrite | src/flextype/core/Entries/Directives/VarsDirective.php:29-33 | a non-string value is unchanged; a string stays a string |
| Directives.VarsListener | src/flextype/core/Entries/Directives/VarsDirective.php:20-37 | the registry becomes the directive's effect on the old registry |
| Directives.MarkdownRewrite | src/flextype/core/Entries/Directives/MarkdownDirective.php:28-32 | a value without the marker is unchanged; with it, the result is trimmed text |
| Directives.MarkdownSettles | src/flextype/core/Entries/Directives/MarkdownDirective.php:28-32 | once the marker is gone, a second rewrite changes nothing |
| Directives.MarkdownListener | src/flextype/core/Entries/Directives/MarkdownDirective.php:20-36 | the registry becomes the directive's effect on the old registry |
| Directives.ShortcodesRewrite | src/flextype/core/Entries/Directives/ShortcodesDirective.php:28-34 | only strings change and they stay strings; with the marker the result has no blank at either end; without it the value is kept when the parser switch is strictly `false` and is the processor's output otherwise |
| Directives.ShortcodesSettles | src/flextype/core/Entries/Directives/ShortcodesDirective.php:28-34 | a second pass leaves a rewritten value alone once it holds no marker and the processor (when on) has nothing more to expand |
| Directives.ShortcodesListener | src/flextype/core/Entries/Directives/ShortcodesDirective.php:20-38 | the registry becomes the directive's effect on the old registry |
| Directives.DisabledWritesNothing | src/flextype/core/Entries/Directives/VarsDirective.php:22-24 | a directive switched off leaves the registry as it is |
| Directives.EnabledRewritesValueOnly | src/flextype/core/Entries/Directives/ShortcodesDirective.php:26-37 | a directive switched on keeps the key, stores the rewritten value, and changes nothing else |
| Fields.SetDefaultEffect | src/flextype/core/Entries/Fields/Default/UuidField.php:21-36 | closed gate or value present: unchanged; otherwise the value is set |
| Fields.SetDefaultElsewhere | src/flextype/core/Entries/Fields/Default/UuidField.php:36 | setting a default changes no path disjoint from its target |
| Fields.UuidListener | src/flextype/core/Entries/Fields/Default/UuidField.php:19-37 | the registry becomes the field's effect on the old registry |
| Fields.UuidDefaults | src/flextype/core/Entries/Fields/Default/UuidField.php:22-36 | a missing uuid is generated when the field is on and its path matches; nothing else changes |
| Fields.UuidIdempotent | src/flextype/core/Entries/Fields/Default/UuidField.php:32-34 | running the field again never replaces a uuid |
| Fields.PublishedAtCreateListener | src/flextype/core/Entries/Fields/Default/PublishedAtField.php:36-54 | the registry becomes the field's create effect on the old registry |
| Fields.PublishedAtCreateDefaults | src/flextype/core/Entries/Fields/Default/PublishedAtField.php:39-53 | a missing date is set to the current time in the configured format; nothing else changes |
| Fields.PublishedAtFetchListener | src/flextype/core/Entries/Fields/Default/PublishedAtField.php:17-34 | the registry becomes the field's fetch effect on the old registry |
| Fields.PublishedAtFetchNormalises | src/flextype/core/Entries/Fields/Default/PublishedAtField.php:20-33 | gate closed: nothing changes; gate open: a missing value becomes the `(int)` of the entry file's modification time, a present one the `(int)` of its parsed time; no other path changes |
| Fields.PublishedAtCreateThenFetch | tests/src/flextype/core/Entries/Fields/PublishedAtFieldTest.php:13-20 | a date set on create reads back on fetch as the creation time, and is not empty |
| Fields.ModifiedAtListener | src/flextype/Media/Fields/ModifiedAtField.php:10-21 | the registry becomes the field's effect on the old registry |
| Fields.ModifiedAtDefaults | src/flextype/Media/Fields/ModifiedAtField.php:12-20 | switched off or present: unchanged; otherwise the `(int)` of the media file's modification time; no other path changes |
| Events.Dispatch | src/flextype/core/Entries/Directives/VarsDirective.php:20 | one listener's effect is applied to the registry |
| Events.ApplyAllConcat | src/flextype/core/Entries/Directives/MarkdownDirective.php:20 | emitting to two listener lists in turn is emitting to their concatenation |
| Events.SilentListeners | src/flextype/core/Entries/Directives/MarkdownDirective.php:22-24 | listeners that all leave the registry alone leave it alone together |
| Events.Emit | src/flextype/core/Entries/Directives/ShortcodesDirective.php:20 | the registry after the event is the listeners' effects applied in registration order |
| Plugins.Names | src/flextype/core/Plugins.php:378 | one key per entry, in order |
| Plugins.GetPluginsList | src/flextype/core/Plugins.php:367-385 | no plugins folder gives no plugins; otherwise the installable directories in listing order |
| Plugins.DiscoveredExact | src/flextype/core/Plugins.php:372-380 | a directory is listed exactly when it holds `plugin.php`, `plugin.yaml` and `settings.yaml` |
| Plugins.DiscoveredUnique | src/flextype/core/Plugins.php:378 | no directory is listed twice |
| Plugins.GetPluginsCacheId | src/flextype/core/Plugins.php:239-261 | the md5 of the prefix and every plugin's three modification times, in list order |
| Plugins.StampDependsOnTimesOnly | src/flextype/core/Plugins.php:251-255 | filesystems that agree on those times give the same key |
| Plugins.DecodeUnlessEmpty | src/flextype/core/Plugins.php:133-134 | empty text, `"0"` included, reads as `[]` |
| Plugins.DecodeUnlessBlank | src/flextype/core/Plugins.php:142-146 | blank text reads as `[]` |
| Plugins.WithDefaultPriority | src/flextype/core/Plugins.php:162-165 | the priority is set afterwards; an explicit one is kept; no other key changes |
| Plugins.Entry | src/flextype/core/Plugins.php:158-168 | the entry holds the manifest as it is, a set priority, and that priority as its sort key |
| Plugins.LoadPlugin | src/flextype/core/Plugins.php:112-169 | a loaded entry has the plugin's name and its settings priority as sort key; it loads exactly when both settings and manifest load |
| Plugins.LoadPlugins | src/flextype/core/Plugins.php:112-169 | a successful load yields one entry per listed plugin |
| Plugins.LoadPluginsShape | src/flextype/core/Plugins.php:112-169 | the loaded collection has exactly the listed names, in order, each with its sort key |
| Plugins.LoadAllPlugins | src/flextype/core/Plugins.php:112-169 | the loop gives the loaded collection, or the first failure |
| Plugins.PrefixFailureIsFinal | src/flextype/core/Plugins.php:128-151 | once a plugin fails to load, later plugins do not change the outcome |
| Plugins.InsertionPoint | src/flextype/core/Plugins.php:172 | an entry goes after every entry of lower or equal priority and before the first of higher priority |
| Plugins.Insert | src/flextype/core/Plugins.php:172 | inserting into an ordered collection keeps it ordered and adds exactly that entry |
| Plugins.SortByPriority | src/flextype/core/Plugins.php:172 | the result is ordered by priority and is a permutation of the input |
| Plugins.SortKeepsUniqueNames | src/flextype/core/Plugins.php:172 | sorting keeps keys distinct |
| Plugins.SortKeepsEntries | src/flextype/core/Plugins.php:172 | sorting keeps the length and the entries |
| Plugins.StripPriority | src/flextype/core/Plugins.php:175-177 | each entry loses exactly its `_priority` key |
| Plugins.StripKeepsNames | src/flextype/core/Plugins.php:175-177 | stripping keeps the keys in order |
| Plugins.StripKeepsOrder | src/flextype/core/Plugins.php:168-177 | once the sort key is gone, the collection is ordered by settings priority |
| Plugins.SortedCollection | src/flextype/core/Plugins.php:168-177 | after sort and strip: same length and set of names, no sort key, ascending settings priority |
| Plugins.GetEnabledPlugins | src/flextype/core/Plugins.php:392-405 | the loop gives the enabled entries in order |
| Plugins.EnabledOnlyExact | src/flextype/core/Plugins.php:396-401 | an entry is kept exactly when `settings.enabled` is set and truthy |
| Plugins.EnabledOnlyConcat | src/flextype/core/Plugins.php:396-404 | filtering works piece by piece, so kept entries keep their relative order |
| Plugins.EnabledKeepsUniqueNames | src/flextype/core/Plugins.php:396-404 | filtering keeps keys distinct |
| Plugins.EnabledKeepsSettingsOrder | src/flextype/core/Plugins.php:180 | filtering keeps the priority order |
| Dependencies.ByName | src/flextype/core/Plugins.php:304-317 | the entry found has that key; none is found only when no entry has it |
| Dependencies.Without | src/flextype/core/Plugins.php:293-299 | exactly the entries whose key is not withdrawn remain |
| Dependencies.Missing | src/flextype/core/Plugins.php:344 | exactly the input keys that no verified entry carries |
| Dependencies.GetValidPluginsDependencies | src/flextype/core/Plugins.php:270-358 | the loop, including its removals from the collection being iterated, gives the verified collection or the plugins left out |
| Dependencies.RunClean | src/flextype/core/Plugins.php:279-341 | while every plugin passes, nothing is withdrawn and every visited plugin is kept |
| Dependencies.RunKeepsOut | src/flextype/core/Plugins.php:293-299 | a withdrawn plugin is never among the verified ones |
| Dependencies.ValidateSucceeds | src/flextype/core/Plugins.php:344-357 | with distinct keys, the boot continues exactly when every plugin's constraints hold, and then the collection is kept as it is |
| Dependencies.FailureLeftOut | src/flextype/core/Plugins.php:287-341 | the first plugin to fail and every plugin depending on it are in the list that halts the boot |
| PluginLoader.ActiveCollection | src/flextype/core/Plugins.php:112-186 | the registered set has distinct keys from the list, only enabled plugins whose constraints all hold, no sort key, and ascending priority |
| PluginLoader.EnabledScriptsExact | src/flextype/core/Plugins.php:418-424 | exactly the enabled plugins' scripts are required |
| PluginLoader.Manager.constructor | src/flextype/core/Plugins.php:77 | nothing is registered at first |
| PluginLoader.Manager.IncludeEnabled | src/flextype/core/Plugins.php:412-425 | the loaded files are the earlier ones followed by the enabled scripts, each once |
| PluginLoader.Manager.Init | src/flextype/core/Plugins.php:74-198 | no plugins: nothing registered; cache hit: the cached set; miss: the computed set, cached; a load error or the alert stops before anything is registered |
| Boot.PreflightKeyDependsOnTimesOnly | src/flextype/flextype.php:108-113 | equal paths and modification times give equal keys |
| Boot.ParseUnlessBlank | src/flextype/flextype.php:126-130 | blank text reads as `[]`; a parse failure names the file |
| Boot.MergeOf | src/flextype/flextype.php:157 | the merged tree has exactly `settings` and `manifest`; the manifest is taken as it is; project settings that are not an array replace the defaults outright |
| Boot.CustomSettingsWin | src/flextype/flextype.php:157 | each leaf of the project's settings wins over the defaults |
| Boot.DefaultSettingsKept | src/flextype/flextype.php:157 | a default the project's settings leave alone survives |
| Boot.MergeSettings | src/flextype/flextype.php:118-157 | a missing default settings file is an error; a merged tree has exactly `settings` and `manifest` |
| Boot.FirstBootUsesDefaults | src/flextype/flextype.php:133-143 | with no project settings file, the settings equal the defaults |
| Boot.LoadSettings | src/flextype/flextype.php:115-159 | a stored tree under the key is reused; otherwise the merge is stored when it succeeds |
| Boot.AutoDriver | src/flextype/flextype.php:247-255 | `auto` picks apcu exactly when it is loaded, and always a known driver |
| Boot.SelectDriver | src/flextype/flextype.php:247-259 | strictly false `enabled` gives devnull; a falsy name or `auto` is resolved; another name is kept; the driver is known exactly when the name was |
| Boot.GetDriverConfig | src/flextype/flextype.php:232-245 | the loop gives the configuration built from the driver's settings |
| Boot.DriverConfigKeys | src/flextype/flextype.php:236-242 | a key is present exactly when some setting is stored under it: `path` for a file-based driver, the camel-cased key otherwise |
| Boot.DriverConfigLastWriter | src/flextype/flextype.php:236-242 | a key holds what the last setting under it wrote: the resolved path, or the value as it is |
| Boot.CacheConfig | src/flextype/flextype.php:261-333 | an unrecognised driver gets an empty configuration |

## Left out

- Plugin translations (`getPluginsDictionary`, `I18n`, the locale cache) and the constructor's locale list: they only feed translation tables.
- The `onPluginsInitialized` event after `init`: no listener of this model reacts to it.
- Directory creation and the writing of the project's copy of a settings file: the model uses the copy's content (the default content) but keeps no file store.
- The `pathname` of a discovered plugin: nothing in the modelled core reads it.
- The dependency alert's HTML output and `die`: modelled as the `Stopped` status carrying the plugins left out.
- The order of the constraints in one plugin's manifest: the outcome does not depend on it (see `dependencies.dfy`), so constraints are checked as a set.
- The cached registry value for plugins is kept as an ordered field of the manager, not inside the registry tree, because arrays are modelled as unordered maps.
- A manifest whose `dependencies` entry is a string: PHP would index into the string; the model reads it as having no dependencies.
- Dotted registry keys that themselves contain a dot, and plugin names containing a dot.
- A file that exists but cannot be read (`get()` returning `false`): reads are total in the model; a missing manifest is the modelled `Unreadable` case.
- The preflight file format (`var_export` into a PHP file) and the cache drivers themselves: the preflight store and the caches are maps.
- The driver `switch` uses loose comparison: a non-string truthy driver name such as `true` would match a case; the model only matches string names.
- `Plugins.SortByPriority`: stability among equal priorities is built into the definition (each entry is inserted after its equals), but no lemma states it.
- `Plugins.GetPluginsCacheId`: the 32-hex-digit shape of the key is taken from md5's result type, not proved.
- The shortcode service's pass-through helpers (`facade`, `addHandler`, `addEventHandler`, `parseText`): they only forward to the shortcode library, whose `process` is a parameter here.
- The shortcode grammar, the markdown parser, YAML, UUIDs, clocks and time formatting are parameters; their own behaviour is not modelled.
- The rest of the bootstrap file (middleware, routes, sessions, logging, image server, CORS, `app()->run()`).
- `PHP_EOL` is taken to be `"\n"` (the Unix value) in `Frontmatter.DecodePrepared`, both where a line break is put before the text and where the body pieces are rejoined (src/flextype/core/Serializers/Frontmatter.php:89, 95); on a platform whose `PHP_EOL` is `"\r\n"` the decoded body would differ.
- The string library's `trim` and `trimLeft` are taken to strip PHP's default `trim` set (`Text.TrimSet`); that library is not part of this model.
- `Php.IntCast` reads a string's leading integer (optional leading white space, an optional sign, decimal digits); it does not model exponent or decimal-point forms (`"1e3"` casts to 1000 in PHP 7.1 and later), hexadecimal-looking text, or saturation at the 64-bit integer bounds.
- `Plugins.SortByPriority`: `sortBy('_priority', 'ASC')` (src/flextype/core/Plugins.php:172) is modelled as an ascending order on the `(int)` of each priority; the collection library's comparison is not part of this model, and it may order string or missing priorities differently.
- `Frontmatter.RoundTrip`: a header serializer output that is a bare line break (an empty header text) is not covered; the other conditions (a final line break, no carriage return, no delimiter line) are ones without which the text does not read back.
