/**
 * The default-field listeners. Each checks its switch (and, for entry
 * fields, that the collection's field definition points at this very
 * listener file), leaves a value that is already there alone, and
 * otherwise fills in a generated one: a UUID, the publication time, the
 * file's modification time. The fetch-time publication listener instead
 * normalises the stored value to a Unix timestamp.
 */
module Fields {
  import opened Php
  import opened Text
  import opened Registry

  /**
   * The outside world the listeners consult: where the application lives,
   * the UUID the generator hands out, the clock, PHP's `date` and
   * `strtotime` (`None` for its `false`), and the modification times of an
   * entry's file and of a media file, looked up by id (an integer, or
   * `false` when the file cannot be read).
   */
  datatype FieldEnv = FieldEnv(
    root: string,
    uuid: string,
    now: int,
    date: (string, int) -> string,
    strtotime: string -> Option<int>,
    entryModified: Value -> Value,
    mediaModified: Value -> Value)

  /** The listener files, relative to the application root. */
  const UuidFile := "/src/flextype/core/Entries/Fields/Default/UuidField.php"
  const PublishedAtFile := "/src/flextype/core/Entries/Fields/Default/PublishedAtField.php"

  /** `strings(__FILE__)->replace(ROOT_DIR, '')`: the listener file's path with the root removed. */
  function OwnPath(root: string, file: string): string
  {
    ReplaceAll(root + file, root, "")
  }

  /** The field definition of the collection being created or fetched. */
  function FieldSetting(operation: string, field: string, leaf: string): seq<string>
  {
    ["methods", operation, "collection", "fields", field, leaf]
  }

  /** The field is switched on and its definition names this listener file. */
  predicate EntryGate(data: Value, operation: string, field: string, root: string, file: string)
  {
    Truthy(GetPath(data, FieldSetting(operation, field, "enabled")))
    && GetPath(data, FieldSetting(operation, field, "path")) == Str(OwnPath(root, file))
  }

  /**
   * The shape every defaulting listener shares: when the gate is open and
   * nothing (null) is stored at `target`, store `value` there.
   */
  function SetDefault(data: Value, gate: bool, target: seq<string>, value: Value): Value
    requires |target| > 0
  {
    if !gate || GetPath(data, target) != Null then data else SetPath(data, target, value)
  }

  /**
   * What a defaulting listener does: a closed gate or a value already
   * present leaves the data as it was; otherwise the default is stored.
   */
  lemma SetDefaultEffect(data: Value, gate: bool, target: seq<string>, value: Value)
    requires |target| > 0
    ensures var after := SetDefault(data, gate, target, value);
            && (!gate || GetPath(data, target) != Null ==> after == data)
            && (gate && GetPath(data, target) == Null ==> GetPath(after, target) == value)
  {
    GetAfterSet(data, target, value);
  }

  /** A defaulting listener writes nothing outside its target. */
  lemma SetDefaultElsewhere(data: Value, gate: bool, target: seq<string>, value: Value, other: seq<string>)
    requires |target| > 0 && Disjoint(target, other)
    ensures GetPath(SetDefault(data, gate, target, value), other) == GetPath(data, other)
  {
    GetAfterSetElsewhere(data, target, value, other);
  }

  // ---------------------------------------------------------------------
  // uuid, on create
  // ---------------------------------------------------------------------

  const UuidTarget: seq<string> := ["methods", "create", "params", "data", "uuid"]

  function UuidEffect(data: Value, env: FieldEnv): Value
  {
    SetDefault(data, EntryGate(data, "create", "uuid", env.root, UuidFile), UuidTarget, Str(env.uuid))
  }

  method UuidListener(store: Store, env: FieldEnv)
    modifies store
    ensures store.data == UuidEffect(old(store.data), env)
  {
    if !Truthy(GetPath(store.data, FieldSetting("create", "uuid", "enabled"))) {
      return;
    }
    if GetPath(store.data, FieldSetting("create", "uuid", "path")) != Str(OwnPath(env.root, UuidFile)) {
      return;
    }
    if GetPath(store.data, UuidTarget) != Null {
      return;
    }
    store.Set(UuidTarget, Str(env.uuid));
  }

  /**
   * A disabled field, a definition naming another file, or a uuid the
   * caller supplied leave the data alone; otherwise the generated uuid is
   * stored and nothing else changes.
   */
  lemma UuidDefaults(data: Value, env: FieldEnv, other: seq<string>)
    requires Disjoint(UuidTarget, other)
    ensures var after := UuidEffect(data, env);
            && (!EntryGate(data, "create", "uuid", env.root, UuidFile) || GetPath(data, UuidTarget) != Null ==> after == data)
            && (EntryGate(data, "create", "uuid", env.root, UuidFile) && GetPath(data, UuidTarget) == Null ==>
                  GetPath(after, UuidTarget) == Str(env.uuid))
            && GetPath(after, other) == GetPath(data, other)
  {
    SetDefaultEffect(data, EntryGate(data, "create", "uuid", env.root, UuidFile), UuidTarget, Str(env.uuid));
    SetDefaultElsewhere(data, EntryGate(data, "create", "uuid", env.root, UuidFile), UuidTarget, Str(env.uuid), other);
  }

  /** A second run, whatever uuid it would generate, changes nothing. */
  lemma UuidIdempotent(data: Value, env: FieldEnv, later: FieldEnv)
    requires later.root == env.root
    ensures UuidEffect(UuidEffect(data, env), later) == UuidEffect(data, env)
  {
    var once := UuidEffect(data, env);
    var enabled := FieldSetting("create", "uuid", "enabled");
    var path := FieldSetting("create", "uuid", "path");
    assert Disjoint(UuidTarget, enabled) && Disjoint(UuidTarget, path) by {
      assert UuidTarget[2] != enabled[2];
    }
    var gate := EntryGate(data, "create", "uuid", env.root, UuidFile);
    SetDefaultElsewhere(data, gate, UuidTarget, Str(env.uuid), enabled);
    SetDefaultElsewhere(data, gate, UuidTarget, Str(env.uuid), path);
    SetDefaultEffect(data, gate, UuidTarget, Str(env.uuid));
    assert EntryGate(once, "create", "uuid", later.root, UuidFile) == EntryGate(data, "create", "uuid", env.root, UuidFile);
  }

  // ---------------------------------------------------------------------
  // published_at, on create and on fetch
  // ---------------------------------------------------------------------

  const PublishedAtTarget: seq<string> := ["methods", "create", "params", "data", "published_at"]
  const PublishedAtResult: seq<string> := ["methods", "fetch", "result", "published_at"]
  const DateFormatPath: seq<string> := ["flextype", "settings", "date_format"]

  /** `date($format, time())` with the configured format. */
  function Now(settings: Value, env: FieldEnv): string
  {
    env.date(StrVal(GetPath(settings, DateFormatPath)), env.now)
  }

  function PublishedAtCreateEffect(data: Value, settings: Value, env: FieldEnv): Value
  {
    SetDefault(data, EntryGate(data, "create", "published_at", env.root, PublishedAtFile),
               PublishedAtTarget, Str(Now(settings, env)))
  }

  method PublishedAtCreateListener(store: Store, settings: Value, env: FieldEnv)
    modifies store
    ensures store.data == PublishedAtCreateEffect(old(store.data), settings, env)
  {
    if !Truthy(GetPath(store.data, FieldSetting("create", "published_at", "enabled"))) {
      return;
    }
    if GetPath(store.data, FieldSetting("create", "published_at", "path")) != Str(OwnPath(env.root, PublishedAtFile)) {
      return;
    }
    if GetPath(store.data, PublishedAtTarget) != Null {
      return;
    }
    store.Set(PublishedAtTarget, Str(Now(settings, env)));
  }

  lemma PublishedAtCreateDefaults(data: Value, settings: Value, env: FieldEnv, other: seq<string>)
    requires Disjoint(PublishedAtTarget, other)
    ensures var after := PublishedAtCreateEffect(data, settings, env);
            var gate := EntryGate(data, "create", "published_at", env.root, PublishedAtFile);
            && (!gate || GetPath(data, PublishedAtTarget) != Null ==> after == data)
            && (gate && GetPath(data, PublishedAtTarget) == Null ==>
                  GetPath(after, PublishedAtTarget) == Str(Now(settings, env)))
            && GetPath(after, other) == GetPath(data, other)
  {
    var gate := EntryGate(data, "create", "published_at", env.root, PublishedAtFile);
    SetDefaultEffect(data, gate, PublishedAtTarget, Str(Now(settings, env)));
    SetDefaultElsewhere(data, gate, PublishedAtTarget, Str(Now(settings, env)), other);
  }

  /** `(int) strtotime((string) $v)`: `false` casts to 0. */
  function Timestamp(v: Value, env: FieldEnv): int
  {
    match env.strtotime(StrVal(v))
    case Some(t) => t
    case None => 0
  }

  /**
   * On fetch: a missing publication time becomes the entry file's
   * modification time, a present one its parsed timestamp.
   */
  function PublishedAtFetchEffect(data: Value, env: FieldEnv): Value
  {
    if !EntryGate(data, "fetch", "published_at", env.root, PublishedAtFile) then data
    else
      var current := GetPath(data, PublishedAtResult);
      if current == Null then
        SetPath(data, PublishedAtResult, Int(IntCast(env.entryModified(GetPath(data, ["methods", "fetch", "params", "id"])))))
      else
        SetPath(data, PublishedAtResult, Int(Timestamp(current, env)))
  }

  method PublishedAtFetchListener(store: Store, env: FieldEnv)
    modifies store
    ensures store.data == PublishedAtFetchEffect(old(store.data), env)
  {
    if !Truthy(GetPath(store.data, FieldSetting("fetch", "published_at", "enabled"))) {
      return;
    }
    if GetPath(store.data, FieldSetting("fetch", "published_at", "path")) != Str(OwnPath(env.root, PublishedAtFile)) {
      return;
    }
    if GetPath(store.data, PublishedAtResult) == Null {
      var id := GetPath(store.data, ["methods", "fetch", "params", "id"]);
      store.Set(PublishedAtResult, Int(IntCast(env.entryModified(id))));
    } else {
      store.Set(PublishedAtResult, Int(Timestamp(GetPath(store.data, PublishedAtResult), env)));
    }
  }

  /**
   * On fetch, with the field switched on, the publication time is an
   * integer afterwards: the entry file's modification time when none was
   * stored, the parsed stored value otherwise; nothing outside it changes.
   * Switched off, the data stays as it was.
   */
  lemma PublishedAtFetchNormalises(data: Value, env: FieldEnv, other: seq<string>)
    requires Disjoint(PublishedAtResult, other)
    ensures var after := PublishedAtFetchEffect(data, env);
            var gate := EntryGate(data, "fetch", "published_at", env.root, PublishedAtFile);
            var current := GetPath(data, PublishedAtResult);
            && (!gate ==> after == data)
            && (gate ==> GetPath(after, PublishedAtResult).Int?)
            && (gate && current == Null ==>
                  GetPath(after, PublishedAtResult) == Int(IntCast(env.entryModified(GetPath(data, ["methods", "fetch", "params", "id"])))))
            && (gate && current != Null ==> GetPath(after, PublishedAtResult) == Int(Timestamp(current, env)))
            && GetPath(after, other) == GetPath(data, other)
  {
    var id := GetPath(data, ["methods", "fetch", "params", "id"]);
    var current := GetPath(data, PublishedAtResult);
    var x := if current == Null then Int(IntCast(env.entryModified(id))) else Int(Timestamp(current, env));
    GetAfterSet(data, PublishedAtResult, x);
    GetAfterSetElsewhere(data, PublishedAtResult, x, other);
  }

  lemma IntTextNonEmpty(n: int)
    ensures |StrVal(Int(n))| > 0
  {
  }

  /**
   * An entry created without a publication time and fetched back carries
   * the creation time as a non-empty integer timestamp, provided the
   * configured date format reads back to the same instant.
   */
  lemma PublishedAtCreateThenFetch(created: Value, fetched: Value, settings: Value, env: FieldEnv)
    requires EntryGate(created, "create", "published_at", env.root, PublishedAtFile)
    requires GetPath(created, PublishedAtTarget) == Null
    requires EntryGate(fetched, "fetch", "published_at", env.root, PublishedAtFile)
    requires GetPath(fetched, PublishedAtResult) == GetPath(PublishedAtCreateEffect(created, settings, env), PublishedAtTarget)
    requires env.strtotime(Now(settings, env)) == Some(env.now)
    ensures GetPath(PublishedAtFetchEffect(fetched, env), PublishedAtResult) == Int(env.now)
    ensures |StrVal(GetPath(PublishedAtFetchEffect(fetched, env), PublishedAtResult))| > 0
  {
    var gate := EntryGate(created, "create", "published_at", env.root, PublishedAtFile);
    SetDefaultEffect(created, gate, PublishedAtTarget, Str(Now(settings, env)));
    assert GetPath(fetched, PublishedAtResult) == Str(Now(settings, env));
    assert Timestamp(Str(Now(settings, env)), env) == env.now;
    assert PublishedAtFetchEffect(fetched, env) == SetPath(fetched, PublishedAtResult, Int(env.now));
    GetAfterSet(fetched, PublishedAtResult, Int(env.now));
    IntTextNonEmpty(env.now);
  }

  // ---------------------------------------------------------------------
  // modified_at, on media fetch
  // ---------------------------------------------------------------------

  const ModifiedAtTarget: seq<string> := ["fetch", "data", "modified_at"]
  const ModifiedAtSwitch: seq<string> := ["flextype", "settings", "entries", "media", "fields", "modified_at", "enabled"]

  /** The media listener: switched by the application settings, with no file check. */
  function ModifiedAtEffect(data: Value, settings: Value, env: FieldEnv): Value
  {
    SetDefault(data, Truthy(GetPath(settings, ModifiedAtSwitch)), ModifiedAtTarget,
               Int(IntCast(env.mediaModified(GetPath(data, ["fetch", "id"])))))
  }

  method ModifiedAtListener(store: Store, settings: Value, env: FieldEnv)
    modifies store
    ensures store.data == ModifiedAtEffect(old(store.data), settings, env)
  {
    if !Truthy(GetPath(settings, ModifiedAtSwitch)) {
      return;
    }
    if GetPath(store.data, ModifiedAtTarget) != Null {
      return;
    }
    store.Set(ModifiedAtTarget, Int(IntCast(env.mediaModified(GetPath(store.data, ["fetch", "id"])))));
  }

  lemma ModifiedAtDefaults(data: Value, settings: Value, env: FieldEnv, other: seq<string>)
    requires Disjoint(ModifiedAtTarget, other)
    ensures var after := ModifiedAtEffect(data, settings, env);
            && (!Truthy(GetPath(settings, ModifiedAtSwitch)) || GetPath(data, ModifiedAtTarget) != Null ==> after == data)
            && (Truthy(GetPath(settings, ModifiedAtSwitch)) && GetPath(data, ModifiedAtTarget) == Null ==>
                  GetPath(after, ModifiedAtTarget) == Int(IntCast(env.mediaModified(GetPath(data, ["fetch", "id"])))))
            && GetPath(after, other) == GetPath(data, other)
  {
    var stamp := Int(IntCast(env.mediaModified(GetPath(data, ["fetch", "id"]))));
    SetDefaultEffect(data, Truthy(GetPath(settings, ModifiedAtSwitch)), ModifiedAtTarget, stamp);
    SetDefaultElsewhere(data, Truthy(GetPath(settings, ModifiedAtSwitch)), ModifiedAtTarget, stamp, other);
  }
}
