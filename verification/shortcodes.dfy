/**
 * The shortcode parser service: a single shared instance, loading of the
 * configured shortcode files, and `parse`, which memoises the shortcode
 * engine's `process` in the cache. The engine itself, its grammar and its
 * handlers are outside the model: `process` is an opaque function.
 */
module Shortcodes {
  import opened Php
  import opened Cache
  import opened Runtime
  import Frontmatter

  /** The cache key of a text: the hash of the text prefixed with the `shortcode` namespace. */
  function CacheId(input: string, hash: string -> string): string
  {
    hash("shortcode" + input)
  }

  /**
   * The texts hashed for shortcode keys and for frontmatter keys never
   * coincide, so under a collision-free hash the two never share a key.
   */
  lemma CacheIdsSeparate(input: string, other: string, hash: string -> string)
    requires forall a, b :: hash(a) == hash(b) ==> a == b
    ensures CacheId(input, hash) != Frontmatter.CacheId(other, hash)
  {
    assert ("shortcode" + input)[0] != ("frontmatter" + other)[0];
  }

  /** A configured shortcode entry is loaded: `enabled` set and truthy, and the file present. */
  predicate Admitted(entry: Value, root: string, fileExists: string -> bool)
  {
    IsSet(entry, "enabled") && Truthy(Lookup(entry, "enabled")) && fileExists(FilePath(entry, root))
  }

  /** `ROOT_DIR . $shortcode['path']`. */
  function FilePath(entry: Value, root: string): string
  {
    root + StrVal(Lookup(entry, "path"))
  }

  /** The files of the admitted entries, in list order. */
  function AdmittedPaths(entries: seq<Value>, root: string, fileExists: string -> bool): (paths: seq<string>)
    ensures |paths| <= |entries|
  {
    if entries == [] then []
    else
      var last := entries[|entries| - 1];
      AdmittedPaths(entries[..|entries| - 1], root, fileExists)
        + (if Admitted(last, root, fileExists) then [FilePath(last, root)] else [])
  }

  /** Every admitted entry has its file among the admitted paths. */
  lemma {:induction false} AdmittedIsListed(entries: seq<Value>, root: string, fileExists: string -> bool, i: nat)
    requires i < |entries| && Admitted(entries[i], root, fileExists)
    ensures FilePath(entries[i], root) in AdmittedPaths(entries, root, fileExists)
    decreases |entries|
  {
    var n := |entries| - 1;
    if i < n {
      AdmittedIsListed(entries[..n], root, fileExists, i);
    }
  }

  /** Every admitted path is the file of some admitted entry. */
  lemma {:induction false} ListedIsAdmitted(entries: seq<Value>, root: string, fileExists: string -> bool, f: string)
    requires f in AdmittedPaths(entries, root, fileExists)
    ensures exists i :: 0 <= i < |entries| && Admitted(entries[i], root, fileExists) && f == FilePath(entries[i], root)
    decreases |entries|
  {
    var n := |entries| - 1;
    var init := entries[..n];
    if !(Admitted(entries[n], root, fileExists) && f == FilePath(entries[n], root)) {
      ListedIsAdmitted(init, root, fileExists, f);
      var i :| 0 <= i < |init| && Admitted(init[i], root, fileExists) && f == FilePath(init[i], root);
      assert entries[i] == init[i];
    }
  }

  lemma AdmitOneMore(entries: seq<Value>, i: nat, root: string, fileExists: string -> bool)
    requires i < |entries|
    ensures AdmittedPaths(entries[..i + 1], root, fileExists)
            == AdmittedPaths(entries[..i], root, fileExists)
               + (if Admitted(entries[i], root, fileExists) then [FilePath(entries[i], root)] else [])
  {
    assert entries[..i + 1][..i] == entries[..i];
  }

  class Shortcodes {
    /** The engine's `process`. */
    const process: string -> string

    constructor (process: string -> string)
      ensures this.process == process
    {
      this.process := process;
    }

    /**
     * `initShortcodes`: walks the configured entries in order and loads the
     * file of every admitted one, once.
     */
    method InitShortcodes(entries: seq<Value>, root: string, fileExists: string -> bool, runtime: Includes)
      modifies runtime
      ensures runtime.files == LoadAll(old(runtime.files), AdmittedPaths(entries, root, fileExists))
      ensures NoDuplicates(old(runtime.files)) ==> NoDuplicates(runtime.files)
    {
      if |entries| == 0 {
        return;
      }
      var i := 0;
      assert entries[..0] == [];
      while i < |entries|
        invariant 0 <= i <= |entries|
        invariant runtime.files == LoadAll(old(runtime.files), AdmittedPaths(entries[..i], root, fileExists))
        invariant NoDuplicates(old(runtime.files)) ==> NoDuplicates(runtime.files)
      {
        var entry := entries[i];
        AdmitOneMore(entries, i, root, fileExists);
        ghost var done := AdmittedPaths(entries[..i], root, fileExists);
        if IsSet(entry, "enabled") && Truthy(Lookup(entry, "enabled")) && fileExists(FilePath(entry, root)) {
          LoadOneMore(old(runtime.files), done, FilePath(entry, root));
          runtime.IncludeOnce(FilePath(entry, root));
        } else {
          assert done + [] == done;
        }
        i := i + 1;
      }
      assert entries[..i] == entries;
    }

    /**
     * `parse`: with both cache flags strictly `true`, a truthy cached value
     * under the text's key is returned without processing; otherwise the
     * text is processed and the result stored under that key. With caching
     * off the text is processed and the cache is not touched.
     */
    method Parse(input: string, parseCache: Value, cacheEnabled: Value,
                 hash: string -> string, cache: CacheStore<Value>)
      returns (r: Value)
      requires cache.Valid()
      modifies cache
      ensures cache.Valid()
      ensures var key := CacheId(input, hash);
              if !(parseCache == Bool(true) && cacheEnabled == Bool(true)) then
                r == Str(process(input)) && cache.entries == old(cache.entries)
              else if key in old(cache.entries) && Truthy(old(cache.entries)[key]) then
                r == old(cache.entries)[key] && cache.entries == old(cache.entries)
              else
                r == Str(process(input))
                && cache.entries == (if cache.keeps then old(cache.entries)[key := r] else old(cache.entries))
    {
      if parseCache == Bool(true) && cacheEnabled == Bool(true) {
        var key := CacheId(input, hash);
        var fromCache := cache.Get(key);
        if fromCache.Some? && Truthy(fromCache.value) {
          return fromCache.value;
        }
        r := Str(process(input));
        cache.Set(key, r);
        return;
      }
      r := Str(process(input));
    }

    /**
     * Two parses of the same text in a row, with caching on, agree whenever
     * the first result is truthy; the second is then served from the cache.
     */
    method ParseTwice(input: string, hash: string -> string, cache: CacheStore<Value>)
      returns (first: Value, second: Value)
      requires cache.Valid() && cache.keeps
      modifies cache
      ensures Truthy(first) ==> second == first
    {
      first := Parse(input, Bool(true), Bool(true), hash, cache);
      second := Parse(input, Bool(true), Bool(true), hash, cache);
    }
  }

  /** The static `$instance` slot of the service class. */
  class Service {
    var instance: Shortcodes?
    /** The engine the instance is built around. */
    const process: string -> string

    constructor (process: string -> string)
      ensures instance == null && this.process == process
    {
      instance := null;
      this.process := process;
    }

    /** `getInstance`: creates the instance on first use and returns the same one afterwards. */
    method GetInstance() returns (s: Shortcodes)
      modifies this
      ensures instance == s
      ensures old(instance) != null ==> s == old(instance)
      ensures old(instance) == null ==> fresh(s) && s.process == process
    {
      if instance == null {
        instance := new Shortcodes(process);
      }
      s := instance;
    }

    /** Every call after the first returns the instance the first created. */
    method GetInstanceTwice() returns (a: Shortcodes, b: Shortcodes)
      modifies this
      ensures a == b
    {
      a := GetInstance();
      b := GetInstance();
    }
  }
}
