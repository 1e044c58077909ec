/**
 * The interpreter state that `include_once` and `require_once` consult:
 * the files loaded so far, in loading order. Loading a file a second time
 * does nothing.
 */
module Runtime {

  predicate NoDuplicates<T(==)>(s: seq<T>)
  {
    forall i, j :: 0 <= i < j < |s| ==> s[i] != s[j]
  }

  class Includes {
    var files: seq<string>

    constructor ()
      ensures files == []
    {
      files := [];
    }

    /** `include_once $path` (and `require_once`, for a file that exists). */
    method IncludeOnce(path: string)
      modifies this
      ensures path in files
      ensures files == if path in old(files) then old(files) else old(files) + [path]
      ensures NoDuplicates(old(files)) ==> NoDuplicates(files)
    {
      if path !in files {
        files := files + [path];
      }
    }
  }

  /** Loading `paths` one after another with `include_once`, starting from `loaded`. */
  function LoadAll(loaded: seq<string>, paths: seq<string>): (r: seq<string>)
    ensures |loaded| <= |r| && r[..|loaded|] == loaded
  {
    if paths == [] then loaded
    else
      var before := LoadAll(loaded, paths[..|paths| - 1]);
      var f := paths[|paths| - 1];
      assert paths == paths[..|paths| - 1] + [f];
      if f in before then before else before + [f]
  }

  /** Loading adds exactly the given files and never loads one twice. */
  lemma {:induction false} LoadAllExact(loaded: seq<string>, paths: seq<string>)
    ensures forall f :: f in LoadAll(loaded, paths) <==> f in loaded || f in paths
    ensures NoDuplicates(loaded) ==> NoDuplicates(LoadAll(loaded, paths))
    decreases |paths|
  {
    if paths != [] {
      var init := paths[..|paths| - 1];
      LoadAllExact(loaded, init);
      assert paths == init + [paths[|paths| - 1]];
    }
  }

  lemma LoadOneMore(loaded: seq<string>, paths: seq<string>, f: string)
    ensures LoadAll(loaded, paths + [f])
            == (var before := LoadAll(loaded, paths); if f in before then before else before + [f])
  {
    assert (paths + [f])[..|paths|] == paths;
  }
}
