/**
 * The three fetch-time field directives. Each listens for a single field
 * being fetched: it reads `methods.fetch.field` from the entries registry,
 * rewrites the field's value when it is a string, and writes the key and
 * the value back. `@var(path)` is replaced by a variable of the entry,
 * `@markdown` runs the markdown parser, `@shortcodes` (or, by default,
 * every string) runs the shortcode parser.
 */
module Directives {
  import opened Php
  import opened Text
  import opened Registry

  const FieldPath: seq<string> := ["methods", "fetch", "field"]
  const KeyPath: seq<string> := FieldPath + ["key"]
  const ValuePath: seq<string> := FieldPath + ["value"]
  const ResultPath: seq<string> := ["methods", "fetch", "result"]

  /** The enable switch of a directive in the application settings. */
  function EnabledPath(directive: string): seq<string>
  {
    ["flextype", "settings", "entries", "directives", directive, "enabled"]
  }

  /** The tail of every listener: the field's key and its (new) value written back. */
  function WriteField(data: Value, key: Value, value: Value): Value
  {
    SetPath(SetPath(data, KeyPath, key), ValuePath, value)
  }

  /** After the write-back the registry holds the key and the value, and nothing else has moved. */
  lemma WriteFieldEffect(data: Value, key: Value, value: Value, other: seq<string>)
    requires Disjoint(KeyPath, other) && Disjoint(ValuePath, other)
    ensures GetPath(WriteField(data, key, value), KeyPath) == key
    ensures GetPath(WriteField(data, key, value), ValuePath) == value
    ensures GetPath(WriteField(data, key, value), other) == GetPath(data, other)
  {
    var once := SetPath(data, KeyPath, key);
    GetAfterSet(data, KeyPath, key);
    GetAfterSet(once, ValuePath, value);
    assert Disjoint(ValuePath, KeyPath) by {
      assert ValuePath[..|KeyPath|] != KeyPath by { assert ValuePath[3] != KeyPath[3]; }
    }
    GetAfterSetElsewhere(once, ValuePath, value, KeyPath);
    GetAfterSetElsewhere(data, KeyPath, key, other);
    GetAfterSetElsewhere(once, ValuePath, value, other);
  }

  /** The field's key as read from the registry is the key stored under `methods.fetch.field.key`. */
  lemma FieldKeyIsStoredKey(data: Value)
    ensures Lookup(GetPath(data, FieldPath), "key") == GetPath(data, KeyPath)
    ensures Lookup(GetPath(data, FieldPath), "value") == GetPath(data, ValuePath)
  {
    GetPathExtend(data, FieldPath, "key");
    GetPathExtend(data, FieldPath, "value");
  }

  // ---------------------------------------------------------------------
  // @var(path)
  // ---------------------------------------------------------------------

  /** `explode('.', $path)`: the segments of a dotted path. */
  function Segments(path: string): (r: seq<string>)
    ensures |r| >= 1
  {
    match IndexOf(path, ".", 0)
    case None => [path]
    case Some(i) => [path[..i]] + Segments(path[i + 1..])
  }

  /** The replacement text for `@var(path)`: the variable under that dotted path, as a string. */
  function VarText(vars: Value, path: string): string
  {
    StrVal(GetPath(vars, Segments(path)))
  }

  /** The text holds a call `@var(` with a `)` somewhere after it. */
  predicate HasVarCall(s: string)
  {
    exists i, j :: 0 <= i && i + 5 <= j < |s| && OccursAt(s, "@var(", i) && s[j] == ')'
  }

  /**
   * `preg_replace_callback('/@var\((.*?)\)/s', ...)`: leftmost matches,
   * each ending at the first `)` after its `@var(`, replaced left to right.
   */
  function Interpolate(s: string, vars: Value): string
    decreases |s|
  {
    match FindCall(s)
    case None => s
    case Some((i, j)) => s[..i] + VarText(vars, s[i + 5..j]) + Interpolate(s[j + 1..], vars)
  }

  /** The leftmost `@var(` and the first `)` after it, when both exist. */
  function FindCall(s: string): (r: Option<(nat, nat)>)
    ensures r.Some? ==> r.value.0 + 5 <= r.value.1 < |s|
  {
    match IndexOf(s, "@var(", 0)
    case None => None
    case Some(i) =>
      match IndexOf(s, ")", i + 5)
      case None => None
      case Some(j) =>
        assert OccursAt(s, ")", j);
        Some((i, j))
  }

  /** Text without an `@var(` call closed by a later `)` is left as it is. */
  lemma InterpolateWithoutCall(s: string, vars: Value)
    ensures !HasVarCall(s) ==> Interpolate(s, vars) == s
  {
    match IndexOf(s, "@var(", 0)
    case None =>
    case Some(i) =>
      match IndexOf(s, ")", i + 5)
      case None =>
      case Some(j) =>
        assert OccursAt(s, ")", j) && s[j..j + 1] == [s[j]];
        assert HasVarCall(s);
  }

  /**
   * The first call is replaced by its variable, the text before it is
   * kept, and the rest is processed alike.
   */
  lemma InterpolateFirst(pre: string, path: string, post: string, vars: Value)
    requires forall j :: 0 <= j < |pre| ==> !OccursAt(pre + "@var(", "@var(", j)
    requires forall k :: 0 <= k < |path| ==> path[k] != ')'
    ensures Interpolate(pre + "@var(" + path + ")" + post, vars)
            == pre + VarText(vars, path) + Interpolate(post, vars)
  {
    var s := pre + "@var(" + path + ")" + post;
    var tail := path + ")" + post;
    assert s == (pre + "@var(") + tail;
    assert s[..|pre| + 5] == pre + "@var(";
    assert s[|pre| + 5..] == tail;
    InterpolateAt(s, pre, path, post, vars);
  }

  /** `InterpolateFirst` for a text given by its pieces. */
  lemma InterpolateAt(s: string, pre: string, path: string, post: string, vars: Value)
    requires |pre| + 5 <= |s| && s[..|pre| + 5] == pre + "@var(" && s[|pre| + 5..] == path + ")" + post
    requires forall j :: 0 <= j < |pre| ==> !OccursAt(pre + "@var(", "@var(", j)
    requires forall k :: 0 <= k < |path| ==> path[k] != ')'
    ensures Interpolate(s, vars) == pre + VarText(vars, path) + Interpolate(post, vars)
  {
    var i := |pre|;
    var j := i + 5 + |path|;
    CallFoundAt(s, pre, path, post);
    PiecesAt(s, pre, path, post);
    InterpolateSplice(s, vars, i, j, pre, path, post);
  }

  lemma InterpolateSplice(s: string, vars: Value, i: nat, j: nat, pre: string, path: string, post: string)
    requires FindCall(s) == Some((i, j))
    requires s[..i] == pre && s[i + 5..j] == path && s[j + 1..] == post
    ensures Interpolate(s, vars) == pre + VarText(vars, path) + Interpolate(post, vars)
  {
    InterpolateStep(s, vars, i, j);
  }

  lemma CallFoundAt(s: string, pre: string, path: string, post: string)
    requires |pre| + 5 <= |s| && s[..|pre| + 5] == pre + "@var(" && s[|pre| + 5..] == path + ")" + post
    requires forall j :: 0 <= j < |pre| ==> !OccursAt(pre + "@var(", "@var(", j)
    requires forall k :: 0 <= k < |path| ==> path[k] != ')'
    ensures FindCall(s) == Some((|pre|, |pre| + 5 + |path|))
  {
    OpeningFound(s, pre);
    ClosingFound(s, |pre| + 5, path, post);
  }

  lemma PiecesAt(s: string, pre: string, path: string, post: string)
    requires |pre| + 5 <= |s| && s[..|pre| + 5] == pre + "@var(" && s[|pre| + 5..] == path + ")" + post
    ensures var i, j := |pre|, |pre| + 5 + |path|;
            j < |s| && s[..i] == pre && s[i + 5..j] == path && s[j + 1..] == post
  {
    var i := |pre|;
    var j := i + 5 + |path|;
    assert s[..i] == s[..i + 5][..i] == pre;
    assert s[i + 5..j] == s[i + 5..][..|path|] == path;
    assert s[j + 1..] == s[i + 5..][|path| + 1..] == post;
  }

  /** One step of the substitution, once the call is found. */
  lemma InterpolateStep(s: string, vars: Value, i: nat, j: nat)
    requires FindCall(s) == Some((i, j))
    ensures Interpolate(s, vars) == s[..i] + VarText(vars, s[i + 5..j]) + Interpolate(s[j + 1..], vars)
  {
  }

  /** The matcher finds the first call where the text before it holds none. */
  lemma OpeningFound(s: string, pre: string)
    requires |pre| + 5 <= |s| && s[..|pre| + 5] == pre + "@var("
    requires forall j :: 0 <= j < |pre| ==> !OccursAt(pre + "@var(", "@var(", j)
    ensures IndexOf(s, "@var(", 0) == Some(|pre|)
  {
    var i := |pre|;
    var head := pre + "@var(";
    assert OccursAt(s, "@var(", i) by {
      assert s[i..i + 5] == head[i..i + 5];
    }
    forall j | 0 <= j < i
      ensures !OccursAt(s, "@var(", j)
    {
      assert head[j..j + 5] == s[j..j + 5];
      assert !OccursAt(head, "@var(", j);
    }
    NoEarlierMatch(s, "@var(", 0, i);
  }

  /** The matcher finds the first `)` after the opening when the path holds none. */
  lemma ClosingFound(s: string, from: nat, path: string, post: string)
    requires from <= |s| && s[from..] == path + ")" + post
    requires forall k :: 0 <= k < |path| ==> path[k] != ')'
    ensures IndexOf(s, ")", from) == Some(from + |path|)
  {
    var j := from + |path|;
    assert s[j] == s[from..][|path|] == ')';
    assert OccursAt(s, ")", j) by {
      assert s[j..j + 1] == [s[j]];
    }
    forall k | from <= k < j
      ensures !OccursAt(s, ")", k)
    {
      assert s[k] == s[from..][k - from] == path[k - from];
      assert s[k..k + 1] == [s[k]];
    }
    NoEarlierMatch(s, ")", from, j);
  }

  /** The search stops at the first occurrence. */
  lemma {:induction false} NoEarlierMatch(s: string, pat: string, from: nat, at: nat)
    requires from <= at && OccursAt(s, pat, at)
    requires forall k :: from <= k < at ==> !OccursAt(s, pat, k)
    ensures IndexOf(s, pat, from) == Some(at)
    decreases at - from
  {
    if from < at {
      NoEarlierMatch(s, pat, from + 1, at);
    }
  }

  /** The value rewrite of the `@var` directive: strings are interpolated, anything else is kept. */
  function VarsRewrite(value: Value, vars: Value): (r: Value)
    ensures !value.Str? ==> r == value
    ensures value.Str? ==> r.Str?
  {
    if value.Str? then Str(Interpolate(value.s, vars)) else value
  }

  /** The registry after the `@var` listener. */
  function VarsEffect(settings: Value, data: Value): Value
  {
    if !Truthy(GetPath(settings, EnabledPath("vars"))) then data
    else
      var field := GetPath(data, FieldPath);
      var result := GetPath(data, ResultPath);
      WriteField(data, Lookup(field, "key"), VarsRewrite(Lookup(field, "value"), Lookup(result, "vars")))
  }

  /** The `@var` listener, updating the entries registry in place. */
  method VarsListener(settings: Value, store: Store)
    modifies store
    ensures store.data == VarsEffect(settings, old(store.data))
  {
    if !Truthy(GetPath(settings, EnabledPath("vars"))) {
      return;
    }
    var field := GetPath(store.data, FieldPath);
    var result := GetPath(store.data, ResultPath);
    var value := Lookup(field, "value");
    if value.Str? {
      value := Str(Interpolate(value.s, Lookup(result, "vars")));
    }
    store.Set(KeyPath, Lookup(field, "key"));
    store.Set(ValuePath, value);
  }

  // ---------------------------------------------------------------------
  // @markdown
  // ---------------------------------------------------------------------

  /** The value rewrite of the `@markdown` directive. */
  function MarkdownRewrite(value: Value, markdown: string -> string): (r: Value)
    ensures !(value.Str? && Contains(value.s, "@markdown")) ==> r == value
    ensures value.Str? && Contains(value.s, "@markdown") ==>
              r.Str? && (r.s == [] || (!IsBlank(r.s[0]) && !IsBlank(r.s[|r.s| - 1])))
  {
    if value.Str? && Contains(value.s, "@markdown") then
      Str(Trim(ReplaceAll(markdown(value.s), "@markdown", "")))
    else value
  }

  /** A rewritten value that no longer holds the marker is left alone by a second pass. */
  lemma MarkdownSettles(value: Value, markdown: string -> string)
    requires var r := MarkdownRewrite(value, markdown); r.Str? ==> !Contains(r.s, "@markdown")
    ensures MarkdownRewrite(MarkdownRewrite(value, markdown), markdown) == MarkdownRewrite(value, markdown)
  {
  }

  function MarkdownEffect(settings: Value, data: Value, markdown: string -> string): Value
  {
    if !Truthy(GetPath(settings, EnabledPath("markdown"))) then data
    else
      var field := GetPath(data, FieldPath);
      WriteField(data, Lookup(field, "key"), MarkdownRewrite(Lookup(field, "value"), markdown))
  }

  /** The `@markdown` listener, updating the entries registry in place. */
  method MarkdownListener(settings: Value, store: Store, markdown: string -> string)
    modifies store
    ensures store.data == MarkdownEffect(settings, old(store.data), markdown)
  {
    if !Truthy(GetPath(settings, EnabledPath("markdown"))) {
      return;
    }
    var field := GetPath(store.data, FieldPath);
    var value := Lookup(field, "value");
    if value.Str? {
      if Contains(value.s, "@markdown") {
        value := Str(Trim(ReplaceAll(markdown(value.s), "@markdown", "")));
      }
    }
    store.Set(KeyPath, Lookup(field, "key"));
    store.Set(ValuePath, value);
  }

  // ---------------------------------------------------------------------
  // @shortcodes
  // ---------------------------------------------------------------------

  const ShortcodesParserPath: seq<string> := ["flextype", "settings", "entries", "parsers", "shortcodes", "enabled"]

  /**
   * The value rewrite of the `@shortcodes` directive: with the marker the
   * parsed text without the marker, trimmed; without it the parsed text as
   * it is, unless the shortcode parser is switched off with a strict `false`.
   * Only strings are touched, and a string stays a string.
   */
  function ShortcodesRewrite(value: Value, parserSwitch: Value, shortcodes: string -> string): (r: Value)
    ensures !value.Str? ==> r == value
    ensures value.Str? ==> r.Str?
    ensures value.Str? && Contains(value.s, "@shortcodes") ==>
              r.s == [] || (!IsBlank(r.s[0]) && !IsBlank(r.s[|r.s| - 1]))
    ensures value.Str? && !Contains(value.s, "@shortcodes") && parserSwitch == Bool(false) ==> r == value
    ensures value.Str? && !Contains(value.s, "@shortcodes") && parserSwitch != Bool(false) ==>
              r == Str(shortcodes(value.s))
  {
    if !value.Str? then value
    else if Contains(value.s, "@shortcodes") then Str(Trim(ReplaceAll(shortcodes(value.s), "@shortcodes", "")))
    else if parserSwitch != Bool(false) then Str(shortcodes(value.s))
    else value
  }

  /**
   * A rewritten value that no longer holds the marker is left alone by a
   * second pass, provided the shortcode parser (when it is on) has nothing
   * more to expand in it.
   */
  lemma ShortcodesSettles(value: Value, parserSwitch: Value, shortcodes: string -> string)
    requires var r := ShortcodesRewrite(value, parserSwitch, shortcodes);
             r.Str? ==> !Contains(r.s, "@shortcodes") && (parserSwitch != Bool(false) ==> shortcodes(r.s) == r.s)
    ensures var r := ShortcodesRewrite(value, parserSwitch, shortcodes);
            ShortcodesRewrite(r, parserSwitch, shortcodes) == r
  {
  }

  function ShortcodesEffect(settings: Value, data: Value, shortcodes: string -> string): Value
  {
    if !Truthy(GetPath(settings, EnabledPath("shortcodes"))) then data
    else
      var field := GetPath(data, FieldPath);
      WriteField(data, Lookup(field, "key"),
                 ShortcodesRewrite(Lookup(field, "value"), GetPath(settings, ShortcodesParserPath), shortcodes))
  }

  /** The `@shortcodes` listener, updating the entries registry in place. */
  method ShortcodesListener(settings: Value, store: Store, shortcodes: string -> string)
    modifies store
    ensures store.data == ShortcodesEffect(settings, old(store.data), shortcodes)
  {
    if !Truthy(GetPath(settings, EnabledPath("shortcodes"))) {
      return;
    }
    var field := GetPath(store.data, FieldPath);
    var value := Lookup(field, "value");
    if value.Str? {
      if Contains(value.s, "@shortcodes") {
        value := Str(Trim(ReplaceAll(shortcodes(value.s), "@shortcodes", "")));
      } else if GetPath(settings, ShortcodesParserPath) != Bool(false) {
        value := Str(shortcodes(value.s));
      }
    }
    store.Set(KeyPath, Lookup(field, "key"));
    store.Set(ValuePath, value);
  }

  // ---------------------------------------------------------------------
  // What every directive listener guarantees
  // ---------------------------------------------------------------------

  /** The three listeners, as transformations of the entries registry. */
  datatype Directive = Vars | Markdown | Shortcodes

  function Rewrite(d: Directive, settings: Value, data: Value, markdown: string -> string,
                   shortcodes: string -> string): Value
  {
    var value := GetPath(data, ValuePath);
    match d
    case Vars => VarsRewrite(value, Lookup(GetPath(data, ResultPath), "vars"))
    case Markdown => MarkdownRewrite(value, markdown)
    case Shortcodes => ShortcodesRewrite(value, GetPath(settings, ShortcodesParserPath), shortcodes)
  }

  function Effect(d: Directive, settings: Value, data: Value, markdown: string -> string,
                  shortcodes: string -> string): Value
  {
    match d
    case Vars => VarsEffect(settings, data)
    case Markdown => MarkdownEffect(settings, data, markdown)
    case Shortcodes => ShortcodesEffect(settings, data, shortcodes)
  }

  function SwitchName(d: Directive): string
  {
    match d
    case Vars => "vars"
    case Markdown => "markdown"
    case Shortcodes => "shortcodes"
  }

  /** A switched-off directive writes nothing. */
  lemma DisabledWritesNothing(d: Directive, settings: Value, data: Value, markdown: string -> string,
                              shortcodes: string -> string)
    requires !Truthy(GetPath(settings, EnabledPath(SwitchName(d))))
    ensures Effect(d, settings, data, markdown, shortcodes) == data
  {
  }

  /**
   * A switched-on directive keeps the field's key, stores the rewritten
   * value, and leaves every place of the registry outside the field's key
   * and value untouched.
   */
  lemma EnabledRewritesValueOnly(d: Directive, settings: Value, data: Value, markdown: string -> string,
                                 shortcodes: string -> string, other: seq<string>)
    requires Truthy(GetPath(settings, EnabledPath(SwitchName(d))))
    requires Disjoint(KeyPath, other) && Disjoint(ValuePath, other)
    ensures var after := Effect(d, settings, data, markdown, shortcodes);
            && GetPath(after, KeyPath) == GetPath(data, KeyPath)
            && GetPath(after, ValuePath) == Rewrite(d, settings, data, markdown, shortcodes)
            && GetPath(after, other) == GetPath(data, other)
  {
    FieldKeyIsStoredKey(data);
    var field := GetPath(data, FieldPath);
    match d
    case Vars =>
      WriteFieldEffect(data, Lookup(field, "key"),
                       VarsRewrite(Lookup(field, "value"), Lookup(GetPath(data, ResultPath), "vars")), other);
    case Markdown =>
      WriteFieldEffect(data, Lookup(field, "key"), MarkdownRewrite(Lookup(field, "value"), markdown), other);
    case Shortcodes =>
      WriteFieldEffect(data, Lookup(field, "key"),
                       ShortcodesRewrite(Lookup(field, "value"), GetPath(settings, ShortcodesParserPath), shortcodes), other);
  }
}
