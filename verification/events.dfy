/**
 * The event emitter as the content pipeline uses it: the listeners of an
 * event are called one after another, in the order they were registered,
 * each reading and updating the same registry.
 */
module Events {
  import opened Php
  import opened Registry
  import Directives
  import Fields

  /** The listeners of this model. */
  datatype Listener =
    | VarsDirective
    | MarkdownDirective
    | ShortcodesDirective
    | UuidField
    | PublishedAtOnCreate
    | PublishedAtOnFetch
    | ModifiedAtField

  /** What the listeners consult besides the registry they update. */
  datatype Services = Services(
    settings: Value,
    markdown: string -> string,
    shortcodes: string -> string,
    fields: Fields.FieldEnv)

  function Apply(l: Listener, sv: Services, data: Value): Value
  {
    match l
    case VarsDirective => Directives.VarsEffect(sv.settings, data)
    case MarkdownDirective => Directives.MarkdownEffect(sv.settings, data, sv.markdown)
    case ShortcodesDirective => Directives.ShortcodesEffect(sv.settings, data, sv.shortcodes)
    case UuidField => Fields.UuidEffect(data, sv.fields)
    case PublishedAtOnCreate => Fields.PublishedAtCreateEffect(data, sv.settings, sv.fields)
    case PublishedAtOnFetch => Fields.PublishedAtFetchEffect(data, sv.fields)
    case ModifiedAtField => Fields.ModifiedAtEffect(data, sv.settings, sv.fields)
  }

  /** The registry after the listeners ran, first registered first. */
  function ApplyAll(listeners: seq<Listener>, sv: Services, data: Value): Value
    decreases |listeners|
  {
    if listeners == [] then data
    else Apply(listeners[|listeners| - 1], sv, ApplyAll(listeners[..|listeners| - 1], sv, data))
  }

  /** Emitting to two groups of listeners is emitting to the first, then to the second. */
  lemma {:induction false} ApplyAllConcat(first: seq<Listener>, second: seq<Listener>, sv: Services, data: Value)
    ensures ApplyAll(first + second, sv, data) == ApplyAll(second, sv, ApplyAll(first, sv, data))
    decreases |second|
  {
    if second == [] {
      assert first + second == first;
    } else {
      var init := second[..|second| - 1];
      assert (first + second)[..|first + second| - 1] == first + init;
      ApplyAllConcat(first, init, sv, data);
    }
  }

  /** Listeners whose switches are all off leave the registry as it was. */
  lemma {:induction false} SilentListeners(listeners: seq<Listener>, sv: Services, data: Value)
    requires forall i :: 0 <= i < |listeners| ==> Apply(listeners[i], sv, data) == data
    ensures ApplyAll(listeners, sv, data) == data
    decreases |listeners|
  {
    if listeners != [] {
      SilentListeners(listeners[..|listeners| - 1], sv, data);
      assert Apply(listeners[|listeners| - 1], sv, data) == data;
    }
  }

  /** Calls one listener on the registry. */
  method Dispatch(l: Listener, sv: Services, store: Store)
    modifies store
    ensures store.data == Apply(l, sv, old(store.data))
  {
    match l
    case VarsDirective => Directives.VarsListener(sv.settings, store);
    case MarkdownDirective => Directives.MarkdownListener(sv.settings, store, sv.markdown);
    case ShortcodesDirective => Directives.ShortcodesListener(sv.settings, store, sv.shortcodes);
    case UuidField => Fields.UuidListener(store, sv.fields);
    case PublishedAtOnCreate => Fields.PublishedAtCreateListener(store, sv.settings, sv.fields);
    case PublishedAtOnFetch => Fields.PublishedAtFetchListener(store, sv.fields);
    case ModifiedAtField => Fields.ModifiedAtListener(store, sv.settings, sv.fields);
  }

  /** `emit`: every listener of the event, in registration order. */
  method Emit(listeners: seq<Listener>, sv: Services, store: Store)
    modifies store
    ensures store.data == ApplyAll(listeners, sv, old(store.data))
  {
    for i := 0 to |listeners|
      invariant store.data == ApplyAll(listeners[..i], sv, old(store.data))
    {
      assert listeners[..i + 1][..i] == listeners[..i];
      Dispatch(listeners[i], sv, store);
    }
    assert listeners[..|listeners|] == listeners;
  }
}
