/**
 * Which items of a collection plugin are shown (src/plugins/filter.rs). Whether a pattern matches a
 * key is left to the caller: `matches(pattern, key)`.
 */
module Filters {
  predicate AnyMatch(patterns: seq<string>, matches: (string, string) -> bool, key: string) {
    exists i :: 0 <= i < |patterns| && matches(patterns[i], key)
  }

  datatype KeyFilter = KeyFilter(shows: seq<string>, hides: seq<string>) {
    /** `hide` wins over `show`; an empty `show` list means every key. */
    predicate Shown(matches: (string, string) -> bool, key: string) {
      (shows == [] || AnyMatch(shows, matches, key)) && !AnyMatch(hides, matches, key)
    }
  }

  function HideOrDefault(user: seq<string>, defaults: seq<string>): seq<string> {
    if user == [] then defaults else user
  }

  /** The filter that a plugin builds from its section and its own default `hide` list. */
  function FilterOf(shows: seq<string>, hides: seq<string>, defaults: seq<string>): KeyFilter {
    KeyFilter(shows, HideOrDefault(hides, defaults))
  }

  function ShownBy(f: KeyFilter, matches: (string, string) -> bool): string -> bool {
    (key: string) => f.Shown(matches, key)
  }

  lemma AnyMatchOfConcat(a: seq<string>, b: seq<string>, matches: (string, string) -> bool, key: string)
    ensures AnyMatch(a + b, matches, key) <==> AnyMatch(a, matches, key) || AnyMatch(b, matches, key)
  {
    var c := a + b;
    if AnyMatch(a, matches, key) {
      var i :| 0 <= i < |a| && matches(a[i], key);
      assert c[i] == a[i];
    }
    if AnyMatch(b, matches, key) {
      var i :| 0 <= i < |b| && matches(b[i], key);
      assert c[|a| + i] == b[i];
    }
  }

  /**
   * More `hide` patterns only hide, and more `show` patterns only show, except that the first `show`
   * pattern turns "everything" into "what it matches".
   */
  lemma FilterMonotone(f: KeyFilter, shows: seq<string>, hides: seq<string>, matches: (string, string) -> bool,
                       key: string)
    ensures f.(hides := f.hides + hides).Shown(matches, key) <==>
            f.Shown(matches, key) && !AnyMatch(hides, matches, key)
    ensures f.shows != [] ==>
              (f.(shows := f.shows + shows).Shown(matches, key) <==>
               f.Shown(matches, key) || (AnyMatch(shows, matches, key) && !AnyMatch(f.hides, matches, key)))
    ensures f.shows == [] && shows != [] ==>
              (f.(shows := f.shows + shows).Shown(matches, key) <==>
               f.Shown(matches, key) && AnyMatch(shows, matches, key))
  {
    AnyMatchOfConcat(f.hides, hides, matches, key);
    AnyMatchOfConcat(f.shows, shows, matches, key);
  }

  /**
   * A first configured `hide` list replaces the plugin's default one: it shows a key that was hidden
   * exactly when a default pattern was all that hid it, and hides a shown key exactly when it matches it.
   */
  lemma FirstHideReplacesDefaults(shows: seq<string>, hides: seq<string>, defaults: seq<string>,
                                  matches: (string, string) -> bool, key: string)
    requires hides != []
    ensures var before, after := FilterOf(shows, [], defaults), FilterOf(shows, hides, defaults);
            var selected := shows == [] || AnyMatch(shows, matches, key);
            && (!before.Shown(matches, key) && after.Shown(matches, key) <==>
                selected && AnyMatch(defaults, matches, key) && !AnyMatch(hides, matches, key))
            && (before.Shown(matches, key) && !after.Shown(matches, key) <==>
                selected && !AnyMatch(defaults, matches, key) && AnyMatch(hides, matches, key))
  {
  }
}
