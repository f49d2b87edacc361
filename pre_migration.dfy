/**
 * The source-selection screen shown before a migration: which catalogue sources start
 * enabled, how the selection is saved, and the toggles (select all, invert, only
 * enabled, only pinned, per language) that rewrite the items' enabled flags.
 */
module PreMigration {
  import opened Wrappers
  import opened Text
  import opened Sorting

  /** A catalogue source; `isHttp` says whether it is an `HttpSource`. */
  datatype Source = Source(id: int, lang: string, name: string, isHttp: bool)

  /** A row of the list: a source and its switch. */
  datatype Item = Item(source: Source, enabled: bool)

  /** `prefs.get().mapNotNull { it.toLongOrNull() }` */
  function ParsedIds(ss: seq<string>): (r: seq<int>)
    ensures forall i :: 0 <= i < |ss| && ToLongOrNull(ss[i]).Some? ==> ToLongOrNull(ss[i]).value in r
    ensures forall x :: x in r ==> exists i :: 0 <= i < |ss| && ToLongOrNull(ss[i]) == Some(x)
    decreases |ss|
  {
    if |ss| == 0 then []
    else
      var rest := ParsedIds(ss[1..]);
      assert forall i :: 1 <= i < |ss| ==> ss[i] == ss[1..][i - 1];
      match ToLongOrNull(ss[0])
      case None => rest
      case Some(v) => [v] + rest
  }

  // ---------------------------------------------------------------------------
  // Saved selection

  /** `none { ... }` over the enabled items is the same check over the enabled rows. */
  lemma EnabledItemsNone(items: seq<Item>, hidden: seq<int>, pinned: seq<int>)
    ensures var enabled := EnabledItems(items);
            && ((forall i :: 0 <= i < |enabled| ==> enabled[i].source.id !in hidden)
                <==> (forall i :: 0 <= i < |items| && items[i].enabled ==> items[i].source.id !in hidden))
            && ((forall i :: 0 <= i < |enabled| ==> enabled[i].source.id in pinned)
                <==> (forall i :: 0 <= i < |items| && items[i].enabled ==> items[i].source.id in pinned))
  {
    var enabled := EnabledItems(items);
    forall i | 0 <= i < |items| && items[i].enabled
      ensures items[i] in enabled
    {
    }
    forall j | 0 <= j < |enabled|
      ensures enabled[j] in items && enabled[j].enabled
    {
    }
  }

  /** `isEnabled`: with nothing saved a source is enabled unless hidden; otherwise iff its
    * id is one of the saved `/`-separated entries. */
  predicate IsEnabled(saved: string, hidden: seq<int>, id: int)
  {
    if saved == "" then id !in hidden else IntToString(id) in Split(saved, '/')
  }

  function EnabledItems(items: seq<Item>): seq<Item>
  {
    Filter(items, (it: Item) => it.enabled)
  }

  function IdStrings(items: seq<Item>): (r: seq<string>)
    ensures |r| == |items|
    ensures forall i :: 0 <= i < |items| ==> r[i] == IntToString(items[i].source.id)
  {
    seq(|items|, i requires 0 <= i < |items| => IntToString(items[i].source.id))
  }

  /** The `migrationSources` value `startMigration` writes: enabled ids joined by `/`. */
  function SavedSelection(items: seq<Item>): string
  {
    Join(IdStrings(EnabledItems(items)), '/')
  }

  lemma JoinNonEmpty(parts: seq<string>, d: char)
    requires |parts| >= 1 && |parts[0]| >= 1
    ensures Join(parts, d) != ""
  {
    if |parts| > 1 {
      assert Join(parts, d)[0] == parts[0][0];
    }
  }

  /** Saving the selection and reading it back enables exactly the sources that were
    * enabled, as long as at least one was. */
  lemma SavedSelectionRoundTrip(items: seq<Item>, hidden: seq<int>, id: int)
    requires exists i :: 0 <= i < |items| && items[i].enabled
    ensures IsEnabled(SavedSelection(items), hidden, id) <==>
            exists i :: 0 <= i < |items| && items[i].enabled && items[i].source.id == id
  {
    var en := EnabledItems(items);
    var parts := IdStrings(en);
    var i0 :| 0 <= i0 < |items| && items[i0].enabled;
    assert items[i0] in en;
    forall k | 0 <= k < |parts|
      ensures '/' !in parts[k]
    {
      IntToStringNoSlash(en[k].source.id);
    }
    SplitJoin(parts, '/');
    JoinNonEmpty(parts, '/');
    if IsEnabled(SavedSelection(items), hidden, id) {
      var k :| 0 <= k < |parts| && parts[k] == IntToString(id);
      IntToStringInjective(en[k].source.id, id);
      assert en[k] in items;
    }
    if exists i :: 0 <= i < |items| && items[i].enabled && items[i].source.id == id {
      var i :| 0 <= i < |items| && items[i].enabled && items[i].source.id == id;
      assert items[i] in en;
      var k :| 0 <= k < |en| && en[k] == items[i];
      assert parts[k] == IntToString(id);
    }
  }

  /** With nothing enabled the saved value is empty, so the next visit falls back to
    * "everything not hidden". */
  lemma EmptySelectionFallsBack(items: seq<Item>, hidden: seq<int>, id: int)
    requires forall i :: 0 <= i < |items| ==> !items[i].enabled
    ensures SavedSelection(items) == ""
    ensures IsEnabled(SavedSelection(items), hidden, id) <==> id !in hidden
  {
  }

  // ---------------------------------------------------------------------------
  // getEnabledSources

  /** `filterIsInstance<HttpSource>().filter { it.lang in enabledLanguages }` */
  function HttpInLanguages(langs: set<string>): Source -> bool
  {
    (s: Source) => s.isHttp && s.lang in langs
  }

  function EnabledIn(saved: string, hidden: seq<int>): Source -> bool
  {
    (s: Source) => IsEnabled(saved, hidden, s.id)
  }

  /** `"(${lang}) ${name}"` */
  function Label(s: Source): string
  {
    "(" + s.lang + ") " + s.name
  }

  function ByLabel(a: Source, b: Source): bool
  {
    StrLe(Label(a), Label(b))
  }

  /** `sourcesSaved.indexOf(id.toString())`, -1 when absent. */
  function SavedIndex(saved: string): Source -> int
  {
    (s: Source) => IndexOf(Split(saved, '/'), IntToString(s.id))
  }

  /** `getEnabledSources` over the catalogue sources. */
  function EnabledSources(catalogue: seq<Source>, langs: set<string>, saved: string, hidden: seq<int>): (r: seq<Source>)
    ensures multiset(r) == multiset(Filter(catalogue, HttpInLanguages(langs)))
  {
    var sources := SortBy(Filter(catalogue, HttpInLanguages(langs)), ByLabel);
    var enabled := Filter(sources, EnabledIn(saved, hidden));
    var disabled := Reject(sources, EnabledIn(saved, hidden));
    FilterRejectSplit(sources, EnabledIn(saved, hidden));
    SortBy(enabled, ByIntKey(SavedIndex(saved))) + disabled
  }



  /** Only HTTP catalogue sources in an enabled language are listed, and every one of them is. */
  lemma EnabledSourcesListed(catalogue: seq<Source>, langs: set<string>, saved: string, hidden: seq<int>)
    ensures var r := EnabledSources(catalogue, langs, saved, hidden);
            && (forall i :: 0 <= i < |r| ==> r[i] in catalogue && r[i].isHttp && r[i].lang in langs)
            && (forall i :: 0 <= i < |catalogue| && catalogue[i].isHttp && catalogue[i].lang in langs ==> catalogue[i] in r)
  {
    var r := EnabledSources(catalogue, langs, saved, hidden);
    var kept := Filter(catalogue, HttpInLanguages(langs));
    forall i | 0 <= i < |r|
      ensures r[i] in catalogue && r[i].isHttp && r[i].lang in langs
    {
      assert r[i] in multiset(r);
      assert r[i] in kept;
    }
    forall i | 0 <= i < |catalogue| && catalogue[i].isHttp && catalogue[i].lang in langs
      ensures catalogue[i] in r
    {
      assert HttpInLanguages(langs)(catalogue[i]);
      assert catalogue[i] in multiset(kept);
    }
  }

  lemma ByLabelPreorder()
    ensures TotalPreorder(ByLabel)
  {
    StrLePreorder();
    forall a, b
      ensures ByLabel(a, b) || ByLabel(b, a)
    {
      StrLeTotal(Label(a), Label(b));
    }
    forall a, b, c | ByLabel(a, b) && ByLabel(b, c)
      ensures ByLabel(a, c)
    {
      StrLeTrans(Label(a), Label(b), Label(c));
    }
  }

  /** The enabled sources come first, by saved position; the rest follow in
    * "(lang) name" order. */
  lemma EnabledSourcesOrder(catalogue: seq<Source>, langs: set<string>, saved: string, hidden: seq<int>)
    ensures var r := EnabledSources(catalogue, langs, saved, hidden);
            exists k :: 0 <= k <= |r|
              && (forall i :: 0 <= i < k ==> IsEnabled(saved, hidden, r[i].id))
              && (forall i :: k <= i < |r| ==> !IsEnabled(saved, hidden, r[i].id))
              && Sorted(r[..k], ByIntKey(SavedIndex(saved)))
              && Sorted(r[k..], ByLabel)
  {
    var sources := SortBy(Filter(catalogue, HttpInLanguages(langs)), ByLabel);
    var first := SortBy(Filter(sources, EnabledIn(saved, hidden)), ByIntKey(SavedIndex(saved)));
    var disabled := Reject(sources, EnabledIn(saved, hidden));
    EnabledSourcesBlocks(catalogue, langs, saved, hidden);
    ByIntKeyPreorder(SavedIndex(saved));
    SortBySorted(Filter(sources, EnabledIn(saved, hidden)), ByIntKey(SavedIndex(saved)));
    ByLabelPreorder();
    SortBySorted(Filter(catalogue, HttpInLanguages(langs)), ByLabel);
    RejectSorted(sources, EnabledIn(saved, hidden), ByLabel);
    EnabledBlock(sources, saved, hidden);
    DisabledBlock(sources, saved, hidden);
    BlocksOrder(first, disabled, saved, hidden);
  }

  /** The listed sources are the sorted enabled block followed by the disabled block. */
  lemma EnabledSourcesBlocks(catalogue: seq<Source>, langs: set<string>, saved: string, hidden: seq<int>)
    ensures var sources := SortBy(Filter(catalogue, HttpInLanguages(langs)), ByLabel);
            EnabledSources(catalogue, langs, saved, hidden)
              == SortBy(Filter(sources, EnabledIn(saved, hidden)), ByIntKey(SavedIndex(saved)))
                 + Reject(sources, EnabledIn(saved, hidden))
  {
  }

  /** Sorting the enabled sources by saved position keeps them enabled. */
  lemma EnabledBlock(sources: seq<Source>, saved: string, hidden: seq<int>)
    ensures var first := SortBy(Filter(sources, EnabledIn(saved, hidden)), ByIntKey(SavedIndex(saved)));
            forall i :: 0 <= i < |first| ==> IsEnabled(saved, hidden, first[i].id)
  {
    var enabled := Filter(sources, EnabledIn(saved, hidden));
    var first := SortBy(enabled, ByIntKey(SavedIndex(saved)));
    forall i | 0 <= i < |first|
      ensures IsEnabled(saved, hidden, first[i].id)
    {
      assert first[i] in multiset(enabled);
      assert first[i] in enabled;
    }
  }

  lemma DisabledBlock(sources: seq<Source>, saved: string, hidden: seq<int>)
    ensures var disabled := Reject(sources, EnabledIn(saved, hidden));
            forall i :: 0 <= i < |disabled| ==> !IsEnabled(saved, hidden, disabled[i].id)
  {
    var disabled := Reject(sources, EnabledIn(saved, hidden));
    forall i | 0 <= i < |disabled|
      ensures !IsEnabled(saved, hidden, disabled[i].id)
    {
      assert !EnabledIn(saved, hidden)(disabled[i]);
    }
  }

  /** Two sorted blocks, enabled then disabled, split at the length of the first. */
  lemma BlocksOrder(first: seq<Source>, disabled: seq<Source>, saved: string, hidden: seq<int>)
    requires forall i :: 0 <= i < |first| ==> IsEnabled(saved, hidden, first[i].id)
    requires forall i :: 0 <= i < |disabled| ==> !IsEnabled(saved, hidden, disabled[i].id)
    requires Sorted(first, ByIntKey(SavedIndex(saved))) && Sorted(disabled, ByLabel)
    ensures var r := first + disabled;
            exists k :: 0 <= k <= |r|
              && (forall i :: 0 <= i < k ==> IsEnabled(saved, hidden, r[i].id))
              && (forall i :: k <= i < |r| ==> !IsEnabled(saved, hidden, r[i].id))
              && Sorted(r[..k], ByIntKey(SavedIndex(saved)))
              && Sorted(r[k..], ByLabel)
  {
    var r := first + disabled;
    var k := |first|;
    assert r[..k] == first && r[k..] == disabled;
    assert forall i :: k <= i < |r| ==> r[i] == disabled[i - k];
  }




  // ---------------------------------------------------------------------------
  // Display order after a select or re-filter

  /** `sortedBy { name }.sortedBy { !sourceEnabled }`: enabled first, by name within each
    * block. */
  function DisplayLe(a: Item, b: Item): bool
  {
    (a.enabled && !b.enabled) || (a.enabled == b.enabled && StrLe(a.source.name, b.source.name))
  }

  lemma DisplayLePreorder()
    ensures TotalPreorder(DisplayLe)
  {
    forall a, b
      ensures DisplayLe(a, b) || DisplayLe(b, a)
    {
      StrLeTotal(a.source.name, b.source.name);
    }
    forall a, b, c | DisplayLe(a, b) && DisplayLe(b, c)
      ensures DisplayLe(a, c)
    {
      if a.enabled == b.enabled && b.enabled == c.enabled {
        StrLeTrans(a.source.name, b.source.name, c.source.name);
      }
    }
  }

  /** The displayed list is a permutation with the enabled items first, each block in
    * name order. */
  lemma DisplayOrder(items: seq<Item>)
    ensures var r := SortBy(items, DisplayLe);
            && multiset(r) == multiset(items)
            && (forall i, j :: 0 <= i < j < |r| && r[j].enabled ==> r[i].enabled)
            && (forall i, j :: 0 <= i < j < |r| && r[i].enabled == r[j].enabled ==> StrLe(r[i].source.name, r[j].source.name))
  {
    DisplayLePreorder();
    SortBySorted(items, DisplayLe);
  }

  /** `select all`: enable everything if anything is off, else disable everything. */
  function SelectAll(items: seq<Item>): (r: seq<Item>)
    ensures |r| == |items|
    ensures forall i :: 0 <= i < |items| ==> r[i].source == items[i].source
    ensures (exists i :: 0 <= i < |items| && !items[i].enabled) ==> forall i :: 0 <= i < |r| ==> r[i].enabled
    ensures (forall i :: 0 <= i < |items| ==> items[i].enabled) ==> forall i :: 0 <= i < |r| ==> !r[i].enabled
  {
    var shouldSelect := exists i :: 0 <= i < |items| && !items[i].enabled;
    seq(|items|, i requires 0 <= i < |items| => items[i].(enabled := shouldSelect))
  }

  /** `select inverse`: flip every switch. */
  function Inverted(items: seq<Item>): (r: seq<Item>)
    ensures |r| == |items|
    ensures forall i :: 0 <= i < |items| ==> r[i].source == items[i].source && r[i].enabled == !items[i].enabled
  {
    seq(|items|, i requires 0 <= i < |items| => items[i].(enabled := !items[i].enabled))
  }

  lemma InvertedTwice(items: seq<Item>)
    ensures Inverted(Inverted(items)) == items
  {
  }

  /** Pressing select-all again flips every switch of a non-empty list. */
  lemma SelectAllAgainInverts(items: seq<Item>)
    requires |items| > 0
    ensures SelectAll(SelectAll(items)) == Inverted(SelectAll(items))
  {
    var once := SelectAll(items);
    var b := once[0].enabled;
    assert forall i :: 0 <= i < |once| ==> once[i].enabled == b;
    if !b {
      assert !once[0].enabled;
    }
  }

  /** The filter of `updateEnabledSources`. */
  predicate PassesFilter(s: Source, langs: set<string>, onlyEnabled: bool, onlyPinned: bool,
                         hidden: seq<int>, pinned: seq<int>)
  {
    s.lang in langs && (!onlyEnabled || s.id !in hidden) && (!onlyPinned || s.id in pinned)
  }

  /** An item a toggle affects: one of the toggled language, or all of them for the
    * only-enabled and only-pinned toggles. */
  predicate Affected(it: Item, title: Option<string>, enabledOrPinned: bool)
  {
    Some(it.source.lang) == title || enabledOrPinned
  }

  function Refiltered(items: seq<Item>, title: Option<string>, enabledOrPinned: bool, langs: set<string>,
                      onlyEnabled: bool, onlyPinned: bool, hidden: seq<int>, pinned: seq<int>): (r: seq<Item>)
    ensures |r| == |items|
    ensures forall i :: 0 <= i < |items| ==> r[i].source == items[i].source
    ensures forall i :: 0 <= i < |items| && Affected(items[i], title, enabledOrPinned) ==>
              (r[i].enabled <==> PassesFilter(items[i].source, langs, onlyEnabled, onlyPinned, hidden, pinned))
    ensures forall i :: 0 <= i < |items| && !Affected(items[i], title, enabledOrPinned) ==> r[i] == items[i]
  {
    seq(|items|, i requires 0 <= i < |items| =>
      if Affected(items[i], title, enabledOrPinned)
      then items[i].(enabled := PassesFilter(items[i].source, langs, onlyEnabled, onlyPinned, hidden, pinned))
      else items[i])
  }

  // ---------------------------------------------------------------------------
  // The controller

  class PreMigrationController {
    var onlyEnabledSources: bool
    var onlyPinnedSources: bool
    const hiddenSources: seq<int>
    const pinnedSources: seq<int>
    var enabledLanguages: set<string>
    /** The list the adapter shows. */
    var items: seq<Item>
    /** The preferences written by `startMigration`. */
    var migrationSources: string
    var onlyEnabledPref: bool
    var onlyPinnedPref: bool

    constructor (catalogue: seq<Source>, migrationSources: string, onlyEnabledPref: bool, onlyPinnedPref: bool,
                 hiddenPref: seq<string>, pinnedPref: seq<string>, languagesPref: set<string>)
      ensures this.migrationSources == migrationSources
      ensures this.onlyEnabledPref == onlyEnabledPref && this.onlyPinnedPref == onlyPinnedPref
      ensures onlyEnabledSources == onlyEnabledPref && onlyPinnedSources == onlyPinnedPref
      ensures hiddenSources == ParsedIds(hiddenPref) && pinnedSources == ParsedIds(pinnedPref)
      ensures enabledLanguages == languagesPref - {"all"}
      ensures var sources := EnabledSources(catalogue, languagesPref - {"all"}, migrationSources, ParsedIds(hiddenPref));
              && |items| == |sources|
              && forall i :: 0 <= i < |items| ==>
                   items[i] == Item(sources[i], IsEnabled(migrationSources, ParsedIds(hiddenPref), sources[i].id))
    {
      this.migrationSources := migrationSources;
      this.onlyEnabledPref := onlyEnabledPref;
      this.onlyPinnedPref := onlyPinnedPref;
      onlyEnabledSources := onlyEnabledPref;
      onlyPinnedSources := onlyPinnedPref;
      hiddenSources := ParsedIds(hiddenPref);
      pinnedSources := ParsedIds(pinnedPref);
      enabledLanguages := languagesPref - {"all"};
      var sources := EnabledSources(catalogue, languagesPref - {"all"}, migrationSources, ParsedIds(hiddenPref));
      items := seq(|sources|, i requires 0 <= i < |sources| =>
                 Item(sources[i], IsEnabled(migrationSources, ParsedIds(hiddenPref), sources[i].id)));
    }

    /** `startMigration`: saves the enabled ids in list order, and keeps each "only" flag
      * only if the enabled sources still satisfy it. */
    method StartMigration()
      modifies this`migrationSources, this`onlyEnabledPref, this`onlyPinnedPref
      ensures migrationSources == SavedSelection(items)
      ensures onlyEnabledPref <==>
                onlyEnabledSources && forall i :: 0 <= i < |items| && items[i].enabled ==> items[i].source.id !in hiddenSources
      ensures onlyPinnedPref <==>
                onlyPinnedSources && forall i :: 0 <= i < |items| && items[i].enabled ==> items[i].source.id in pinnedSources
    {
      var enabled := EnabledItems(items);
      var noneHidden := forall i :: 0 <= i < |enabled| ==> enabled[i].source.id !in hiddenSources;
      var nonePinned := forall i :: 0 <= i < |enabled| ==> enabled[i].source.id in pinnedSources;
      EnabledItemsNone(items, hiddenSources, pinnedSources);
      migrationSources := Join(IdStrings(enabled), '/');
      onlyEnabledPref := onlyEnabledSources && noneHidden;
      onlyPinnedPref := onlyPinnedSources && nonePinned;
    }

    /** `onItemClick`: flips the clicked item only; a position outside the list does
      * nothing. Returns false like the source. */
    method OnItemClick(position: int) returns (handled: bool)
      modifies this`items
      ensures !handled
      ensures |items| == |old(items)|
      ensures 0 <= position < |items| ==> items == old(items)[position := old(items)[position].(enabled := !old(items)[position].enabled)]
      ensures !(0 <= position < |items|) ==> items == old(items)
    {
      if 0 <= position < |items| {
        items := items[position := items[position].(enabled := !items[position].enabled)];
      }
      handled := false;
    }

    /** `updateDataSetForSelect` */
    method UpdateDataSetForSelect(updated: seq<Item>)
      modifies this`items, this`onlyEnabledSources, this`onlyPinnedSources
      ensures !onlyEnabledSources && !onlyPinnedSources
      ensures items == SortBy(updated, DisplayLe)
    {
      onlyEnabledSources := false;
      onlyPinnedSources := false;
      items := SortBy(updated, DisplayLe);
    }

    /** The select-all action. */
    method SelectAllAction()
      modifies this`items, this`onlyEnabledSources, this`onlyPinnedSources
      ensures !onlyEnabledSources && !onlyPinnedSources
      ensures items == SortBy(SelectAll(old(items)), DisplayLe)
    {
      var shouldSelect := exists i :: 0 <= i < |items| && !items[i].enabled;
      var updated := items;
      var i := 0;
      while i < |updated|
        invariant 0 <= i <= |updated| == |items|
        invariant forall j :: 0 <= j < i ==> updated[j] == items[j].(enabled := shouldSelect)
        invariant forall j :: i <= j < |updated| ==> updated[j] == items[j]
      {
        updated := updated[i := updated[i].(enabled := shouldSelect)];
        i := i + 1;
      }
      assert updated == SelectAll(items);
      UpdateDataSetForSelect(updated);
    }

    /** The select-inverse action. */
    method SelectInverseAction()
      modifies this`items, this`onlyEnabledSources, this`onlyPinnedSources
      ensures !onlyEnabledSources && !onlyPinnedSources
      ensures items == SortBy(Inverted(old(items)), DisplayLe)
    {
      var updated := items;
      var i := 0;
      while i < |updated|
        invariant 0 <= i <= |updated| == |items|
        invariant forall j :: 0 <= j < i ==> updated[j] == items[j].(enabled := !items[j].enabled)
        invariant forall j :: i <= j < |updated| ==> updated[j] == items[j]
      {
        updated := updated[i := updated[i].(enabled := !updated[i].enabled)];
        i := i + 1;
      }
      assert updated == Inverted(items);
      UpdateDataSetForSelect(updated);
    }

    /** `updateEnabledSources`: rewrites the affected switches, then re-sorts. */
    method UpdateEnabledSources(title: Option<string>, enabledOrPinned: bool)
      modifies this`items
      ensures items == SortBy(Refiltered(old(items), title, enabledOrPinned, enabledLanguages,
                                         onlyEnabledSources, onlyPinnedSources, hiddenSources, pinnedSources), DisplayLe)
    {
      var updated := items;
      var i := 0;
      while i < |updated|
        invariant 0 <= i <= |updated| == |items|
        invariant forall j :: 0 <= j < i ==>
                    updated[j] == Refiltered(items, title, enabledOrPinned, enabledLanguages, onlyEnabledSources,
                                             onlyPinnedSources, hiddenSources, pinnedSources)[j]
        invariant forall j :: i <= j < |updated| ==> updated[j] == items[j]
      {
        var it := updated[i];
        if Some(it.source.lang) == title || enabledOrPinned {
          var isCheckLanguage := it.source.lang in enabledLanguages;
          var isCheckEnabled := !onlyEnabledSources || it.source.id !in hiddenSources;
          var isCheckPinned := !onlyPinnedSources || it.source.id in pinnedSources;
          updated := updated[i := it.(enabled := isCheckLanguage && isCheckEnabled && isCheckPinned)];
        }
        i := i + 1;
      }
      assert updated == Refiltered(items, title, enabledOrPinned, enabledLanguages, onlyEnabledSources,
                                   onlyPinnedSources, hiddenSources, pinnedSources);
      items := SortBy(updated, DisplayLe);
    }

    /** The only-enabled menu toggle; `checked` is the item's new tick. */
    method ToggleOnlyEnabled(checked: bool) returns (handled: bool)
      modifies this`items, this`onlyEnabledSources
      ensures onlyEnabledSources == checked && !handled
      ensures items == SortBy(Refiltered(old(items), None, true, enabledLanguages, checked,
                                         onlyPinnedSources, hiddenSources, pinnedSources), DisplayLe)
    {
      onlyEnabledSources := checked;
      UpdateEnabledSources(None, true);
      handled := false;
    }

    /** The only-pinned menu toggle; `checked` is the item's new tick. */
    method ToggleOnlyPinned(checked: bool) returns (handled: bool)
      modifies this`items, this`onlyPinnedSources
      ensures onlyPinnedSources == checked && !handled
      ensures items == SortBy(Refiltered(old(items), None, true, enabledLanguages, onlyEnabledSources,
                                         checked, hiddenSources, pinnedSources), DisplayLe)
    {
      onlyPinnedSources := checked;
      UpdateEnabledSources(None, true);
      handled := false;
    }

    /** A language of the language menu is ticked (`checked`) or unticked; only that
      * language's items are re-filtered. */
    method ToggleLanguage(lang: string, checked: bool) returns (handled: bool)
      modifies this`items, this`enabledLanguages
      ensures enabledLanguages == if checked then old(enabledLanguages) + {lang} else old(enabledLanguages) - {lang}
      ensures !handled
      ensures items == SortBy(Refiltered(old(items), Some(lang), false, enabledLanguages, onlyEnabledSources,
                                         onlyPinnedSources, hiddenSources, pinnedSources), DisplayLe)
    {
      if checked {
        enabledLanguages := enabledLanguages + {lang};
      } else {
        enabledLanguages := enabledLanguages - {lang};
      }
      UpdateEnabledSources(Some(lang), false);
      handled := false;
    }

    /** `onPrepareOptionsMenu`: each language of the menu is kept enabled iff some enabled
      * item has it; returns the ticks of the only-enabled and only-pinned items. */
    method PrepareOptionsMenu(menuLangs: seq<string>) returns (onlyEnabledChecked: bool, onlyPinnedChecked: bool)
      modifies this`enabledLanguages
      ensures enabledLanguages ==
                (old(enabledLanguages) - set l | l in menuLangs)
                + set l | l in menuLangs && exists i :: 0 <= i < |items| && items[i].enabled && items[i].source.lang == l
      ensures onlyEnabledChecked <==>
                onlyEnabledSources && forall i :: 0 <= i < |items| && items[i].enabled ==> items[i].source.id !in hiddenSources
      ensures onlyPinnedChecked <==>
                onlyPinnedSources && forall i :: 0 <= i < |items| && items[i].enabled ==> items[i].source.id in pinnedSources
    {
      var k := 0;
      while k < |menuLangs|
        invariant 0 <= k <= |menuLangs|
        invariant enabledLanguages ==
                    (old(enabledLanguages) - set l | l in menuLangs[..k])
                    + set l | l in menuLangs[..k] && exists i :: 0 <= i < |items| && items[i].enabled && items[i].source.lang == l
      {
        var lang := menuLangs[k];
        var isChecked := exists i :: 0 <= i < |items| && items[i].enabled && items[i].source.lang == lang;
        if isChecked {
          enabledLanguages := enabledLanguages + {lang};
        } else {
          enabledLanguages := enabledLanguages - {lang};
        }
        assert menuLangs[..k + 1] == menuLangs[..k] + [lang];
        k := k + 1;
      }
      assert menuLangs[..k] == menuLangs;
      onlyEnabledChecked := onlyEnabledSources && forall i :: 0 <= i < |items| && items[i].enabled ==> items[i].source.id !in hiddenSources;
      onlyPinnedChecked := onlyPinnedSources && forall i :: 0 <= i < |items| && items[i].enabled ==> items[i].source.id in pinnedSources;
    }
  }
}
