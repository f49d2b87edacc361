/**
 * The presenter of the similar-manga screen: its screen state, the loading of the groups
 * through the repository, the in-library flag update after a manga is added or removed,
 * and the list/grid switch. The preference store is a set of values read at creation
 * and a field for the one preference the presenter writes.
 */
module SimilarPresenter {
  import opened Wrappers
  import opened Collections
  import opened SimilarRepository

  datatype SimilarScreenState = SimilarScreenState(
    isRefreshing: bool,
    displayManga: map<GroupType, seq<DisplayManga>>,
    error: Option<string>,
    isList: bool,
    outlineCovers: bool,
    isComfortableGrid: bool,
    rawColumnCount: real,
    promptForCategories: bool,
    categories: seq<int>)

  /** The preferences read when the presenter is created. */
  datatype Preferences = Preferences(browseAsList: bool, outlineOnCovers: bool, libraryLayout: int,
                                     gridSize: real, defaultCategory: int)

  const COMFORTABLE_GRID := 2
  const NO_DEFAULT_CATEGORY := -1

  /** `list.associate { it.type to it.manga }` */
  function GroupMap(groups: seq<SimilarMangaGroup>): (r: map<GroupType, seq<DisplayManga>>)
    ensures forall i :: 0 <= i < |groups| ==> groups[i].kind in r
    ensures forall k :: k in r ==> exists i :: 0 <= i < |groups| && groups[i].kind == k
  {
    var pairs := seq(|groups|, i requires 0 <= i < |groups| => (groups[i].kind, groups[i].manga));
    var r := Associate(pairs);
    assert forall i :: 0 <= i < |groups| ==> pairs[i].0 == groups[i].kind;
    r
  }

  /** Assembled groups have distinct kinds, so each group is found under its own kind. */
  lemma GroupMapOfAssembled(forceRefresh: bool, env: Env, g: SimilarMangaGroup)
    requires g in FetchSimilar(forceRefresh, env)
    ensures var m := GroupMap(FetchSimilar(forceRefresh, env));
            g.kind in m && m[g.kind] == g.manga
  {
    var groups := FetchSimilar(forceRefresh, env);
    var o := env.handler(ActualRefresh(env.hasCachedRow, forceRefresh));
    AssembleOrdered(o, Lang(env.sourceLang), env);
    var pairs := seq(|groups|, i requires 0 <= i < |groups| => (groups[i].kind, groups[i].manga));
    var i :| 0 <= i < |groups| && groups[i] == g;
    assert forall j :: i < j < |pairs| ==> pairs[j].0 != pairs[i].0 by {
      forall j | i < j < |pairs|
        ensures pairs[j].0 != pairs[i].0
      {
        assert Rank(groups[i].kind) < Rank(groups[j].kind);
      }
    }
  }

  /** The position of the first manga with the given id, or -1 (`indexOfFirst`). */
  function IndexOfManga(l: seq<DisplayManga>, mangaId: int): (r: int)
    ensures -1 <= r < |l|
    ensures r == -1 <==> forall i :: 0 <= i < |l| ==> l[i].mangaId != mangaId
    ensures r >= 0 ==> l[r].mangaId == mangaId && forall i :: 0 <= i < r ==> l[i].mangaId != mangaId
    decreases |l|
  {
    if |l| == 0 then -1
    else if l[0].mangaId == mangaId then 0
    else
      var r := IndexOfManga(l[1..], mangaId);
      assert forall i :: 1 <= i < |l| ==> l[i] == l[1..][i - 1];
      if r == -1 then -1 else r + 1
  }

  /** One group after the update: the first entry with the id gets the new flag. */
  function MarkFirst(l: seq<DisplayManga>, mangaId: int, favorite: bool): (r: seq<DisplayManga>)
    ensures |r| == |l|
    ensures IndexOfManga(l, mangaId) == -1 ==> r == l
    ensures IndexOfManga(l, mangaId) >= 0 ==>
              var k := IndexOfManga(l, mangaId);
              && r[k] == l[k].(inLibrary := favorite)
              && forall i :: 0 <= i < |l| && i != k ==> r[i] == l[i]
  {
    var k := IndexOfManga(l, mangaId);
    if k == -1 then l else l[k := l[k].(inLibrary := favorite)]
  }

  /** Only the first entry with the id can change, and only in its flag: later duplicates
    * and every other entry keep their value. */
  lemma MarkFirstOnlyFirst(l: seq<DisplayManga>, mangaId: int, favorite: bool)
    ensures var r := MarkFirst(l, mangaId, favorite);
            forall i :: 0 <= i < |l| ==>
              && r[i].(inLibrary := l[i].inLibrary) == l[i]
              && (r[i] != l[i] ==> l[i].mangaId == mangaId && forall j :: 0 <= j < i ==> l[j].mangaId != mangaId)
  {
  }

  /** Updating twice with the same flag is the same as once. */
  lemma MarkFirstIdempotent(l: seq<DisplayManga>, mangaId: int, favorite: bool)
    ensures MarkFirst(MarkFirst(l, mangaId, favorite), mangaId, favorite) == MarkFirst(l, mangaId, favorite)
  {
    var r := MarkFirst(l, mangaId, favorite);
    var k := IndexOfManga(l, mangaId);
    if k >= 0 {
      assert IndexOfManga(r, mangaId) == k by {
        assert r[k].mangaId == mangaId;
        assert forall i :: 0 <= i < k ==> r[i] == l[i];
      }
    } else {
      assert r == l;
    }
  }

  class SimilarPresenterState {
    /** The manga whose similar titles are shown; null on a screen restored without one. */
    const manga: Option<int>
    var state: SimilarScreenState
    /** The stored value of the browse-as-list preference. */
    var browseAsListPref: bool

    /** The initial screen state, from the preferences. */
    constructor (manga: Option<int>, prefs: Preferences)
      ensures this.manga == manga && browseAsListPref == prefs.browseAsList
      ensures state == SimilarScreenState(false, map[], None, prefs.browseAsList, prefs.outlineOnCovers,
                                          prefs.libraryLayout == COMFORTABLE_GRID, prefs.gridSize,
                                          prefs.defaultCategory == NO_DEFAULT_CATEGORY, [])
      ensures state.isComfortableGrid <==> prefs.libraryLayout == 2
      ensures state.promptForCategories <==> prefs.defaultCategory == -1
    {
      this.manga := manga;
      browseAsListPref := prefs.browseAsList;
      state := SimilarScreenState(false, map[], None, prefs.browseAsList, prefs.outlineOnCovers,
                                  prefs.libraryLayout == COMFORTABLE_GRID, prefs.gridSize,
                                  prefs.defaultCategory == NO_DEFAULT_CATEGORY, []);
    }

    /** The first update of `getSimilarManga`: refreshing, with no groups. */
    method StartLoading()
      modifies this`state
      ensures state == old(state).(isRefreshing := true, displayManga := map[])
    {
      state := state.(isRefreshing := true, displayManga := map[]);
    }

    /** The second update of `getSimilarManga`: done, one entry per group kind. */
    method FinishLoading(groups: seq<SimilarMangaGroup>)
      modifies this`state
      ensures state == old(state).(isRefreshing := false, displayManga := GroupMap(groups))
    {
      state := state.(isRefreshing := false, displayManga := GroupMap(groups));
    }

    /** `getSimilarManga(forceRefresh)`: nothing without a manga. */
    method GetSimilarManga(forceRefresh: bool, env: Env)
      modifies this`state
      ensures manga.None? ==> state == old(state)
      ensures manga.Some? ==>
                state == old(state).(isRefreshing := false, displayManga := GroupMap(FetchSimilar(forceRefresh, env)))
    {
      if manga.Some? {
        StartLoading();
        var groups := FetchSimilar(forceRefresh, env);
        FinishLoading(groups);
      }
    }

    /** `onCreate`: the first load does not force a refresh; the categories are loaded only
      * when the user is to be asked for one. */
    method OnCreate(env: Env, categories: seq<int>)
      modifies this`state
      ensures var cats := if old(state).promptForCategories then categories else old(state).categories;
              && (manga.Some? ==>
                    state == old(state).(isRefreshing := false, displayManga := GroupMap(FetchSimilar(false, env)),
                                         categories := cats))
              && (manga.None? ==> state == old(state).(categories := cats))
    {
      GetSimilarManga(false, env);
      if state.promptForCategories {
        state := state.(categories := categories);
      }
    }

    /** `refresh`: a load that forces the handler to ask the services again. */
    method Refresh(env: Env)
      modifies this`state
      ensures manga.None? ==> state == old(state)
      ensures manga.Some? ==>
                state == old(state).(isRefreshing := false, displayManga := GroupMap(FetchSimilar(true, env)))
    {
      GetSimilarManga(true, env);
    }

    /** The collector of the browse-as-list preference. */
    method OnBrowseAsList(value: bool)
      modifies this`state
      ensures state == old(state).(isList := value)
    {
      state := state.(isList := value);
    }

    /** `switchDisplayMode`: stores the opposite of what the screen shows. */
    method SwitchDisplayMode()
      modifies this`browseAsListPref
      ensures browseAsListPref == !state.isList
    {
      browseAsListPref := !state.isList;
    }

    /** `updateDisplayManga`: in every group, the first manga with the id gets the new
      * in-library flag; the group kinds, the lengths and every other entry stay. */
    method UpdateDisplayManga(mangaId: int, favorite: bool)
      modifies this`state
      ensures state == old(state).(displayManga := map k | k in old(state).displayManga :: MarkFirst(old(state).displayManga[k], mangaId, favorite))
    {
      var current := state.displayManga;
      var updated := current;
      var keys := current.Keys;
      while keys != {}
        invariant keys <= current.Keys
        invariant updated.Keys == current.Keys
        invariant forall k :: k in current ==>
                    updated[k] == if k in keys then current[k] else MarkFirst(current[k], mangaId, favorite)
        decreases |keys|
      {
        var key :| key in keys;
        var index := IndexOfManga(current[key], mangaId);
        if index != -1 {
          var list := current[key];
          list := list[index := list[index].(inLibrary := favorite)];
          updated := updated[key := list];
        }
        keys := keys - {key};
      }
      state := state.(displayManga := updated);
    }
  }
}
