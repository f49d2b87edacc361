/**
 * Manga helpers used by the library updater: whether new chapters of a manga are
 * downloaded automatically, which of them, and how a cover refresh treats the cached
 * cover. Preferences are passed as values; their defaults are listed as constants.
 */
module MangaExtensions {
  import opened Wrappers
  import opened Text
  import opened Sorting

  // Defaults of the download preferences read here.
  const DEFAULT_DOWNLOAD_NEW_CHAPTERS := 0
  const DEFAULT_DOWNLOAD_NEW_SKIP_UNREAD := false

  // ---------------------------------------------------------------------------
  // shouldDownloadNewChapters

  /** A manga in no category counts as being in the default category 0. */
  function EffectiveCategories(dbCategories: seq<int>): (r: seq<int>)
    ensures |r| >= 1
    ensures |dbCategories| > 0 ==> r == dbCategories
  {
    if |dbCategories| == 0 then [0] else dbCategories
  }

  predicate AnyIn(cats: seq<int>, ids: seq<int>)
  {
    exists c :: c in cats && c in ids
  }

  /** `shouldDownloadNewChapters`; `Err` is the exception `toLong` throws on a stored
    * category id that is not a 64-bit integer. */
  function ShouldDownloadNewChapters(favorite: bool, dbCategories: seq<int>, downloadNewChapters: int,
                                     included: seq<string>, excluded: seq<string>): (r: Result<bool, string>)
    ensures !favorite || downloadNewChapters == 0 ==> r == Ok(false)
    ensures r.Err? <==> favorite && downloadNewChapters != 0 && (ParseIds(included) == None || ParseIds(excluded) == None)
    ensures r == Ok(true) ==>
              && favorite && downloadNewChapters != 0
              && !AnyIn(EffectiveCategories(dbCategories), ParseIds(excluded).value)
              && (|included| == 0 || AnyIn(EffectiveCategories(dbCategories), ParseIds(included).value))
    ensures favorite && downloadNewChapters != 0 && ParseIds(included).Some? && ParseIds(excluded).Some?
            && !AnyIn(EffectiveCategories(dbCategories), ParseIds(excluded).value)
            && (|included| == 0 || AnyIn(EffectiveCategories(dbCategories), ParseIds(included).value))
            ==> r == Ok(true)
  {
    if !favorite then Ok(false)
    else
      var categories := EffectiveCategories(dbCategories);
      if downloadNewChapters == 0 then Ok(false)
      else match ParseIds(included)
        case None => Err("NumberFormatException")
        case Some(inc) =>
          match ParseIds(excluded)
          case None => Err("NumberFormatException")
          case Some(exc) =>
            if |inc| == 0 && |exc| == 0 then Ok(true)
            else if AnyIn(categories, exc) then Ok(false)
            else if |inc| == 0 then Ok(true)
            else Ok(AnyIn(categories, inc))
  }

  /** An excluded category wins over an included one. */
  lemma ExcludedWins(favorite: bool, dbCategories: seq<int>, downloadNewChapters: int,
                     included: seq<string>, excluded: seq<string>, c: int)
    requires c in EffectiveCategories(dbCategories)
    requires ParseIds(excluded).Some? && c in ParseIds(excluded).value
    ensures ShouldDownloadNewChapters(favorite, dbCategories, downloadNewChapters, included, excluded) != Ok(true)
  {
  }

  /** No category behaves exactly like the single category 0. */
  lemma NoCategoryIsDefault(favorite: bool, downloadNewChapters: int, included: seq<string>, excluded: seq<string>)
    ensures ShouldDownloadNewChapters(favorite, [], downloadNewChapters, included, excluded)
         == ShouldDownloadNewChapters(favorite, [0], downloadNewChapters, included, excluded)
  {
  }

  // ---------------------------------------------------------------------------
  // getChaptersToDownload

  function Max0(x: int): nat
  {
    if x < 0 then 0 else x
  }

  function MinLen(n: nat, k: nat): nat
  {
    if n < k then n else k
  }

  /** `getChaptersToDownload`; `le` is the manga's chapter order (`getChapterSort`). */
  function ChaptersToDownload<C>(newChapters: seq<C>, hasUnreadChapters: bool, downloadedUnread: int,
                                 skipWhenUnread: bool, limit: int, le: (C, C) -> bool): (r: seq<C>)
    ensures skipWhenUnread && hasUnreadChapters ==> r == []
    ensures !(skipWhenUnread && hasUnreadChapters) && limit == -1 ==> r == newChapters
    ensures !(skipWhenUnread && hasUnreadChapters) && limit != -1 ==>
              && |r| == MinLen(|newChapters|, Max0(limit - downloadedUnread))
              && r == SortBy(newChapters, le)[..|r|]
    ensures multiset(r) <= multiset(newChapters)
  {
    if skipWhenUnread && hasUnreadChapters then []
    else if limit != -1 then
      var sorted := SortBy(newChapters, le);
      var k := MinLen(|sorted|, Max0(limit - downloadedUnread));
      assert sorted == sorted[..k] + sorted[k..];
      sorted[..k]
    else newChapters
  }

  /** A prefix of a sorted sequence is sorted and precedes everything after it. */
  lemma PrefixPrecedesRest<C>(sorted: seq<C>, k: nat, le: (C, C) -> bool)
    requires Sorted(sorted, le) && k <= |sorted|
    ensures Sorted(sorted[..k], le)
    ensures forall x, y :: x in sorted[..k] && y in multiset(sorted) - multiset(sorted[..k]) ==> le(x, y)
  {
    var r, rest := sorted[..k], sorted[k..];
    assert sorted == r + rest;
    assert multiset(sorted) - multiset(r) == multiset(rest);
    forall x, y | x in r && y in multiset(sorted) - multiset(r)
      ensures le(x, y)
    {
      var i :| 0 <= i < |r| && r[i] == x;
      assert y in rest;
      var j :| 0 <= j < |rest| && rest[j] == y;
      assert sorted[i] == x && sorted[k + j] == y;
    }
  }

  /** With a limit, the chapters taken are the first ones in chapter order: the result is
    * ordered and precedes every chapter left out. */
  lemma {:induction false} ChaptersToDownloadAreFirst<C(!new)>(newChapters: seq<C>, hasUnreadChapters: bool,
                                                               downloadedUnread: int, skipWhenUnread: bool,
                                                               limit: int, le: (C, C) -> bool)
    requires TotalPreorder(le)
    requires limit != -1
    ensures var r := ChaptersToDownload(newChapters, hasUnreadChapters, downloadedUnread, skipWhenUnread, limit, le);
            && Sorted(r, le)
            && forall x, y :: x in r && y in multiset(newChapters) - multiset(r) ==> le(x, y)
  {
    var r := ChaptersToDownload(newChapters, hasUnreadChapters, downloadedUnread, skipWhenUnread, limit, le);
    if !(skipWhenUnread && hasUnreadChapters) {
      var sorted := SortBy(newChapters, le);
      SortBySorted(newChapters, le);
      PrefixPrecedesRest(sorted, |r|, le);
      assert r == sorted[..|r|];
    }
  }

  // ---------------------------------------------------------------------------
  // Cover refresh

  /** The fields of a domain manga that the cover helpers read or write. */
  datatype DomainManga = DomainManga(thumbnailUrl: Option<string>, coverLastModified: int,
                                     isLocal: bool, favorite: bool)

  /** The manga to store and whether its cached cover was deleted. */
  datatype CoverUpdate = CoverUpdate(manga: DomainManga, cacheCleared: bool)

  /** The guards of `prepUpdateCover`: the cover is left alone for a null or empty new URL,
    * and for an unchanged URL unless a refresh is asked for. */
  predicate KeepsCover(m: DomainManga, newUrl: Option<string>, refreshSameUrl: bool)
  {
    newUrl == None || newUrl.value == "" || (!refreshSameUrl && m.thumbnailUrl == newUrl)
  }

  /** `prepUpdateCover`; `now` is the clock and `hasCustomCover` the cover cache's answer. */
  function PrepUpdateCover(m: DomainManga, newUrl: Option<string>, refreshSameUrl: bool,
                           hasCustomCover: bool, now: int): (r: CoverUpdate)
    ensures KeepsCover(m, newUrl, refreshSameUrl) ==> r == CoverUpdate(m, false)
    ensures !KeepsCover(m, newUrl, refreshSameUrl) ==>
              && r.cacheCleared == !m.isLocal
              && r.manga == m.(coverLastModified := r.manga.coverLastModified)
              && r.manga.coverLastModified == (if !m.isLocal && hasCustomCover then m.coverLastModified else now)
  {
    if newUrl == None then CoverUpdate(m, false)
    else if newUrl.value == "" then CoverUpdate(m, false)
    else if !refreshSameUrl && m.thumbnailUrl == newUrl then CoverUpdate(m, false)
    else if m.isLocal then CoverUpdate(m.(coverLastModified := now), false)
    else if hasCustomCover then CoverUpdate(m, true)
    else CoverUpdate(m.(coverLastModified := now), true)
  }

  /** Once the caller stores the new URL, a second update without `refreshSameUrl` does
    * nothing. */
  lemma PrepUpdateCoverSettles(m: DomainManga, newUrl: Option<string>, refreshSameUrl: bool,
                               hasCustomCover: bool, now: int, custom2: bool, later: int)
    ensures var m' := PrepUpdateCover(m, newUrl, refreshSameUrl, hasCustomCover, now).manga;
            var stored := if newUrl.Some? && newUrl.value != "" then m'.(thumbnailUrl := newUrl) else m';
            PrepUpdateCover(stored, newUrl, false, custom2, later) == CoverUpdate(stored, false)
  {
  }

  /** `DomainManga.removeCovers`: local manga keep their cover; others have it deleted
    * and stamped with `now`. */
  function RemoveCovers(m: DomainManga, now: int): (r: CoverUpdate)
    ensures r.cacheCleared <==> !m.isLocal
    ensures m.isLocal ==> r.manga == m
    ensures !m.isLocal ==> r.manga == m.(coverLastModified := now)
  {
    if m.isLocal then CoverUpdate(m, false)
    else CoverUpdate(m.(coverLastModified := now), true)
  }

  /** The database manga of `Manga.removeCovers`, whose timestamp is assigned in place. */
  class DbManga {
    const isLocal: bool
    var coverLastModified: int

    constructor (isLocal: bool, coverLastModified: int)
      ensures this.isLocal == isLocal && this.coverLastModified == coverLastModified
    {
      this.isLocal := isLocal;
      this.coverLastModified := coverLastModified;
    }

    /** Returns the number of files the cache deleted (`deleted`) or 0 for a local manga. */
    method RemoveCovers(now: int, deleted: int) returns (n: int)
      modifies this`coverLastModified
      ensures isLocal ==> n == 0 && coverLastModified == old(coverLastModified)
      ensures !isLocal ==> n == deleted && coverLastModified == now
    {
      if isLocal {
        return 0;
      }
      coverLastModified := now;
      n := deleted;
    }
  }
}
