/**
 * The repository behind the similar-manga screen: it decides whether the handler must
 * refresh, finds the MangaDex id of the manga through its trackers, and assembles the
 * handler's five answers into display groups in a fixed order. The five handler calls run
 * concurrently in the app; here their outcomes are given, as a function of the refresh
 * flag they were made with.
 */
module SimilarRepository {
  import opened Wrappers
  import opened Text
  import opened Collections
  import SimilarHandler

  datatype GroupType = RelatedGroup | SimilarGroup | MangaUpdatesGroup | AniListGroup | MyAnimeListGroup

  /** A manga as the screen shows it. */
  datatype DisplayManga = DisplayManga(mangaId: int, inLibrary: bool, url: string, title: string, displayText: string)

  datatype SimilarMangaGroup = SimilarMangaGroup(kind: GroupType, manga: seq<DisplayManga>)

  /** An online source; `displayName` is its `toString()`, e.g. "MangaDex (EN)". */
  datatype OnlineSource = OnlineSource(id: int, displayName: string)

  /** The tracker of a track entry. */
  datatype Tracker = MangaUpdatesTracker | AniListTracker | MyAnimeListTracker | KitsuTracker | OtherTracker(syncId: int)

  datatype Track = Track(tracker: Tracker, mediaId: int)

  /** What the five handler calls yield, in the order the groups are listed. */
  datatype Outcomes = Outcomes(related: Result<seq<SimilarHandler.SourceManga>, string>,
                               similar: Result<seq<SimilarHandler.SourceManga>, string>,
                               mangaUpdates: Result<seq<SimilarHandler.SourceManga>, string>,
                               aniList: Result<seq<SimilarHandler.SourceManga>, string>,
                               myAnimeList: Result<seq<SimilarHandler.SourceManga>, string>)

  /** Everything the repository reads besides the manga: whether a cache row exists, the
    * language of the manga's source, the online sources, the handler, and the conversion
    * of a handler entry into a display manga for a delegate source. */
  datatype Env = Env(hasCachedRow: bool, sourceLang: string, onlineSources: seq<OnlineSource>,
                     handler: bool -> Outcomes,
                     toDisplayManga: (SimilarHandler.SourceManga, int) -> DisplayManga)

  // ---------------------------------------------------------------------------
  // Refresh flag, language, delegate

  /** Without a cache row the handler always refreshes. */
  function ActualRefresh(hasCachedRow: bool, forceRefresh: bool): (r: bool)
    ensures !hasCachedRow ==> r
    ensures hasCachedRow ==> r == forceRefresh
  {
    if !hasCachedRow then true else forceRefresh
  }

  /** A blank language reads as "en"; the result is upper case. */
  function Lang(sourceLang: string): (r: string)
    ensures IsBlank(sourceLang) ==> r == "EN"
    ensures !IsBlank(sourceLang) ==> |r| == |sourceLang| && forall i :: 0 <= i < |r| ==> r[i] == Upper(sourceLang[i])
  {
    UpperString(if IsBlank(sourceLang) then "en" else sourceLang)
  }

  function DelegateName(lang: string): string
  {
    "MangaDex (" + lang + ")"
  }

  /** The first online source whose display string is "MangaDex (<lang>)". */
  function FindDelegate(sources: seq<OnlineSource>, lang: string): (r: Option<OnlineSource>)
    ensures r.None? <==> forall i :: 0 <= i < |sources| ==> sources[i].displayName != DelegateName(lang)
    ensures r.Some? ==> exists k :: 0 <= k < |sources| && sources[k] == r.value && r.value.displayName == DelegateName(lang)
                                    && forall i :: 0 <= i < k ==> sources[i].displayName != DelegateName(lang)
  {
    FirstSome(sources, (s: OnlineSource) => if s.displayName == DelegateName(lang) then Some(s) else None)
  }

  // ---------------------------------------------------------------------------
  // The MangaDex id

  /** The mapping-service name of a tracker. */
  function Service(t: Tracker): (r: Option<string>)
  {
    match t
    case MangaUpdatesTracker => Some("mu_new")
    case AniListTracker => Some("al")
    case MyAnimeListTracker => Some("mal")
    case KitsuTracker => Some("kt")
    case OtherTracker(_) => None
  }

  function TrackLookup(getMangadexId: (string, Option<string>) -> Option<string>): Track -> Option<string>
  {
    (t: Track) => getMangadexId(IntToString(t.mediaId), Service(t.tracker))
  }

  /** `getDexId`: the first track the mapping service knows, or "". */
  function GetDexId(tracks: seq<Track>, getMangadexId: (string, Option<string>) -> Option<string>): (r: string)
    ensures (forall i :: 0 <= i < |tracks| ==> TrackLookup(getMangadexId)(tracks[i]).None?) ==> r == ""
    ensures forall k :: 0 <= k < |tracks| && TrackLookup(getMangadexId)(tracks[k]).Some?
                        && (forall i :: 0 <= i < k ==> TrackLookup(getMangadexId)(tracks[i]).None?)
                        ==> r == TrackLookup(getMangadexId)(tracks[k]).value
  {
    match FirstSome(tracks, TrackLookup(getMangadexId))
    case None => ""
    case Some(id) => id
  }

  /** Trackers other than the four known ones are looked up with no service name. */
  lemma UnknownTrackerHasNoService(t: Tracker)
    ensures Service(t).None? <==> t.OtherTracker?
    ensures Service(t).Some? ==> Service(t).value in {"mu_new", "al", "mal", "kt"}
  {
  }

  // ---------------------------------------------------------------------------
  // Groups

  function DisplayList(manga: seq<SimilarHandler.SourceManga>, delegateId: int,
                       toDisplayManga: (SimilarHandler.SourceManga, int) -> DisplayManga): (r: seq<DisplayManga>)
    ensures |r| == |manga|
    ensures forall i :: 0 <= i < |manga| ==> r[i] == toDisplayManga(manga[i], delegateId)
  {
    seq(|manga|, i requires 0 <= i < |manga| => toDisplayManga(manga[i], delegateId))
  }

  /** `createGroup`: no group for an empty list; a missing delegate source throws. */
  function CreateGroup(kind: GroupType, manga: seq<SimilarHandler.SourceManga>, lang: string, env: Env)
    : (r: Result<Option<SimilarMangaGroup>, string>)
    ensures |manga| == 0 ==> r == Ok(None)
    ensures |manga| > 0 ==> (r.Err? <==> FindDelegate(env.onlineSources, lang).None?)
    ensures r.Ok? && r.value.Some? ==>
              && |manga| > 0
              && r.value.value.kind == kind
              && r.value.value.manga == DisplayList(manga, FindDelegate(env.onlineSources, lang).value.id, env.toDisplayManga)
  {
    if |manga| == 0 then Ok(None)
    else match FindDelegate(env.onlineSources, lang)
      case None => Err("Source not found")
      case Some(delegate) => Ok(Some(SimilarMangaGroup(kind, DisplayList(manga, delegate.id, env.toDisplayManga))))
  }

  /** One source's group: a failure anywhere (the handler or the delegate lookup) is logged
    * and yields no group. */
  function GroupOf(kind: GroupType, outcome: Result<seq<SimilarHandler.SourceManga>, string>, lang: string, env: Env)
    : (r: Option<SimilarMangaGroup>)
    ensures r.Some? <==> outcome.Ok? && |outcome.value| > 0 && FindDelegate(env.onlineSources, lang).Some?
    ensures r.Some? ==> r.value.kind == kind && |r.value.manga| == |outcome.value|
  {
    if outcome.Err? then None
    else match CreateGroup(kind, outcome.value, lang, env)
      case Err(_) => None
      case Ok(g) => g
  }

  function OptionList<T>(xs: seq<Option<T>>): (r: seq<T>)
    ensures |r| <= |xs|
    ensures forall i :: 0 <= i < |xs| && xs[i].Some? ==> xs[i].value in r
    ensures forall y :: y in r ==> Some(y) in xs
  {
    if |xs| == 0 then []
    else
      var rest := OptionList(xs[1..]);
      assert forall i :: 1 <= i < |xs| ==> xs[i] == xs[1..][i - 1];
      if xs[0].Some? then [xs[0].value] + rest else rest
  }

  /** The groups in the fixed order related, similar, MangaUpdates, AniList, MyAnimeList,
    * without the empty or failed ones (`listOfNotNull`). */
  function Assemble(o: Outcomes, lang: string, env: Env): (r: seq<SimilarMangaGroup>)
  {
    OptionList([GroupOf(RelatedGroup, o.related, lang, env),
                GroupOf(SimilarGroup, o.similar, lang, env),
                GroupOf(MangaUpdatesGroup, o.mangaUpdates, lang, env),
                GroupOf(AniListGroup, o.aniList, lang, env),
                GroupOf(MyAnimeListGroup, o.myAnimeList, lang, env)])
  }

  /** `fetchSimilar`: the handler is asked with the actual refresh flag, and its outcomes
    * become the groups in the fixed kind order. */
  function FetchSimilar(forceRefresh: bool, env: Env): (r: seq<SimilarMangaGroup>)
    ensures Ordered(r)
  {
    AssembleOrdered(env.handler(ActualRefresh(env.hasCachedRow, forceRefresh)), Lang(env.sourceLang), env);
    Assemble(env.handler(ActualRefresh(env.hasCachedRow, forceRefresh)), Lang(env.sourceLang), env)
  }

  function Rank(kind: GroupType): nat
  {
    match kind
    case RelatedGroup => 0
    case SimilarGroup => 1
    case MangaUpdatesGroup => 2
    case AniListGroup => 3
    case MyAnimeListGroup => 4
  }

  function OutcomeOf(o: Outcomes, kind: GroupType): Result<seq<SimilarHandler.SourceManga>, string>
  {
    match kind
    case RelatedGroup => o.related
    case SimilarGroup => o.similar
    case MangaUpdatesGroup => o.mangaUpdates
    case AniListGroup => o.aniList
    case MyAnimeListGroup => o.myAnimeList
  }

  predicate Ordered(gs: seq<SimilarMangaGroup>)
  {
    forall i, j :: 0 <= i < j < |gs| ==> Rank(gs[i].kind) < Rank(gs[j].kind)
  }

  lemma {:induction false} OptionListOrder(xs: seq<Option<SimilarMangaGroup>>)
    requires forall i, j :: 0 <= i < j < |xs| && xs[i].Some? && xs[j].Some? ==> Rank(xs[i].value.kind) < Rank(xs[j].value.kind)
    ensures Ordered(OptionList(xs))
    decreases |xs|
  {
    if |xs| > 0 {
      var rest := OptionList(xs[1..]);
      assert forall i :: 1 <= i < |xs| ==> xs[i] == xs[1..][i - 1];
      OptionListOrder(xs[1..]);
      if xs[0].Some? {
        var r := [xs[0].value] + rest;
        assert r == OptionList(xs);
        assert forall i :: 1 <= i < |r| ==> r[i] == rest[i - 1];
        forall i, j | 0 <= i < j < |r|
          ensures Rank(r[i].kind) < Rank(r[j].kind)
        {
          assert r[j] == rest[j - 1];
          if i == 0 {
            assert Some(r[j]) in xs[1..];
            var k :| 0 <= k < |xs[1..]| && xs[1..][k] == Some(r[j]);
            assert xs[k + 1] == Some(r[j]);
          } else {
            assert r[i] == rest[i - 1];
          }
        }
      }
    }
  }

  function KindOfRank(k: nat): (kind: GroupType)
    requires k < 5
    ensures Rank(kind) == k
  {
    if k == 0 then RelatedGroup
    else if k == 1 then SimilarGroup
    else if k == 2 then MangaUpdatesGroup
    else if k == 3 then AniListGroup
    else MyAnimeListGroup
  }

  function Candidates(o: Outcomes, lang: string, env: Env): (xs: seq<Option<SimilarMangaGroup>>)
    ensures |xs| == 5
    ensures forall kind :: xs[Rank(kind)] == GroupOf(kind, OutcomeOf(o, kind), lang, env)
  {
    [GroupOf(RelatedGroup, o.related, lang, env),
     GroupOf(SimilarGroup, o.similar, lang, env),
     GroupOf(MangaUpdatesGroup, o.mangaUpdates, lang, env),
     GroupOf(AniListGroup, o.aniList, lang, env),
     GroupOf(MyAnimeListGroup, o.myAnimeList, lang, env)]
  }

  /** The groups come in the fixed order, so each kind appears at most once. */
  lemma AssembleOrdered(o: Outcomes, lang: string, env: Env)
    ensures Ordered(Assemble(o, lang, env))
  {
    var xs := Candidates(o, lang, env);
    assert Assemble(o, lang, env) == OptionList(xs);
    OptionListOrder(xs);
  }

  /** Every assembled group is the group its own call yields. */
  lemma InAssemble(o: Outcomes, lang: string, env: Env, g: SimilarMangaGroup)
    requires g in Assemble(o, lang, env)
    ensures GroupOf(g.kind, OutcomeOf(o, g.kind), lang, env) == Some(g)
  {
    var xs := Candidates(o, lang, env);
    assert Assemble(o, lang, env) == OptionList(xs);
    var k :| 0 <= k < |xs| && xs[k] == Some(g);
    assert xs[Rank(KindOfRank(k))] == Some(g);
  }

  /** A kind is present exactly when its own call succeeded with a non-empty list and the
    * delegate exists, whatever the other calls did; its group has one manga per entry. */
  lemma AssemblePresence(o: Outcomes, lang: string, env: Env, kind: GroupType)
    ensures (exists g :: g in Assemble(o, lang, env) && g.kind == kind) <==> GroupOf(kind, OutcomeOf(o, kind), lang, env).Some?
    ensures forall g :: g in Assemble(o, lang, env) && g.kind == kind ==> |g.manga| == |OutcomeOf(o, kind).value|
  {
    var xs := Candidates(o, lang, env);
    assert Assemble(o, lang, env) == OptionList(xs);
    var x := xs[Rank(kind)];
    if x.Some? {
      assert x.value in OptionList(xs);
    }
    forall g | g in Assemble(o, lang, env) && g.kind == kind
      ensures |g.manga| == |OutcomeOf(o, kind).value|
    {
      InAssemble(o, lang, env, g);
    }
  }
}
