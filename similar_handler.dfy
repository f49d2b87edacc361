/**
 * The "similar manga" handler: for one manga it asks MangaDex and three third-party
 * services for recommendations, keeps them in a per-manga cache row, and always answers
 * from that cache. The cache table is a map from the manga key to a row that either
 * decodes to a `SimilarDbDto` or does not; network answers, the id-mapping service,
 * JSON decoding, number formatting and number parsing are parameters.
 */
module SimilarHandler {
  import opened Wrappers
  import opened Text
  import opened Sorting
  import opened Collections
  import MangaDex

  const SIMILAR_SEPARATOR := ":::||@!@||:::"
  const SIMILAR_TEXT := "Similar"
  const MANGA_FORMAT := "MANGA"
  const VOTES_SUFFIX := " user votes"
  const MATCH_SUFFIX := "% match"

  // ---------------------------------------------------------------------------
  // Data

  datatype RelatedMangaDto = RelatedMangaDto(url: string, title: string, thumbnail: string, relation: string)

  datatype SourceManga = SourceManga(url: string, currentThumbnail: string, title: string, displayText: string)

  /** An entry of MangaDex's related-manga answer: the ids of its relationships and the
    * relation text. */
  datatype RelatedEntry = RelatedEntry(relationshipIds: seq<string>, relation: string)

  datatype SimilarMatch = SimilarMatch(id: string, score: real)
  datatype SimilarMangaDto = SimilarMangaDto(matches: seq<SimilarMatch>)

  datatype AnilistEdge = AnilistEdge(mediaId: int, format: string, rating: int)
  datatype AnilistDto = AnilistDto(edges: seq<AnilistEdge>)

  datatype MalEntry = MalEntry(malId: int, votes: int)
  datatype MalDto = MalDto(data: seq<MalEntry>)

  datatype MuRecommendation = MuRecommendation(seriesId: int, weight: int)
  datatype MuDto = MuDto(recommendations: seq<MuRecommendation>, categoryRecommendations: seq<MuRecommendation>)

  /** The cached row: for each source, its raw answer and the manga built from it. */
  datatype SimilarDbDto = SimilarDbDto(
    relatedManga: Option<seq<RelatedMangaDto>>,
    similarApi: Option<SimilarMangaDto>,
    similarManga: Option<seq<RelatedMangaDto>>,
    aniListApi: Option<AnilistDto>,
    aniListManga: Option<seq<RelatedMangaDto>>,
    myAnimelistApi: Option<MalDto>,
    myAnimeListManga: Option<seq<RelatedMangaDto>>,
    mangaUpdatesApi: Option<MuDto>,
    mangaUpdatesListManga: Option<seq<RelatedMangaDto>>)

  const EMPTY_DTO := SimilarDbDto(None, None, None, None, None, None, None, None, None)

  /** A network answer: a body, an HTTP error status, or an exception. */
  datatype ApiResponse<T> = Success(body: T) | HttpError(code: int) | Failure(message: string)

  /** The id-mapping service: external id of a MangaDex id, MangaDex id of an external id. */
  datatype Mappings = Mappings(getExternalId: (string, string) -> Option<string>,
                               getMangadexUuid: (string, string) -> Option<string>)

  // ---------------------------------------------------------------------------
  // Responses, cache rows and the manga lookup

  /** `getOrNull()` after a failure handler that only logs. */
  function OrNull<T>(resp: ApiResponse<T>): (r: Option<T>)
    ensures r.Some? <==> resp.Success?
    ensures r.Some? ==> r.value == resp.body
  {
    if resp.Success? then Some(resp.body) else None
  }

  /** The third-party services: a 404 or an exception is thrown, any other failure reads
    * as no answer. */
  function ThirdParty<T>(resp: ApiResponse<T>): (r: Result<Option<T>, string>)
    ensures r.Err? <==> (resp.HttpError? && resp.code == 404) || resp.Failure?
    ensures r.Ok? ==> r.value == OrNull(resp)
  {
    match resp
    case Success(body) => Ok(Some(body))
    case HttpError(code) => if code == 404 then Err("http code 404") else Ok(None)
    case Failure(message) => Err(message)
  }

  /** `similarGetMangadexMangaList`: any failure of the search is thrown; a strict lookup
    * also fails when the count of manga returned differs from the count asked for. */
  function Search(requested: nat, resp: ApiResponse<seq<MangaDex.MangaData>>, strictMatch: bool)
    : (r: Result<seq<MangaDex.MangaData>, string>)
    ensures r.Ok? <==> resp.Success? && (!strictMatch || |resp.body| == requested)
    ensures r.Ok? ==> r.value == resp.body
  {
    if !resp.Success? then Err("searching for manga in similar handler")
    else if strictMatch && |resp.body| != requested then Err("Unable to complete response")
    else Ok(resp.body)
  }

  /** Every caller passes `strictMatch = false`, so only a failed search can throw. */
  lemma NonStrictSearchIgnoresCount(requested: nat, resp: ApiResponse<seq<MangaDex.MangaData>>)
    ensures Search(requested, resp, false) == if resp.Success? then Ok(resp.body) else Err("searching for manga in similar handler")
  {
  }

  /** `mangaId.toString()` for a nullable id. */
  function MangaKey(mangaId: Option<int>): string
  {
    if mangaId.None? then "null" else IntToString(mangaId.value)
  }

  lemma MangaKeyInjective(a: Option<int>, b: Option<int>)
    requires MangaKey(a) == MangaKey(b)
    ensures a == b
  {
    if a.Some? {
      ParseIntToString(a.value);
    }
    if b.Some? {
      ParseIntToString(b.value);
    }
    if a.Some? && b.Some? {
      IntToStringInjective(a.value, b.value);
    }
  }

  /** `getDbDto`: a missing row or one that does not decode reads as an empty DTO. */
  function Cached(db: map<string, Option<SimilarDbDto>>, key: string): (r: SimilarDbDto)
    ensures key !in db || db[key].None? ==> r == EMPTY_DTO
    ensures key in db && db[key].Some? ==> r == db[key].value
  {
    if key in db && db[key].Some? then db[key].value else EMPTY_DTO
  }

  function ToRelatedMangaDto(m: MangaDex.MangaData, otherText: string, md: MangaDex.MdHelpers): (r: RelatedMangaDto)
    ensures r.url == MangaDex.MANGA_PATH + m.id && r.relation == otherText
  {
    var manga := MangaDex.ToBasicManga(m, 0, true, md);
    MangaDex.DefaultAlwaysHasThumbnail(m, 0, md);
    RelatedMangaDto(manga.url, manga.title, manga.thumbnailUrl.value, otherText)
  }

  /** `data.map { it.toRelatedMangaDto(0, idPairs[it.id] ?: "") }` */
  function RelatedList(data: seq<MangaDex.MangaData>, text: string -> string, md: MangaDex.MdHelpers)
    : (r: seq<RelatedMangaDto>)
    ensures |r| == |data|
    ensures forall i :: 0 <= i < |data| ==> r[i] == ToRelatedMangaDto(data[i], text(data[i].id), md)
  {
    seq(|data|, i requires 0 <= i < |data| => ToRelatedMangaDto(data[i], text(data[i].id), md))
  }

  function TextForId(ids: map<string, string>): string -> string
  {
    (id: string) => if id in ids then ids[id] else ""
  }

  function TextForUuid(ids: map<Option<string>, string>): string -> string
  {
    (id: string) => if Some(id) in ids then ids[Some(id)] else ""
  }

  /** `idPairs.mapNotNull { it.key }`: the ids sent to the lookup. */
  function QueryIds(ids: map<Option<string>, string>): (r: set<string>)
    ensures forall s :: s in r <==> Some(s) in ids
  {
    set k | k in ids && k.Some? :: k.value
  }

  function ToSourceManga(d: RelatedMangaDto): (r: SourceManga)
  {
    SourceManga(d.url, d.thumbnail, d.title, d.relation)
  }

  function ToSourceList(l: seq<RelatedMangaDto>): (r: seq<SourceManga>)
    ensures |r| == |l|
    ensures forall i :: 0 <= i < |l| ==> r[i] == ToSourceManga(l[i])
  {
    seq(|l|, i requires 0 <= i < |l| => ToSourceManga(l[i]))
  }

  // ---------------------------------------------------------------------------
  // Sorting the cached lists

  function Or0<T>(key: T -> Option<real>): T -> real
  {
    (x: T) => if key(x).Some? then key(x).value else 0.0
  }

  /** `sortedByDescending(key)`: a list of at most one element is returned as it is;
    * otherwise every key is read, and one that does not parse throws. */
  function SortedByDescending<T>(s: seq<T>, key: T -> Option<real>): (r: Result<seq<T>, string>)
    ensures |s| <= 1 ==> r == Ok(s)
    ensures r.Err? <==> |s| > 1 && exists i :: 0 <= i < |s| && key(s[i]).None?
    ensures r.Ok? ==> multiset(r.value) == multiset(s)
  {
    if |s| <= 1 then Ok(s)
    else if exists i :: 0 <= i < |s| && key(s[i]).None? then Err("NumberFormatException")
    else Ok(SortBy(s, ByRealKeyDesc(Or0(key))))
  }

  lemma SortedByDescendingSorted<T(!new)>(s: seq<T>, key: T -> Option<real>)
    requires SortedByDescending(s, key).Ok?
    ensures var r := SortedByDescending(s, key).value;
            forall i, j :: 0 <= i < j < |r| ==> key(r[i]).Some? && key(r[j]).Some? && key(r[i]).value >= key(r[j]).value
  {
    if |s| > 1 {
      var r := SortBy(s, ByRealKeyDesc(Or0(key)));
      ByRealKeyDescPreorder(Or0(key));
      SortBySorted(s, ByRealKeyDesc(Or0(key)));
      forall i | 0 <= i < |r|
        ensures key(r[i]).Some?
      {
        assert r[i] in multiset(s);
      }
    }
  }

  /** The similar list's key: the number before `%`. */
  function SimilarKey(toDouble: string -> Option<real>): SourceManga -> Option<real>
  {
    (m: SourceManga) => toDouble(Split(m.displayText, '%')[0])
  }

  /** The vote lists' key: the number before the first space. */
  function VotesKey(toDouble: string -> Option<real>): SourceManga -> Option<real>
  {
    (m: SourceManga) => toDouble(Split(m.displayText, ' ')[0])
  }

  /** The MangaUpdates key: "Similar" counts as -1. */
  function MuKey(toDouble: string -> Option<real>): SourceManga -> Option<real>
  {
    (m: SourceManga) => if m.displayText == SIMILAR_TEXT then Some(-1.0) else toDouble(Split(m.displayText, ' ')[0])
  }

  /** Reading a cached list: none reads as empty; otherwise converted and sorted. */
  function CachedList(l: Option<seq<RelatedMangaDto>>, key: SourceManga -> Option<real>)
    : (r: Result<seq<SourceManga>, string>)
    ensures l.None? ==> r == Ok([])
    ensures l.Some? ==> r == SortedByDescending(ToSourceList(l.value), key)
  {
    if l.None? then Ok([]) else SortedByDescending(ToSourceList(l.value), key)
  }

  /** When every vote count reads as more than -1, the MangaUpdates list puts every
    * "Similar" entry after every vote entry. */
  lemma MuSimilarLast(l: seq<RelatedMangaDto>, toDouble: string -> Option<real>)
    requires forall i :: 0 <= i < |l| && l[i].relation != SIMILAR_TEXT ==>
               toDouble(Split(l[i].relation, ' ')[0]).Some? && toDouble(Split(l[i].relation, ' ')[0]).value > -1.0
    ensures var r := CachedList(Some(l), MuKey(toDouble));
            r.Ok? && forall i, j :: 0 <= i < j < |r.value| && r.value[i].displayText == SIMILAR_TEXT
                                    ==> r.value[j].displayText == SIMILAR_TEXT
  {
    var s := ToSourceList(l);
    var key := MuKey(toDouble);
    forall i | 0 <= i < |s|
      ensures key(s[i]).Some?
    {
      assert s[i].displayText == l[i].relation;
    }
    var r := SortedByDescending(s, key);
    SortedByDescendingSorted(s, key);
    forall i, j | 0 <= i < j < |r.value| && r.value[i].displayText == SIMILAR_TEXT
      ensures r.value[j].displayText == SIMILAR_TEXT
    {
      var y := r.value[j];
      assert y in multiset(s);
      var k :| 0 <= k < |s| && s[k] == y;
      assert s[k].displayText == l[k].relation;
    }
  }

  // ---------------------------------------------------------------------------
  // Picking the matching line of the similar-manga answer

  /** The JSON part of a line that splits into exactly the id and one more part. */
  function LineMatch(dexId: string): string -> Option<string>
  {
    (line: string) =>
      var parts := SplitOn(line, SIMILAR_SEPARATOR);
      if |parts| == 2 && parts[0] == dexId then Some(parts[1]) else None
  }

  /** The JSON part of the first matching line of the answer. */
  function SelectLine(response: string, dexId: string): (r: Option<string>)
    ensures r.None? ==> forall k :: 0 <= k < |Split(response, '\n')| ==> LineMatch(dexId)(Split(response, '\n')[k]).None?
    ensures (forall k :: 0 <= k < |Split(response, '\n')| ==> LineMatch(dexId)(Split(response, '\n')[k]).None?) ==> r.None?
    ensures r.Some? ==> exists k :: 0 <= k < |Split(response, '\n')| && LineMatch(dexId)(Split(response, '\n')[k]) == r
                                   && forall j :: 0 <= j < k ==> LineMatch(dexId)(Split(response, '\n')[j]).None?
  {
    var lines := Split(response, '\n');
    var f := LineMatch(dexId);
    var r := FirstSome(lines, f);
    assert r.None? <==> forall i :: 0 <= i < |lines| ==> f(lines[i]).None?;
    r
  }

  /** The selected part comes from a line made of the id, the separator and that part. */
  lemma SelectedLineForm(response: string, dexId: string)
    requires SelectLine(response, dexId).Some?
    ensures exists k :: 0 <= k < |Split(response, '\n')| && Split(response, '\n')[k] == dexId + SIMILAR_SEPARATOR + SelectLine(response, dexId).value
  {
    var lines := Split(response, '\n');
    var r := SelectLine(response, dexId);
    var k :| 0 <= k < |lines| && LineMatch(dexId)(lines[k]) == r;
    JoinSplitOn(lines[k], SIMILAR_SEPARATOR);
    var parts := SplitOn(lines[k], SIMILAR_SEPARATOR);
    assert parts[1..] == [parts[1]];
  }

  /** A line made of the id, the separator and a JSON part free of the separator matches,
    * provided the separator does not start inside the id. */
  lemma {:induction false} WellFormedLineMatches(dexId: string, payload: string)
    requires forall i :: 0 <= i < |dexId| ==> !OccursAt(dexId + SIMILAR_SEPARATOR, SIMILAR_SEPARATOR, i)
    requires !Contains(payload, SIMILAR_SEPARATOR)
    ensures LineMatch(dexId)(dexId + SIMILAR_SEPARATOR + payload) == Some(payload)
  {
    SplitOnPrefix(dexId, payload, SIMILAR_SEPARATOR);
    SplitOnWhole(payload, SIMILAR_SEPARATOR);
  }

  // ---------------------------------------------------------------------------
  // The id maps

  predicate HasRelationship(e: RelatedEntry)
  {
    |e.relationshipIds| > 0
  }

  /** The related map (`mapNotNull { … }.toMap()`): entries without relationships are
    * dropped; every other entry's first relationship id is a key, no other id is, and an
    * id maps to the relation of the last entry that has it. */
  function RelatedIdMap(entries: seq<RelatedEntry>): (r: map<string, string>)
    ensures forall id :: id in r <==>
              exists i :: 0 <= i < |entries| && HasRelationship(entries[i]) && entries[i].relationshipIds[0] == id
    ensures forall i :: 0 <= i < |entries| && HasRelationship(entries[i])
                        && (forall j :: i < j < |entries| && HasRelationship(entries[j])
                                        ==> entries[j].relationshipIds[0] != entries[i].relationshipIds[0])
                        ==> r[entries[i].relationshipIds[0]] == entries[i].relation
  {
    RelatedIdMapSpec(entries);
    Associate(MapNotNull(entries, RelatedEntryPair()))
  }

  /** The pair an entry contributes, or null when it has no relationship. */
  function RelatedEntryPair(): RelatedEntry -> Option<(string, string)>
  {
    (e: RelatedEntry) => if |e.relationshipIds| == 0 then None else Some((e.relationshipIds[0], e.relation))
  }

  lemma RelatedIdMapSpec(entries: seq<RelatedEntry>)
    ensures var r := Associate(MapNotNull(entries, RelatedEntryPair()));
            forall id :: id in r <==>
              exists i :: 0 <= i < |entries| && HasRelationship(entries[i]) && entries[i].relationshipIds[0] == id
    ensures var r := Associate(MapNotNull(entries, RelatedEntryPair()));
            forall i :: 0 <= i < |entries| && HasRelationship(entries[i])
                        && (forall j :: i < j < |entries| && HasRelationship(entries[j])
                                        ==> entries[j].relationshipIds[0] != entries[i].relationshipIds[0])
                        ==> r[entries[i].relationshipIds[0]] == entries[i].relation
  {
    var f := RelatedEntryPair();
    var r := Associate(MapNotNull(entries, f));
    forall id | id in r
      ensures exists i :: 0 <= i < |entries| && HasRelationship(entries[i]) && entries[i].relationshipIds[0] == id
    {
      MapNotNullKeyFrom(entries, f, id);
      var i :| 0 <= i < |entries| && f(entries[i]).Some? && f(entries[i]).value.0 == id;
      assert HasRelationship(entries[i]);
    }
    forall i | 0 <= i < |entries| && HasRelationship(entries[i])
      ensures entries[i].relationshipIds[0] in r
    {
      MapNotNullKeyIn(entries, f, i);
    }
    forall i | 0 <= i < |entries| && HasRelationship(entries[i])
               && (forall j :: i < j < |entries| && HasRelationship(entries[j])
                               ==> entries[j].relationshipIds[0] != entries[i].relationshipIds[0])
      ensures r[entries[i].relationshipIds[0]] == entries[i].relation
    {
      assert LastWithKeyAt(entries, f, i);
      LastNotNullWins(entries, f, i);
    }
  }

  /** The similar map (`associate`): one key per match id, the last match with an id giving
    * its formatted score. */
  function SimilarIdMap(dto: SimilarMangaDto, formatPercent: real -> string): (r: map<string, string>)
    ensures r.Keys == set i | 0 <= i < |dto.matches| :: dto.matches[i].id
    ensures forall i :: 0 <= i < |dto.matches| && (forall j :: i < j < |dto.matches| ==> dto.matches[j].id != dto.matches[i].id)
                        ==> r[dto.matches[i].id] == formatPercent(100.0 * dto.matches[i].score) + MATCH_SUFFIX
  {
    var f := (m: SimilarMatch) => (m.id, formatPercent(100.0 * m.score) + MATCH_SUFFIX);
    var r := AssociateBy(dto.matches, f);
    assert forall i :: 0 <= i < |dto.matches| ==> f(dto.matches[i]).0 == dto.matches[i].id;
    r
  }

  predicate IsManga(e: AnilistEdge)
  {
    e.format == MANGA_FORMAT
  }

  /** The MangaDex id an AniList recommendation maps to (possibly null). */
  function AnilistKey(mappings: Mappings, e: AnilistEdge): Option<string>
  {
    mappings.getMangadexUuid(IntToString(e.mediaId), "al")
  }

  /** The AniList map (`map { … }.filterNotNull().toMap()`): exactly the MANGA
    * recommendations contribute, each under its mapped id, and an id shows the votes of
    * the last MANGA recommendation that maps to it. */
  function AnilistIdMap(dto: AnilistDto, mappings: Mappings): (r: map<Option<string>, string>)
    ensures forall k :: k in r <==>
              exists i :: 0 <= i < |dto.edges| && IsManga(dto.edges[i]) && AnilistKey(mappings, dto.edges[i]) == k
    ensures forall i :: 0 <= i < |dto.edges| && IsManga(dto.edges[i])
                        && (forall j :: i < j < |dto.edges| && IsManga(dto.edges[j])
                                        ==> AnilistKey(mappings, dto.edges[j]) != AnilistKey(mappings, dto.edges[i]))
                        ==> r[AnilistKey(mappings, dto.edges[i])] == IntToString(dto.edges[i].rating) + VOTES_SUFFIX
  {
    AnilistIdMapSpec(dto.edges, mappings);
    Associate(MapNotNull(dto.edges, AnilistEntryPair(mappings)))
  }

  /** The pair a recommendation contributes, or null when it is not a manga. */
  function AnilistEntryPair(mappings: Mappings): AnilistEdge -> Option<(Option<string>, string)>
  {
    (e: AnilistEdge) =>
      if e.format != MANGA_FORMAT then None
      else Some((AnilistKey(mappings, e), IntToString(e.rating) + VOTES_SUFFIX))
  }

  lemma AnilistIdMapSpec(edges: seq<AnilistEdge>, mappings: Mappings)
    ensures var r := Associate(MapNotNull(edges, AnilistEntryPair(mappings)));
            forall k :: k in r <==>
              exists i :: 0 <= i < |edges| && IsManga(edges[i]) && AnilistKey(mappings, edges[i]) == k
    ensures var r := Associate(MapNotNull(edges, AnilistEntryPair(mappings)));
            forall i :: 0 <= i < |edges| && IsManga(edges[i])
                        && (forall j :: i < j < |edges| && IsManga(edges[j])
                                        ==> AnilistKey(mappings, edges[j]) != AnilistKey(mappings, edges[i]))
                        ==> r[AnilistKey(mappings, edges[i])] == IntToString(edges[i].rating) + VOTES_SUFFIX
  {
    var f := AnilistEntryPair(mappings);
    var r := Associate(MapNotNull(edges, f));
    forall k | k in r
      ensures exists i :: 0 <= i < |edges| && IsManga(edges[i]) && AnilistKey(mappings, edges[i]) == k
    {
      MapNotNullKeyFrom(edges, f, k);
      var i :| 0 <= i < |edges| && f(edges[i]).Some? && f(edges[i]).value.0 == k;
      assert IsManga(edges[i]);
    }
    forall i | 0 <= i < |edges| && IsManga(edges[i])
      ensures AnilistKey(mappings, edges[i]) in r
    {
      MapNotNullKeyIn(edges, f, i);
    }
    forall i | 0 <= i < |edges| && IsManga(edges[i])
               && (forall j :: i < j < |edges| && IsManga(edges[j])
                               ==> AnilistKey(mappings, edges[j]) != AnilistKey(mappings, edges[i]))
      ensures r[AnilistKey(mappings, edges[i])] == IntToString(edges[i].rating) + VOTES_SUFFIX
    {
      assert LastWithKeyAt(edges, f, i);
      LastNotNullWins(edges, f, i);
    }
  }

  /** The MAL map (`associate`): one key per mapped MAL id, the last entry giving its votes. */
  function MalIdMap(dto: MalDto, mappings: Mappings): (r: map<Option<string>, string>)
    ensures r.Keys == set i | 0 <= i < |dto.data| :: mappings.getMangadexUuid(IntToString(dto.data[i].malId), "mal")
    ensures forall i :: 0 <= i < |dto.data|
                        && (forall j :: i < j < |dto.data| ==>
                              mappings.getMangadexUuid(IntToString(dto.data[j].malId), "mal")
                              != mappings.getMangadexUuid(IntToString(dto.data[i].malId), "mal"))
                        ==> r[mappings.getMangadexUuid(IntToString(dto.data[i].malId), "mal")]
                            == IntToString(dto.data[i].votes) + VOTES_SUFFIX
  {
    var f := (e: MalEntry) => (mappings.getMangadexUuid(IntToString(e.malId), "mal"), IntToString(e.votes) + VOTES_SUFFIX);
    var r := AssociateBy(dto.data, f);
    assert forall i :: 0 <= i < |dto.data| ==>
             f(dto.data[i]) == (mappings.getMangadexUuid(IntToString(dto.data[i].malId), "mal"),
                                IntToString(dto.data[i].votes) + VOTES_SUFFIX);
    r
  }

  /** MangaUpdates' weighted recommendations (`associate`): one key per mapped series id,
    * the last recommendation giving its votes. */
  function MuVotes(dto: MuDto, mappings: Mappings): (r: map<Option<string>, string>)
    ensures r.Keys == set i | 0 <= i < |dto.recommendations| :: MuSeriesKey(mappings, dto.recommendations[i])
    ensures forall i :: 0 <= i < |dto.recommendations|
                        && (forall j :: i < j < |dto.recommendations| ==>
                              MuSeriesKey(mappings, dto.recommendations[j]) != MuSeriesKey(mappings, dto.recommendations[i]))
                        ==> r[MuSeriesKey(mappings, dto.recommendations[i])] == IntToString(dto.recommendations[i].weight) + VOTES_SUFFIX
  {
    var f := (m: MuRecommendation) => (MuSeriesKey(mappings, m), IntToString(m.weight) + VOTES_SUFFIX);
    var r := AssociateBy(dto.recommendations, f);
    assert forall i :: 0 <= i < |dto.recommendations| ==>
             f(dto.recommendations[i]) == (MuSeriesKey(mappings, dto.recommendations[i]),
                                           IntToString(dto.recommendations[i].weight) + VOTES_SUFFIX);
    r
  }

  /** MangaUpdates' category recommendations: one key per mapped series id, each "Similar". */
  function MuCategories(dto: MuDto, mappings: Mappings): (r: map<Option<string>, string>)
    ensures r.Keys == set i | 0 <= i < |dto.categoryRecommendations| :: MuSeriesKey(mappings, dto.categoryRecommendations[i])
    ensures forall k :: k in r ==> r[k] == SIMILAR_TEXT
  {
    var f := (m: MuRecommendation) => (MuSeriesKey(mappings, m), SIMILAR_TEXT);
    AssociateByConstant(dto.categoryRecommendations, f, SIMILAR_TEXT);
    AssociateBy(dto.categoryRecommendations, f)
  }

  /** The MangaDex id a MangaUpdates series maps to (possibly null). */
  function MuSeriesKey(mappings: Mappings, m: MuRecommendation): Option<string>
  {
    mappings.getMangadexUuid(IntToString(m.seriesId), "mu_new")
  }

  /** The vote recommendations, then the category ones on top (`idPairs += …`). */
  function MuIdMap(dto: MuDto, mappings: Mappings): (r: map<Option<string>, string>)
    ensures r.Keys == (set i | 0 <= i < |dto.recommendations| :: MuSeriesKey(mappings, dto.recommendations[i]))
                      + (set i | 0 <= i < |dto.categoryRecommendations| :: MuSeriesKey(mappings, dto.categoryRecommendations[i]))
  {
    MuVotes(dto, mappings) + MuCategories(dto, mappings)
  }

  /** A category recommendation overrides a vote one for the same id with "Similar"; an id
    * with only votes keeps its vote text. */
  lemma MuCategoryOverrides(dto: MuDto, mappings: Mappings, k: Option<string>)
    ensures k in MuCategories(dto, mappings) ==> k in MuIdMap(dto, mappings) && MuIdMap(dto, mappings)[k] == SIMILAR_TEXT
    ensures k !in MuCategories(dto, mappings) && k in MuVotes(dto, mappings) ==>
              k in MuIdMap(dto, mappings) && MuIdMap(dto, mappings)[k] == MuVotes(dto, mappings)[k]
  {
  }

  // ---------------------------------------------------------------------------
  // Each source writes only its own fields

  function WithRelated(d: SimilarDbDto, l: seq<RelatedMangaDto>): SimilarDbDto
  {
    d.(relatedManga := Some(l))
  }

  function WithSimilar(d: SimilarDbDto, api: SimilarMangaDto, l: seq<RelatedMangaDto>): SimilarDbDto
  {
    d.(similarApi := Some(api), similarManga := Some(l))
  }

  function WithAnilist(d: SimilarDbDto, api: AnilistDto, l: seq<RelatedMangaDto>): SimilarDbDto
  {
    d.(aniListApi := Some(api), aniListManga := Some(l))
  }

  function WithMal(d: SimilarDbDto, api: MalDto, l: seq<RelatedMangaDto>): SimilarDbDto
  {
    d.(myAnimelistApi := Some(api), myAnimeListManga := Some(l))
  }

  function WithMu(d: SimilarDbDto, api: MuDto, l: seq<RelatedMangaDto>): SimilarDbDto
  {
    d.(mangaUpdatesApi := Some(api), mangaUpdatesListManga := Some(l))
  }

  /** The five writes touch disjoint fields, so applied one after another they give the
    * same row in any order, and each leaves what the others wrote. */
  lemma SourceWritesCommute(d: SimilarDbDto, rel: seq<RelatedMangaDto>,
                            sApi: SimilarMangaDto, sl: seq<RelatedMangaDto>,
                            aApi: AnilistDto, al: seq<RelatedMangaDto>,
                            mApi: MalDto, ml: seq<RelatedMangaDto>,
                            uApi: MuDto, ul: seq<RelatedMangaDto>)
    ensures WithRelated(WithSimilar(d, sApi, sl), rel) == WithSimilar(WithRelated(d, rel), sApi, sl)
    ensures WithSimilar(WithAnilist(d, aApi, al), sApi, sl) == WithAnilist(WithSimilar(d, sApi, sl), aApi, al)
    ensures WithAnilist(WithMal(d, mApi, ml), aApi, al) == WithMal(WithAnilist(d, aApi, al), mApi, ml)
    ensures WithMal(WithMu(d, uApi, ul), mApi, ml) == WithMu(WithMal(d, mApi, ml), uApi, ul)
    ensures WithMu(WithRelated(d, rel), uApi, ul) == WithRelated(WithMu(d, uApi, ul), rel)
    ensures var all := WithMu(WithMal(WithAnilist(WithSimilar(WithRelated(d, rel), sApi, sl), aApi, al), mApi, ml), uApi, ul);
            && all.relatedManga == Some(rel)
            && all.similarApi == Some(sApi) && all.similarManga == Some(sl)
            && all.aniListApi == Some(aApi) && all.aniListManga == Some(al)
            && all.myAnimelistApi == Some(mApi) && all.myAnimeListManga == Some(ml)
            && all.mangaUpdatesApi == Some(uApi) && all.mangaUpdatesListManga == Some(ul)
  {
  }

  // ---------------------------------------------------------------------------
  // The parse steps: Ok(None) writes nothing, Ok(Some(d)) writes `d`, Err throws

  function RelatedParse(cached: SimilarDbDto, entries: seq<RelatedEntry>, search: ApiResponse<seq<MangaDex.MangaData>>,
                        md: MangaDex.MdHelpers): (r: Result<Option<SimilarDbDto>, string>)
    ensures r.Err? <==> !search.Success?
    ensures r.Ok? ==> r.value == Some(WithRelated(cached, RelatedList(search.body, TextForId(RelatedIdMap(entries)), md)))
  {
    var ids := RelatedIdMap(entries);
    match Search(|ids.Keys|, search, false)
    case Err(e) => Err(e)
    case Ok(data) => Ok(Some(WithRelated(cached, RelatedList(data, TextForId(ids), md))))
  }

  function SimilarParse(cached: SimilarDbDto, api: Option<SimilarMangaDto>, search: ApiResponse<seq<MangaDex.MangaData>>,
                        md: MangaDex.MdHelpers, formatPercent: real -> string): (r: Result<Option<SimilarDbDto>, string>)
    ensures api.None? || |SimilarIdMap(api.value, formatPercent)| == 0 ==> r == Ok(None)
    ensures api.Some? && |SimilarIdMap(api.value, formatPercent)| > 0 ==>
              (r.Err? <==> !search.Success?)
              && (r.Ok? ==> r.value == Some(WithSimilar(cached, api.value,
                                                         RelatedList(search.body, TextForId(SimilarIdMap(api.value, formatPercent)), md))))
  {
    if api.None? then Ok(None)
    else
      var ids := SimilarIdMap(api.value, formatPercent);
      if |ids| == 0 then Ok(None)
      else match Search(|ids.Keys|, search, false)
        case Err(e) => Err(e)
        case Ok(data) => Ok(Some(WithSimilar(cached, api.value, RelatedList(data, TextForId(ids), md))))
  }

  function AnilistParse(cached: SimilarDbDto, api: Option<AnilistDto>, search: ApiResponse<seq<MangaDex.MangaData>>,
                        md: MangaDex.MdHelpers, mappings: Mappings): (r: Result<Option<SimilarDbDto>, string>)
    ensures api.None? || |AnilistIdMap(api.value, mappings)| == 0 ==> r == Ok(None)
    ensures api.Some? && |AnilistIdMap(api.value, mappings)| > 0 ==>
              (r.Err? <==> !search.Success?)
              && (r.Ok? ==> r.value == Some(WithAnilist(cached, api.value,
                                                         RelatedList(search.body, TextForUuid(AnilistIdMap(api.value, mappings)), md))))
  {
    if api.None? then Ok(None)
    else
      var ids := AnilistIdMap(api.value, mappings);
      if |ids| == 0 then Ok(None)
      else match Search(|QueryIds(ids)|, search, false)
        case Err(e) => Err(e)
        case Ok(data) => Ok(Some(WithAnilist(cached, api.value, RelatedList(data, TextForUuid(ids), md))))
  }

  function MalParse(cached: SimilarDbDto, api: Option<MalDto>, search: ApiResponse<seq<MangaDex.MangaData>>,
                    md: MangaDex.MdHelpers, mappings: Mappings): (r: Result<Option<SimilarDbDto>, string>)
    ensures api.None? || |MalIdMap(api.value, mappings)| == 0 ==> r == Ok(None)
    ensures api.Some? && |MalIdMap(api.value, mappings)| > 0 ==>
              (r.Err? <==> !search.Success?)
              && (r.Ok? ==> r.value == Some(WithMal(cached, api.value,
                                                     RelatedList(search.body, TextForUuid(MalIdMap(api.value, mappings)), md))))
  {
    if api.None? then Ok(None)
    else
      var ids := MalIdMap(api.value, mappings);
      if |ids| == 0 then Ok(None)
      else match Search(|QueryIds(ids)|, search, false)
        case Err(e) => Err(e)
        case Ok(data) => Ok(Some(WithMal(cached, api.value, RelatedList(data, TextForUuid(ids), md))))
  }

  function MuParse(cached: SimilarDbDto, api: Option<MuDto>, search: ApiResponse<seq<MangaDex.MangaData>>,
                   md: MangaDex.MdHelpers, mappings: Mappings): (r: Result<Option<SimilarDbDto>, string>)
    ensures api.None? || |MuIdMap(api.value, mappings)| == 0 ==> r == Ok(None)
    ensures api.Some? && |MuIdMap(api.value, mappings)| > 0 ==>
              (r.Err? <==> !search.Success?)
              && (r.Ok? ==> r.value == Some(WithMu(cached, api.value,
                                                    RelatedList(search.body, TextForUuid(MuIdMap(api.value, mappings)), md))))
  {
    if api.None? then Ok(None)
    else
      var ids := MuIdMap(api.value, mappings);
      if |ids| == 0 then Ok(None)
      else match Search(|QueryIds(ids)|, search, false)
        case Err(e) => Err(e)
        case Ok(data) => Ok(Some(WithMu(cached, api.value, RelatedList(data, TextForUuid(ids), md))))
  }

  /** The table after a parse step. */
  function AfterParse(db: map<string, Option<SimilarDbDto>>, key: string, p: Result<Option<SimilarDbDto>, string>)
    : (r: map<string, Option<SimilarDbDto>>)
    ensures p.Ok? && p.value.Some? ==> r == db[key := Some(p.value.value)]
    ensures !(p.Ok? && p.value.Some?) ==> r == db
  {
    if p.Ok? && p.value.Some? then db[key := Some(p.value.value)] else db
  }

  /** Whether a fetch contacts any service. */
  predicate Contacts(dexId: string, forceRefresh: bool)
  {
    forceRefresh && dexId != ""
  }

  // ---------------------------------------------------------------------------
  // The handler

  class SimilarHandlerState {
    var db: map<string, Option<SimilarDbDto>>
    const md: MangaDex.MdHelpers
    const mappings: Mappings
    const formatPercent: real -> string
    const toDouble: string -> Option<real>
    const decodeSimilar: string -> Result<SimilarMangaDto, string>

    constructor (db: map<string, Option<SimilarDbDto>>, md: MangaDex.MdHelpers, mappings: Mappings,
                 formatPercent: real -> string, toDouble: string -> Option<real>,
                 decodeSimilar: string -> Result<SimilarMangaDto, string>)
      ensures this.db == db && this.md == md && this.mappings == mappings
      ensures this.formatPercent == formatPercent && this.toDouble == toDouble && this.decodeSimilar == decodeSimilar
    {
      this.db := db;
      this.md := md;
      this.mappings := mappings;
      this.formatPercent := formatPercent;
      this.toDouble := toDouble;
      this.decodeSimilar := decodeSimilar;
    }

    /** `insertMangaSimilar` after a parse step. */
    method Apply(key: string, p: Result<Option<SimilarDbDto>, string>)
      modifies this`db
      ensures db == AfterParse(old(db), key, p)
    {
      if p.Ok? && p.value.Some? {
        db := db[key := Some(p.value.value)];
      }
    }

    /** `fetchRelated`; with no answer from MangaDex it returns nothing without reading the
      * cache. The related list is not sorted. */
    method FetchRelated(dexId: string, mangaId: Option<int>, forceRefresh: bool,
                        related: ApiResponse<seq<RelatedEntry>>, search: ApiResponse<seq<MangaDex.MangaData>>)
      returns (r: Result<seq<SourceManga>, string>)
      modifies this`db
      ensures !Contacts(dexId, forceRefresh) ==>
                db == old(db) && r == Ok(ToSourceList(GetOr(Cached(db, MangaKey(mangaId)).relatedManga)))
      ensures Contacts(dexId, forceRefresh) && !related.Success? ==> db == old(db) && r == Ok([])
      ensures Contacts(dexId, forceRefresh) && related.Success? ==>
                var p := RelatedParse(Cached(old(db), MangaKey(mangaId)), related.body, search, md);
                && db == AfterParse(old(db), MangaKey(mangaId), p)
                && (p.Err? ==> r.Err?)
                && (p.Ok? ==> r == Ok(ToSourceList(GetOr(Cached(db, MangaKey(mangaId)).relatedManga))))
    {
      var key := MangaKey(mangaId);
      if Contacts(dexId, forceRefresh) {
        var answer := OrNull(related);
        if answer.None? {
          return Ok([]);
        }
        var p := RelatedParse(Cached(db, key), answer.value, search, md);
        if p.Err? {
          return Err(p.error);
        }
        Apply(key, p);
      }
      r := Ok(ToSourceList(GetOr(Cached(db, key).relatedManga)));
    }

    /** `fetchSimilar`: the bucket keys are the first 2 and 3 characters of the id, so a
      * shorter id throws. */
    method FetchSimilar(dexId: string, mangaId: Option<int>, forceRefresh: bool,
                        response: ApiResponse<string>, search: ApiResponse<seq<MangaDex.MangaData>>)
      returns (r: Result<seq<SourceManga>, string>)
      modifies this`db
      ensures !Contacts(dexId, forceRefresh) ==>
                db == old(db) && r == CachedList(Cached(db, MangaKey(mangaId)).similarManga, SimilarKey(toDouble))
      ensures Contacts(dexId, forceRefresh) && |dexId| < 3 ==> db == old(db) && r.Err?
      ensures Contacts(dexId, forceRefresh) && |dexId| >= 3 ==>
                var line := if response.Success? then SelectLine(response.body, dexId) else None;
                var decoded := if line.Some? then Some(decodeSimilar(line.value)) else None;
                (decoded.Some? && decoded.value.Err? ==> db == old(db) && r.Err?)
                && (!(decoded.Some? && decoded.value.Err?) ==>
                      var api := if decoded.Some? then Some(decoded.value.value) else None;
                      var p := SimilarParse(Cached(old(db), MangaKey(mangaId)), api, search, md, formatPercent);
                      && db == AfterParse(old(db), MangaKey(mangaId), p)
                      && (p.Err? ==> r.Err?)
                      && (p.Ok? ==> r == CachedList(Cached(db, MangaKey(mangaId)).similarManga, SimilarKey(toDouble))))
    {
      var key := MangaKey(mangaId);
      if Contacts(dexId, forceRefresh) {
        if |dexId| < 3 {
          return Err("StringIndexOutOfBoundsException");
        }
        var answer := OrNull(response);
        var api: Option<SimilarMangaDto> := None;
        if answer.Some? {
          var line := SelectLine(answer.value, dexId);
          if line.Some? {
            var decoded := decodeSimilar(line.value);
            if decoded.Err? {
              return Err(decoded.error);
            }
            api := Some(decoded.value);
          }
        }
        var p := SimilarParse(Cached(db, key), api, search, md, formatPercent);
        if p.Err? {
          return Err(p.error);
        }
        Apply(key, p);
      }
      r := CachedList(Cached(db, key).similarManga, SimilarKey(toDouble));
    }

    /** `fetchAnilist`; with no AniList id for the manga it returns nothing without reading
      * the cache. */
    method FetchAnilist(dexId: string, mangaId: Option<int>, forceRefresh: bool,
                        response: ApiResponse<AnilistDto>, search: ApiResponse<seq<MangaDex.MangaData>>)
      returns (r: Result<seq<SourceManga>, string>)
      modifies this`db
      ensures !Contacts(dexId, forceRefresh) ==>
                db == old(db) && r == CachedList(Cached(db, MangaKey(mangaId)).aniListManga, VotesKey(toDouble))
      ensures Contacts(dexId, forceRefresh) && mappings.getExternalId(dexId, "al").None? ==> db == old(db) && r == Ok([])
      ensures Contacts(dexId, forceRefresh) && mappings.getExternalId(dexId, "al").Some? ==>
                (ThirdParty(response).Err? ==> db == old(db) && r.Err?)
                && (ThirdParty(response).Ok? ==>
                      var p := AnilistParse(Cached(old(db), MangaKey(mangaId)), ThirdParty(response).value, search, md, mappings);
                      && db == AfterParse(old(db), MangaKey(mangaId), p)
                      && (p.Err? ==> r.Err?)
                      && (p.Ok? ==> r == CachedList(Cached(db, MangaKey(mangaId)).aniListManga, VotesKey(toDouble))))
    {
      var key := MangaKey(mangaId);
      if Contacts(dexId, forceRefresh) {
        if mappings.getExternalId(dexId, "al").None? {
          return Ok([]);
        }
        var answer := ThirdParty(response);
        if answer.Err? {
          return Err(answer.error);
        }
        var p := AnilistParse(Cached(db, key), answer.value, search, md, mappings);
        if p.Err? {
          return Err(p.error);
        }
        Apply(key, p);
      }
      r := CachedList(Cached(db, key).aniListManga, VotesKey(toDouble));
    }

    /** `fetchSimilarExternalMalManga` */
    method FetchMal(dexId: string, mangaId: Option<int>, forceRefresh: bool,
                    response: ApiResponse<MalDto>, search: ApiResponse<seq<MangaDex.MangaData>>)
      returns (r: Result<seq<SourceManga>, string>)
      modifies this`db
      ensures !Contacts(dexId, forceRefresh) ==>
                db == old(db) && r == CachedList(Cached(db, MangaKey(mangaId)).myAnimeListManga, VotesKey(toDouble))
      ensures Contacts(dexId, forceRefresh) && mappings.getExternalId(dexId, "mal").None? ==> db == old(db) && r == Ok([])
      ensures Contacts(dexId, forceRefresh) && mappings.getExternalId(dexId, "mal").Some? ==>
                (ThirdParty(response).Err? ==> db == old(db) && r.Err?)
                && (ThirdParty(response).Ok? ==>
                      var p := MalParse(Cached(old(db), MangaKey(mangaId)), ThirdParty(response).value, search, md, mappings);
                      && db == AfterParse(old(db), MangaKey(mangaId), p)
                      && (p.Err? ==> r.Err?)
                      && (p.Ok? ==> r == CachedList(Cached(db, MangaKey(mangaId)).myAnimeListManga, VotesKey(toDouble))))
    {
      var key := MangaKey(mangaId);
      if Contacts(dexId, forceRefresh) {
        if mappings.getExternalId(dexId, "mal").None? {
          return Ok([]);
        }
        var answer := ThirdParty(response);
        if answer.Err? {
          return Err(answer.error);
        }
        var p := MalParse(Cached(db, key), answer.value, search, md, mappings);
        if p.Err? {
          return Err(p.error);
        }
        Apply(key, p);
      }
      r := CachedList(Cached(db, key).myAnimeListManga, VotesKey(toDouble));
    }

    /** `fetchSimilarExternalMUManga` */
    method FetchMu(dexId: string, mangaId: Option<int>, forceRefresh: bool,
                   response: ApiResponse<MuDto>, search: ApiResponse<seq<MangaDex.MangaData>>)
      returns (r: Result<seq<SourceManga>, string>)
      modifies this`db
      ensures !Contacts(dexId, forceRefresh) ==>
                db == old(db) && r == CachedList(Cached(db, MangaKey(mangaId)).mangaUpdatesListManga, MuKey(toDouble))
      ensures Contacts(dexId, forceRefresh) && mappings.getExternalId(dexId, "mu_new").None? ==> db == old(db) && r == Ok([])
      ensures Contacts(dexId, forceRefresh) && mappings.getExternalId(dexId, "mu_new").Some? ==>
                (ThirdParty(response).Err? ==> db == old(db) && r.Err?)
                && (ThirdParty(response).Ok? ==>
                      var p := MuParse(Cached(old(db), MangaKey(mangaId)), ThirdParty(response).value, search, md, mappings);
                      && db == AfterParse(old(db), MangaKey(mangaId), p)
                      && (p.Err? ==> r.Err?)
                      && (p.Ok? ==> r == CachedList(Cached(db, MangaKey(mangaId)).mangaUpdatesListManga, MuKey(toDouble))))
    {
      var key := MangaKey(mangaId);
      if Contacts(dexId, forceRefresh) {
        if mappings.getExternalId(dexId, "mu_new").None? {
          return Ok([]);
        }
        var answer := ThirdParty(response);
        if answer.Err? {
          return Err(answer.error);
        }
        var p := MuParse(Cached(db, key), answer.value, search, md, mappings);
        if p.Err? {
          return Err(p.error);
        }
        Apply(key, p);
      }
      r := CachedList(Cached(db, key).mangaUpdatesListManga, MuKey(toDouble));
    }
  }

  /** `list ?: emptyList()` */
  function GetOr<T>(l: Option<seq<T>>): seq<T>
  {
    if l.Some? then l.value else []
  }

  /** A successful refresh of one source changes only that source's fields of the row;
    * what the other sources cached is read back unchanged. */
  lemma RefreshKeepsOtherSources(db: map<string, Option<SimilarDbDto>>, key: string, cached: SimilarDbDto,
                                 api: AnilistDto, l: seq<RelatedMangaDto>)
    requires cached == Cached(db, key)
    ensures var d := Cached(db[key := Some(WithAnilist(cached, api, l))], key);
            && d.relatedManga == cached.relatedManga
            && d.similarApi == cached.similarApi && d.similarManga == cached.similarManga
            && d.myAnimelistApi == cached.myAnimelistApi && d.myAnimeListManga == cached.myAnimeListManga
            && d.mangaUpdatesApi == cached.mangaUpdatesApi && d.mangaUpdatesListManga == cached.mangaUpdatesListManga
            && d.aniListManga == Some(l)
  {
  }
}
