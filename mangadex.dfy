/**
 * The conversion of a MangaDex manga record to the app's basic manga (`toBasicManga`).
 * The title helpers and the cover URL builder of MangaDex's utilities are not part of
 * this model and are passed in as functions, and the two MangaDex constants it reads
 * (the cover-art relationship type and the placeholder cover) as values.
 */
module MangaDex {
  import opened Wrappers
  import opened Collections

  const MANGA_PATH := "/manga/"

  /** A relationship of a manga record; `fileName` is absent when the relationship has no
    * attributes or no file name. */
  datatype Relationship = Relationship(id: string, kind: string, fileName: Option<string>)

  datatype MangaData = MangaData(id: string, titles: map<string, string>, originalLanguage: string,
                                 relationships: seq<Relationship>)

  datatype SManga = SManga(url: string, title: string, thumbnailUrl: Option<string>)

  /** The MangaDex helpers `toBasicManga` calls. */
  datatype MdHelpers = MdHelpers(getTitle: (map<string, string>, string) -> string,
                                 cleanString: string -> string,
                                 cdnCoverUrl: (string, string, int) -> string,
                                 coverArt: string,
                                 noCoverUrl: string)

  /** The file name of the first cover-art relationship, if it has one. */
  function CoverFileName(m: MangaData, coverArt: string): (r: Option<string>)
  {
    match FirstSome(m.relationships, (rel: Relationship) => if rel.kind == coverArt then Some(rel) else None)
    case None => None
    case Some(rel) => rel.fileName
  }

  /** `toBasicManga(coverQuality, useNoCoverUrl)` */
  function ToBasicManga(m: MangaData, coverQuality: int, useNoCoverUrl: bool, md: MdHelpers): (r: SManga)
    ensures r.url == MANGA_PATH + m.id
    ensures r.title == md.cleanString(md.getTitle(m.titles, m.originalLanguage))
    ensures CoverFileName(m, md.coverArt).Some? ==>
              r.thumbnailUrl == Some(md.cdnCoverUrl(m.id, CoverFileName(m, md.coverArt).value, coverQuality))
    ensures CoverFileName(m, md.coverArt).None? ==>
              r.thumbnailUrl == if useNoCoverUrl then Some(md.noCoverUrl) else None
  {
    var thumbnail := match CoverFileName(m, md.coverArt)
      case Some(f) => Some(md.cdnCoverUrl(m.id, f, coverQuality))
      case None => if useNoCoverUrl then Some(md.noCoverUrl) else None;
    SManga(MANGA_PATH + m.id, md.cleanString(md.getTitle(m.titles, m.originalLanguage)), thumbnail)
  }

  /** The thumbnail comes from the first cover-art relationship alone: later ones are never
    * looked at, even when the first has no file name and a later one has. */
  lemma {:induction false} FirstCoverArtWins(m: MangaData, k: nat, md: MdHelpers, coverQuality: int, useNoCoverUrl: bool)
    requires k < |m.relationships| && m.relationships[k].kind == md.coverArt
    requires forall i :: 0 <= i < k ==> m.relationships[i].kind != md.coverArt
    ensures m.relationships[k].fileName.Some? ==>
              ToBasicManga(m, coverQuality, useNoCoverUrl, md).thumbnailUrl
              == Some(md.cdnCoverUrl(m.id, m.relationships[k].fileName.value, coverQuality))
    ensures m.relationships[k].fileName.None? ==>
              ToBasicManga(m, coverQuality, useNoCoverUrl, md).thumbnailUrl
              == if useNoCoverUrl then Some(md.noCoverUrl) else None
  {
    var f := (rel: Relationship) => if rel.kind == md.coverArt then Some(rel) else None;
    var r := FirstSome(m.relationships, f);
    assert f(m.relationships[k]).Some?;
    var j :| 0 <= j < |m.relationships| && f(m.relationships[j]) == r && forall i :: 0 <= i < j ==> f(m.relationships[i]).None?;
  }

  /** With the default `useNoCoverUrl`, every converted manga has a thumbnail, which the
    * similar-manga handler relies on. */
  lemma DefaultAlwaysHasThumbnail(m: MangaData, coverQuality: int, md: MdHelpers)
    ensures ToBasicManga(m, coverQuality, true, md).thumbnailUrl.Some?
  {
  }
}
