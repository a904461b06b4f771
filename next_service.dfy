/**
 * The newer tree's catalog service (manga-reader-next/src/services/mangadex.ts):
 * list results are guarded with `Array.isArray`, the chapter feed is
 * returned as received, and the localized chains treat a missing object as {}.
 */
module NextService {
  import opened Wrappers
  import opened Js
  import opened MangaTypes
  import opened Catalog

  /**
   * `getPopularManga`, `getRecentlyUpdatedManga`, `searchManga`:
   * `Array.isArray(r.data?.data) ? r.data.data : []`.
   */
  function ListOrEmpty(body: MangaResponse?): (r: seq<Manga>)
    reads body
    ensures body != null && body.data.Arr? ==> r == body.data.items
    ensures body == null || body.data.NotArray? ==> r == []
  {
    if body != null && body.data.Arr? then body.data.items else []
  }

  /** `getMangaChapters`: the feed exactly as the API sent it, without the readability filter. */
  function GetMangaChapters(body: Payload<ChapterResponse>): (r: Payload<ChapterResponse>)
    ensures r == body
  {
    body
  }

  /**
   * Unlike the legacy services, this tree passes chapters without pages or
   * with an external URL on to the chapter list.
   */
  lemma UnreadableChapterKept(feed: ChapterResponse, c: Chapter)
    requires feed.data == Arr([c]) && !Readable(c)
    ensures GetMangaChapters(Object(feed)).value.data.items == [c]
    ensures ReadableChapters(feed.data.items) == []
  {
  }

  /** `getEnglishTitle`: a missing title is {}; the first value is not type-checked. */
  function GetEnglishTitle(manga: Manga): (r: JsVal)
    ensures Truthy(r)
    ensures manga.attributes.title.None? ==> r == JsStr(TitleFallback)
    ensures manga.attributes.title.Some? ==> r == LocalizedText(manga.attributes.title.value, false, TitleFallback)
  {
    LocalizedText(OrEmpty(manga.attributes.title), false, TitleFallback)
  }

  /** `getEnglishDescription`: the same chain ending in "No description available". */
  function GetEnglishDescription(manga: Manga): (r: JsVal)
    ensures Truthy(r)
    ensures manga.attributes.description.None? ==> r == JsStr(DescriptionFallback)
    ensures manga.attributes.description.Some? ==> r == LocalizedText(manga.attributes.description.value, false, DescriptionFallback)
  {
    LocalizedText(OrEmpty(manga.attributes.description), false, DescriptionFallback)
  }
}
