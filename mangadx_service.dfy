/**
 * The unguarded catalog service of the legacy tree
 * (manga-reader/src/services/mangadx.ts); the enhanced variant
 * (manga-reader/src/services/mangadx-enhanced.ts) carries the same helpers
 * character for character. Response fields are read without checks, so a
 * missing object or a non-array throws a TypeError: inside a fetch method the
 * error is replaced by the method's message, inside a helper it reaches the
 * caller.
 */
module MangadxService {
  import opened Wrappers
  import opened Js
  import opened MangaTypes
  import opened Catalog

  /** What an unguarded property or method access on `undefined` throws. */
  const TypeError := "TypeError"
  const ChaptersFailure := "Failed to fetch manga chapters"

  /**
   * `getMangaChapters`: the readable chapters in order, other fields copied;
   * a body that is not an object or a `data` that is not an array makes the
   * `.filter` call throw, reported as the method's fixed message.
   */
  function GetMangaChapters(body: Payload<ChapterResponse>): (r: Result<ChapterResponse, string>)
    ensures r.Failure? <==> body.NotObject? || body.value.data.NotArray?
    ensures r.Failure? ==> r.error == ChaptersFailure
    ensures r.Success? ==> r.value == body.value.(data := Arr(ReadableChapters(body.value.data.items)))
  {
    if body.NotObject? || body.value.data.NotArray? then Failure(ChaptersFailure)
    else Success(body.value.(data := Arr(ReadableChapters(body.value.data.items))))
  }

  /**
   * `getEnglishTitle`: en, ja-ro, ja, then the first value of whatever type,
   * then "Unknown Title"; a missing title object throws.
   */
  function GetEnglishTitle(manga: Manga): (r: Result<JsVal, string>)
    ensures r.Failure? <==> manga.attributes.title.None?
    ensures r.Success? ==> Truthy(r.value)
    ensures r.Success? ==> r.value == LocalizedText(manga.attributes.title.value, false, TitleFallback)
  {
    match manga.attributes.title
    case None => Failure(TypeError)
    case Some(obj) => Success(LocalizedText(obj, false, TitleFallback))
  }

  /** `getEnglishDescription`: the same chain ending in "No description available". */
  function GetEnglishDescription(manga: Manga): (r: Result<JsVal, string>)
    ensures r.Failure? <==> manga.attributes.description.None?
    ensures r.Success? ==> Truthy(r.value)
    ensures r.Success? ==> r.value == LocalizedText(manga.attributes.description.value, false, DescriptionFallback)
  {
    match manga.attributes.description
    case None => Failure(TypeError)
    case Some(obj) => Success(LocalizedText(obj, false, DescriptionFallback))
  }

  /**
   * Without the type check, a truthy non-string first value ends the chain,
   * where the legacy mangadex.ts helper would fall through to the default.
   */
  lemma NonStringFirstValueIsReturned()
    ensures var obj := [("ko", JsNum(7))];
            LocalizedText(obj, false, TitleFallback) == JsNum(7)
            && LocalizedText(obj, true, TitleFallback) == JsStr(TitleFallback)
  {
    var obj := [("ko", JsNum(7))];
    assert obj[1..] == [];
    assert Get(obj, "en") == Get(obj, "ja-ro") == Get(obj, "ja") == JsUndefined;
    var u := JsUndefined;
    var cands := [u, u, u, JsNum(7)];
    assert Truthy(cands[3]);
    assert FirstTruthy(cands, JsStr(TitleFallback)) == JsNum(7);
    assert FirstTruthy([u, u, u, JsStr("")], JsStr(TitleFallback)) == JsStr(TitleFallback);
  }

  /** `getCoverArt`: throws when relationships is not an array. */
  function GetCoverArt(manga: Manga): (r: Result<Option<string>, string>)
    ensures r.Failure? <==> manga.relationships.NotArray?
    ensures r.Success? ==> r.value == GuardedCoverArt(manga)
  {
    match manga.relationships
    case NotArray => Failure(TypeError)
    case Arr(rels) => Success(CoverArtFrom(manga.id, rels))
  }

  /** `getAuthors`/`getArtists`: throws when relationships is not an array. */
  function GetNames(manga: Manga, kind: string): (r: Result<seq<string>, string>)
    ensures r.Failure? <==> manga.relationships.NotArray?
    ensures r.Success? ==> r.value == GuardedNames(manga, kind)
  {
    match manga.relationships
    case NotArray => Failure(TypeError)
    case Arr(rels) => Success(NamesOfKind(rels, kind))
  }
}
