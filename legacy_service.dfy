/**
 * The legacy tree's defensive catalog service (manga-reader/src/services/mangadex.ts):
 * response bodies are checked with `ensureObject`/`ensureArray`, every
 * failure inside a method is replaced by that method's own fixed message,
 * and the paginated listings overwrite `data` in place.
 */
module LegacyService {
  import opened Wrappers
  import opened Js
  import opened MangaTypes
  import opened Catalog

  /** `ensureArray(value, fallback = [])`: the value itself when it is an array, else the fallback. */
  function EnsureArray<T>(value: Loose<T>, fallback: seq<T> := []): (r: seq<T>)
    ensures value.Arr? ==> r == value.items
    ensures value.NotArray? ==> r == fallback
  {
    match value
    case Arr(items) => items
    case NotArray => fallback
  }

  /** `ensureObject(value, errorMessage)`: any object passes unchanged, anything else throws. */
  function EnsureObject<T>(value: Payload<T>, errorMessage: string): (r: Result<T, string>)
    ensures value.Object? <==> r.Success?
    ensures value.Object? ==> r.value == value.value
    ensures value.NotObject? ==> r.error == errorMessage
  {
    match value
    case Object(v) => Success(v)
    case NotObject => Failure(errorMessage)
  }

  /** A response body held as an object reference: null stands for a non-object. */
  function AsPayload(body: MangaResponse?): Payload<MangaResponse> {
    if body == null then NotObject else Object(body)
  }

  /**
   * `getPopularManga`, `getRecentlyUpdatedManga`, `searchManga`: the listing's
   * `data` when it is an array, [] when it is not, and the method's own
   * message (not ensureObject's) when the body is not an object.
   */
  function ListManga(body: MangaResponse?, failure: string): (r: Result<seq<Manga>, string>)
    reads body
    ensures body == null <==> r == Failure(failure)
    ensures body != null && body.data.Arr? ==> r == Success(body.data.items)
    ensures body != null && body.data.NotArray? ==> r == Success([])
  {
    match EnsureObject(AsPayload(body), "Invalid response")
    case Failure(_) => Failure(failure)
    case Success(safe) => Success(EnsureArray(safe.data))
  }

  /**
   * `getNewestManga`, `getUpdatedManga`, `getPopularMangaPaginated`: request
   * page `page` at `(page - 1) * limit`, then normalise the listing's `data`
   * to an array in place and return the same object.
   */
  method GetPaginatedManga(page: int, limit: int, body: MangaResponse?, failure: string)
    returns (offset: int, r: Result<MangaResponse, string>)
    modifies body
    ensures offset == Offset(page, limit)
    ensures body == null ==> r == Failure(failure)
    ensures body != null ==> r == Success(body) && body.data == Arr(EnsureArray(old(body.data)))
  {
    offset := (page - 1) * limit;
    match EnsureObject(AsPayload(body), "Invalid response") {
      case Failure(_) =>
        r := Failure(failure);
      case Success(safe) =>
        safe.data := Arr(EnsureArray(safe.data));
        r := Success(safe);
    }
  }

  const ChaptersFailure := "Failed to fetch manga chapters"

  /**
   * `getMangaChapters`: the feed with `data` replaced by its readable chapters
   * (pages > 0, no external URL) in order, every other field copied.
   */
  function GetMangaChapters(body: Payload<ChapterResponse>): (r: Result<ChapterResponse, string>)
    ensures body.NotObject? ==> r == Failure(ChaptersFailure)
    ensures body.Object? ==> r.Success? && r.value.data.Arr?
    ensures body.Object? ==> r.value == body.value.(data := r.value.data)
    ensures body.Object? ==> r.value.data == Arr(ReadableChapters(EnsureArray(body.value.data)))
  {
    match EnsureObject(body, "Invalid response for manga chapters")
    case Failure(_) => Failure(ChaptersFailure)
    case Success(safe) => Success(safe.(data := Arr(ReadableChapters(EnsureArray(safe.data)))))
  }

  /**
   * `getEnglishTitle`: en, ja-ro, ja, the first value only if it is a string,
   * then "Unknown Title"; a missing title object counts as {}.
   */
  function GetEnglishTitle(manga: Manga): (r: JsVal)
    ensures Truthy(r)
    ensures manga.attributes.title.None? ==> r == JsStr(TitleFallback)
    ensures manga.attributes.title.Some? ==> r == LocalizedText(manga.attributes.title.value, true, TitleFallback)
  {
    LocalizedText(OrEmpty(manga.attributes.title), true, TitleFallback)
  }

  /** `getEnglishDescription`: the same chain ending in "No description available". */
  function GetEnglishDescription(manga: Manga): (r: JsVal)
    ensures Truthy(r)
    ensures manga.attributes.description.None? ==> r == JsStr(DescriptionFallback)
    ensures manga.attributes.description.Some? ==> r == LocalizedText(manga.attributes.description.value, true, DescriptionFallback)
  {
    LocalizedText(OrEmpty(manga.attributes.description), true, DescriptionFallback)
  }

  /** A value that can only end the chain as text: a string, or falsy. */
  predicate TextOrFalsy(v: JsVal) {
    v.JsStr? || !Truthy(v)
  }

  /**
   * Because the first value is type-checked, the legacy chain yields a
   * non-empty string whenever the en, ja-ro and ja entries are strings or
   * absent, whatever else the object holds.
   */
  lemma {:induction false} LocalizedTextIsText(obj: Dict, fallback: string)
    requires fallback != ""
    requires TextOrFalsy(Get(obj, "en")) && TextOrFalsy(Get(obj, "ja-ro")) && TextOrFalsy(Get(obj, "ja"))
    ensures LocalizedText(obj, true, fallback).JsStr?
    ensures LocalizedText(obj, true, fallback).s != ""
  {
    var first := FirstValue(obj);
    var last := if first.JsStr? then first else JsStr("");
    var cands := [Get(obj, "en"), Get(obj, "ja-ro"), Get(obj, "ja"), last];
    assert forall i :: 0 <= i < |cands| ==> TextOrFalsy(cands[i]);
    var r := FirstTruthy(cands, JsStr(fallback));
    assert r == LocalizedText(obj, true, fallback);
  }
}
