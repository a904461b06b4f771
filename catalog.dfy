/**
 * Helpers shared, character for character, by the catalog service modules of
 * both application trees: image URL builders, the listing offset, the
 * chapter-feed filter, relationship lookups and the localized-text fallback
 * chain. The modules of the individual service files wrap these with their own
 * guards (or lack of guards).
 */
module Catalog {
  import opened Wrappers
  import opened Js
  import opened MangaTypes

  const UploadsHost := "uploads.mangadex.org"
  const CoversRoot := "https://" + UploadsHost + "/covers/"

  // ---------------------------------------------------------------- image URLs

  datatype CoverSize = Small | Medium | Large

  /** The size map: small is 256 pixels wide, medium 512, large 1024. */
  function SizeCode(size: CoverSize): string {
    match size
    case Small => "256"
    case Medium => "512"
    case Large => "1024"
  }

  /** `https://uploads.mangadex.org/covers/<mangaId>/<fileName>`. */
  function CoverBase(mangaId: string, fileName: string): string {
    CoversRoot + mangaId + "/" + fileName
  }

  /** `getCoverImageUrl`: the sized JPEG rendition of a cover. */
  function CoverImageUrl(mangaId: string, fileName: string, size: CoverSize := Medium): string {
    CoverBase(mangaId, fileName) + "." + SizeCode(size) + ".jpg"
  }

  /** The unsized renditions tried after the sized one, in order. */
  const FormatSuffixes: seq<string> := [".jpg", ".png", ".webp"]

  /** `getCoverImageUrlWithFallback`: the sized JPEG, then the unsized JPEG, PNG and WebP. */
  function CoverImageUrlWithFallback(mangaId: string, fileName: string, size: CoverSize := Medium): (r: seq<string>)
    ensures |r| == 4
    ensures r[0] == CoverImageUrl(mangaId, fileName, size)
    ensures forall k :: 1 <= k < 4 ==> r[k] == CoverBase(mangaId, fileName) + FormatSuffixes[k - 1]
  {
    var base := CoverBase(mangaId, fileName);
    [base + "." + SizeCode(size) + ".jpg", base + ".jpg", base + ".png", base + ".webp"]
  }

  /** The fallback renditions after the first do not depend on the requested size. */
  lemma FallbackTailIgnoresSize(mangaId: string, fileName: string, s1: CoverSize, s2: CoverSize)
    ensures CoverImageUrlWithFallback(mangaId, fileName, s1)[1..] == CoverImageUrlWithFallback(mangaId, fileName, s2)[1..]
  {
  }

  /** The three sizes give three different URLs. */
  lemma {:induction false} CoverSizesDistinct(mangaId: string, fileName: string, s1: CoverSize, s2: CoverSize)
    requires s1 != s2
    ensures CoverImageUrl(mangaId, fileName, s1) != CoverImageUrl(mangaId, fileName, s2)
  {
    var base := CoverBase(mangaId, fileName) + ".";
    var u1, u2 := CoverImageUrl(mangaId, fileName, s1), CoverImageUrl(mangaId, fileName, s2);
    assert u1 == base + (SizeCode(s1) + ".jpg");
    assert u2 == base + (SizeCode(s2) + ".jpg");
    // the three size codes already differ in their first digit
    assert u1[|base|] == SizeCode(s1)[0];
    assert u2[|base|] == SizeCode(s2)[0];
  }

  /** The characters of `s` before its first '/'. */
  function UpToSlash(s: string): (r: string)
    ensures r <= s
  {
    if |s| == 0 || s[0] == '/' then "" else [s[0]] + UpToSlash(s[1..])
  }

  /** The host part of an `https://` URL (what a URL parser reports as its hostname). */
  function HttpsHost(url: string): Option<string> {
    if "https://" <= url then Some(UpToSlash(url[8..])) else None
  }

  lemma {:induction false} UpToSlashStopsAtSlash(host: string, rest: string)
    requires forall i :: 0 <= i < |host| ==> host[i] != '/'
    ensures UpToSlash(host + "/" + rest) == host
  {
    if |host| > 0 {
      assert (host + "/" + rest)[1..] == host[1..] + "/" + rest;
      UpToSlashStopsAtSlash(host[1..], rest);
    } else {
      assert (host + "/" + rest)[0] == '/';
    }
  }

  lemma HostOfUploadsUrl(path: string)
    ensures HttpsHost("https://" + UploadsHost + "/" + path) == Some(UploadsHost)
  {
    var url := "https://" + UploadsHost + "/" + path;
    assert url[8..] == UploadsHost + "/" + path;
    UpToSlashStopsAtSlash(UploadsHost, path);
  }

  /** Whatever follows the cover base, the URL's host is the uploads host. */
  lemma CoverBaseOnUploadsHost(mangaId: string, fileName: string, tail: string)
    ensures HttpsHost(CoverBase(mangaId, fileName) + tail) == Some(UploadsHost)
  {
    var path := "covers/" + mangaId + "/" + fileName + tail;
    assert CoverBase(mangaId, fileName) + tail == "https://" + UploadsHost + "/" + path;
    HostOfUploadsUrl(path);
  }

  /**
   * Every cover URL the service builds, sized or fallback, points at the one
   * host the image proxy allows, whatever the manga id and file name contain.
   */
  lemma CoverUrlsOnUploadsHost(mangaId: string, fileName: string, size: CoverSize)
    ensures forall u :: u in CoverImageUrlWithFallback(mangaId, fileName, size) ==> HttpsHost(u) == Some(UploadsHost)
  {
    var urls := CoverImageUrlWithFallback(mangaId, fileName, size);
    assert urls[0] == CoverBase(mangaId, fileName) + ("." + SizeCode(size) + ".jpg");
    CoverBaseOnUploadsHost(mangaId, fileName, "." + SizeCode(size) + ".jpg");
    forall k | 1 <= k < 4 ensures HttpsHost(urls[k]) == Some(UploadsHost) {
      CoverBaseOnUploadsHost(mangaId, fileName, FormatSuffixes[k - 1]);
    }
  }

  function Quality(dataSaver: bool): string {
    if dataSaver then "data-saver" else "data"
  }

  /** `getChapterPageUrl`: `<baseUrl>/<data|data-saver>/<chapterHash>/<fileName>`. */
  function ChapterPageUrl(baseUrl: string, chapterHash: string, fileName: string, dataSaver: bool := false): string {
    baseUrl + "/" + Quality(dataSaver) + "/" + chapterHash + "/" + fileName
  }

  lemma CancelPrefix(p: string, a: string, b: string)
    requires p + a == p + b
    ensures a == b
  {
    assert a == (p + a)[|p|..];
    assert b == (p + b)[|p|..];
  }

  /** A page URL read as server prefix, quality prefix, hash prefix and file name. */
  lemma ChapterPageUrlParts(baseUrl: string, hash: string, f: string, d: bool)
    ensures ChapterPageUrl(baseUrl, hash, f, d) == (baseUrl + "/") + ((Quality(d) + "/") + ((hash + "/") + f))
  {
  }

  /** "data/" and "data-saver/" part at their fifth character. */
  lemma QualityDetermined(d1: bool, d2: bool, r1: string, r2: string)
    requires Quality(d1) + "/" + r1 == Quality(d2) + "/" + r2
    ensures d1 == d2
  {
    assert (Quality(d1) + "/" + r1)[4] == (if d1 then '-' else '/');
    assert (Quality(d2) + "/" + r2)[4] == (if d2 then '-' else '/');
  }

  /**
   * For one server and chapter, different page files or qualities never
   * share a URL.
   */
  lemma {:induction false} ChapterPageUrlInjective(baseUrl: string, hash: string, f1: string, f2: string, d1: bool, d2: bool)
    requires ChapterPageUrl(baseUrl, hash, f1, d1) == ChapterPageUrl(baseUrl, hash, f2, d2)
    ensures f1 == f2 && d1 == d2
  {
    var r1, r2 := hash + "/" + f1, hash + "/" + f2;
    var t1, t2 := Quality(d1) + "/" + r1, Quality(d2) + "/" + r2;
    ChapterPageUrlParts(baseUrl, hash, f1, d1);
    ChapterPageUrlParts(baseUrl, hash, f2, d2);
    CancelPrefix(baseUrl + "/", t1, t2);
    QualityDetermined(d1, d2, r1, r2);
    CancelPrefix(Quality(d1) + "/", r1, r2);
    CancelPrefix(hash + "/", f1, f2);
  }

  // ------------------------------------------------------------------ listing

  /** The offset of a listing page: `(page - 1) * limit`. */
  function Offset(page: int, limit: int): int {
    (page - 1) * limit
  }

  lemma MulLeq(a: int, b: int, c: int)
    requires a <= b && c > 0
    ensures a * c <= b * c
  {
  }

  /**
   * With a positive limit, pages 1, 2, ... tile the result list: item `i` lies
   * on page `i / limit + 1` and on no other page.
   */
  lemma {:induction false} ItemOnExactlyOnePage(i: nat, limit: int, page: int)
    requires limit > 0 && page >= 1
    ensures Offset(page, limit) <= i < Offset(page, limit) + limit <==> page == i / limit + 1
  {
    var q := i / limit;
    assert i == q * limit + i % limit && 0 <= i % limit < limit;
    assert Offset(page, limit) + limit == page * limit;
    if page - 1 < q {
      MulLeq(page, q, limit);
    } else if page - 1 > q {
      MulLeq(q + 1, page - 1, limit);
    }
  }

  /** Page 1 starts at the first result; each page starts `limit` after the previous one. */
  lemma OffsetsStep(page: int, limit: int)
    ensures Offset(1, limit) == 0
    ensures Offset(page + 1, limit) == Offset(page, limit) + limit
  {
  }

  // ------------------------------------------------------------- chapter feed

  /** A chapter the reader can open: it has pages and is not hosted elsewhere. */
  predicate Readable(c: Chapter) {
    c.pages > 0 && !Filled(c.externalUrl)
  }

  /** The chapter-feed filter `pages > 0 && !externalUrl`. */
  function ReadableChapters(cs: seq<Chapter>): (r: seq<Chapter>)
    ensures |r| <= |cs|
    ensures forall c :: c in r <==> c in cs && Readable(c)
  {
    if |cs| == 0 then []
    else (if Readable(cs[0]) then [cs[0]] else []) + ReadableChapters(cs[1..])
  }

  /** The filter works chapter by chapter, so it keeps the feed's order. */
  lemma {:induction false} ReadableChaptersAppend(a: seq<Chapter>, b: seq<Chapter>)
    ensures ReadableChapters(a + b) == ReadableChapters(a) + ReadableChapters(b)
  {
    if |a| == 0 {
      assert a + b == b;
    } else {
      assert (a + b)[1..] == a[1..] + b;
      ReadableChaptersAppend(a[1..], b);
    }
  }

  /** Filtering an already filtered feed changes nothing. */
  lemma {:induction false} ReadableChaptersIdempotent(cs: seq<Chapter>)
    ensures ReadableChapters(ReadableChapters(cs)) == ReadableChapters(cs)
  {
    if |cs| > 0 {
      var head := if Readable(cs[0]) then [cs[0]] else [];
      ReadableChaptersAppend(head, ReadableChapters(cs[1..]));
      ReadableChaptersIdempotent(cs[1..]);
    }
  }

  // ------------------------------------------------------------ relationships

  /** `relationships.filter(type === kind).map(attributes?.name).filter(Boolean)`. */
  function NamesOfKind(rels: seq<Relationship>, kind: string): (r: seq<string>)
    ensures |r| <= |rels|
    ensures forall s :: s in r ==> s != ""
    ensures forall s :: s in r ==> exists rel :: rel in rels && rel.kind == kind && rel.name == Some(s)
    ensures forall rel :: rel in rels && rel.kind == kind && Filled(rel.name) ==> rel.name.value in r
  {
    if |rels| == 0 then []
    else
      var rel := rels[0];
      (if rel.kind == kind && Filled(rel.name) then [rel.name.value] else []) + NamesOfKind(rels[1..], kind)
  }

  /** Names come out in relationship order. */
  lemma {:induction false} NamesOfKindAppend(a: seq<Relationship>, b: seq<Relationship>, kind: string)
    ensures NamesOfKind(a + b, kind) == NamesOfKind(a, kind) + NamesOfKind(b, kind)
  {
    if |a| == 0 {
      assert a + b == b;
    } else {
      assert (a + b)[1..] == a[1..] + b;
      NamesOfKindAppend(a[1..], b, kind);
    }
  }

  /** The position of the first relationship of a kind (`find`), `|rels|` if there is none. */
  function FirstIndexOfKind(rels: seq<Relationship>, kind: string): (i: nat)
    ensures i <= |rels|
    ensures i < |rels| ==> rels[i].kind == kind
    ensures forall j :: 0 <= j < i ==> rels[j].kind != kind
  {
    if |rels| == 0 then 0
    else if rels[0].kind == kind then 0
    else 1 + FirstIndexOfKind(rels[1..], kind)
  }

  /** `relationships.find(rel => rel.type === kind)`. */
  function FirstOfKind(rels: seq<Relationship>, kind: string): Option<Relationship> {
    var i := FirstIndexOfKind(rels, kind);
    if i < |rels| then Some(rels[i]) else None
  }

  /**
   * `getCoverArt` on an array of relationships: the medium cover URL of the
   * FIRST cover_art relationship when it carries a file name; null otherwise,
   * even when a later cover_art relationship has one.
   */
  function CoverArtFrom(mangaId: string, rels: seq<Relationship>): (r: Option<string>)
    ensures r.Some? <==> exists i :: 0 <= i < |rels| && rels[i].kind == "cover_art" && Filled(rels[i].fileName)
                                   && forall j :: 0 <= j < i ==> rels[j].kind != "cover_art"
    ensures r.Some? ==> HttpsHost(r.value) == Some(UploadsHost)
  {
    var i := FirstIndexOfKind(rels, "cover_art");
    if i < |rels| && Filled(rels[i].fileName) then
      CoverUrlsOnUploadsHost(mangaId, rels[i].fileName.value, Medium);
      assert CoverImageUrl(mangaId, rels[i].fileName.value) in CoverImageUrlWithFallback(mangaId, rels[i].fileName.value, Medium);
      Some(CoverImageUrl(mangaId, rels[i].fileName.value))
    else
      None
  }

  // ------------------------------------------------------- localized fallback

  /** `manga?.attributes?.title || {}`: a missing localized object reads as {}. */
  function OrEmpty(obj: Option<Dict>): Dict {
    if obj.Some? then obj.value else []
  }

  const TitleFallback := "Unknown Title"
  const DescriptionFallback := "No description available"

  /** `c0 || c1 || ... || last`: the first truthy candidate, else `last`. */
  function FirstTruthy(cands: seq<JsVal>, last: JsVal): (r: JsVal)
    ensures (exists i :: 0 <= i < |cands| && Truthy(cands[i]))
            ==> exists i :: 0 <= i < |cands| && r == cands[i] && Truthy(r) && forall j :: 0 <= j < i ==> !Truthy(cands[j])
    ensures (forall i :: 0 <= i < |cands| ==> !Truthy(cands[i])) ==> r == last
  {
    if |cands| == 0 then last else Or(cands[0], FirstTruthy(cands[1..], last))
  }

  /**
   * The title/description chain: `en`, then `ja-ro`, then `ja`, then the first
   * value of the object (only when it is a string, if `firstMustBeString`),
   * then the fixed fallback.
   */
  function LocalizedText(obj: Dict, firstMustBeString: bool, fallback: string): (r: JsVal)
    requires fallback != ""
    ensures Truthy(r)
    ensures Truthy(Get(obj, "en")) ==> r == Get(obj, "en")
    ensures !Truthy(Get(obj, "en")) && Truthy(Get(obj, "ja-ro")) ==> r == Get(obj, "ja-ro")
    ensures !Truthy(Get(obj, "en")) && !Truthy(Get(obj, "ja-ro")) && Truthy(Get(obj, "ja")) ==> r == Get(obj, "ja")
    ensures !Truthy(Get(obj, "en")) && !Truthy(Get(obj, "ja-ro")) && !Truthy(Get(obj, "ja")) ==>
              r == (if Truthy(FirstValue(obj)) && (!firstMustBeString || FirstValue(obj).JsStr?)
                    then FirstValue(obj) else JsStr(fallback))
    ensures r == JsStr(fallback) || exists i :: 0 <= i < |obj| && obj[i].1 == r
  {
    var first := FirstValue(obj);
    var last := if !firstMustBeString || first.JsStr? then first else JsStr("");
    var cands := [Get(obj, "en"), Get(obj, "ja-ro"), Get(obj, "ja"), last];
    GetIsAValue(obj, "en");
    GetIsAValue(obj, "ja-ro");
    GetIsAValue(obj, "ja");
    // unfold the chain one candidate at a time
    var fb := JsStr(fallback);
    assert [last][1..] == [];
    assert FirstTruthy([last], fb) == Or(last, fb);
    assert [Get(obj, "ja"), last][1..] == [last];
    assert FirstTruthy([Get(obj, "ja"), last], fb) == Or(Get(obj, "ja"), Or(last, fb));
    assert cands[1..][1..] == [Get(obj, "ja"), last];
    assert FirstTruthy(cands[1..], fb) == Or(Get(obj, "ja-ro"), Or(Get(obj, "ja"), Or(last, fb)));
    FirstTruthy(cands, JsStr(fallback))
  }
  /**
   * The string check on the first value (legacy `mangadex.ts`) and its
   * absence (`mangadx.ts`, Next.js) pick the same text unless the chain
   * reaches a truthy first value that is not a string.
   */
  lemma StringCheckMattersOnlyForNonStrings(obj: Dict, fallback: string)
    requires fallback != ""
    ensures LocalizedText(obj, true, fallback) != LocalizedText(obj, false, fallback) <==>
              !Truthy(Get(obj, "en")) && !Truthy(Get(obj, "ja-ro")) && !Truthy(Get(obj, "ja"))
              && Truthy(FirstValue(obj)) && !FirstValue(obj).JsStr?
  {
  }


  lemma {:induction false} GetIsAValue(obj: Dict, key: string)
    ensures Get(obj, key) == JsUndefined || exists i :: 0 <= i < |obj| && obj[i] == (key, Get(obj, key))
  {
    if |obj| > 0 && obj[0].0 != key {
      GetIsAValue(obj[1..], key);
      if Get(obj, key) != JsUndefined {
        var i :| 0 <= i < |obj[1..]| && obj[1..][i] == (key, Get(obj, key));
        assert obj[i + 1] == (key, Get(obj, key));
      }
    }
  }

  // --------------------------------------------- guarded relationship helpers

  /**
   * `getCoverArt` with the `Array.isArray(manga.relationships)` guard: null
   * when relationships is not an array, otherwise as `CoverArtFrom`.
   */
  function GuardedCoverArt(manga: Manga): (r: Option<string>)
    ensures manga.relationships.NotArray? ==> r == None
    ensures manga.relationships.Arr? ==> r == CoverArtFrom(manga.id, manga.relationships.items)
  {
    match manga.relationships
    case Arr(rels) => CoverArtFrom(manga.id, rels)
    case NotArray => None
  }

  /**
   * `getAuthors`/`getArtists` with the array guard: the non-empty names of the
   * relationships of that kind, in order; [] when relationships is not an array.
   */
  function GuardedNames(manga: Manga, kind: string): (r: seq<string>)
    ensures manga.relationships.NotArray? ==> r == []
    ensures forall s :: s in r ==> s != ""
    ensures manga.relationships.Arr? ==> r == NamesOfKind(manga.relationships.items, kind)
  {
    match manga.relationships
    case Arr(rels) => NamesOfKind(rels, kind)
    case NotArray => []
  }
}
