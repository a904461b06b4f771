/**
 * What the manga cards derive from a manga for display
 * (manga-reader/src/components/MangaCard.tsx,
 * manga-reader-next/src/components/MangaCard.tsx,
 * manga-reader/src/components/MangaCardCarousel.tsx and
 * manga-reader/src/components/MangaListItem.tsx): the truncated description,
 * the cover image and its fallbacks, the tag strip, the author line, the
 * status badge and the year.
 */
module Cards {
  import opened Wrappers
  import opened Js
  import opened MangaTypes
  import opened Catalog
  import SmartImage

  function Min(a: int, b: int): int { if a <= b then a else b }

  // ------------------------------------------------------------ descriptions

  const CardDescriptionLimit := 150
  const CarouselDescriptionLimit := 100
  const ListDescriptionLimit := 200

  /** `s.length > limit ? s.substring(0, limit) + "..." : s`. */
  function Truncate(s: string, limit: nat): (r: string)
    ensures |s| <= limit ==> r == s
    ensures |s| > limit ==> |r| == limit + 3 && r[..limit] == s[..limit] && r[limit..] == "..."
    ensures |r| <= limit + 3
  {
    if |s| > limit then s[..limit] + "..." else s
  }

  /** Truncating an already truncated description changes nothing. */
  lemma TruncateIdempotent(s: string, limit: nat)
    ensures Truncate(Truncate(s, limit), limit) == Truncate(s, limit)
  {
    if |s| > limit {
      var t := Truncate(s, limit);
      assert t[..limit] == s[..limit];
    }
  }

  /** A longer limit keeps at least as much of the text. */
  lemma {:induction false} LongerLimitKeepsMore(s: string, short: nat, long: nat)
    requires short <= long && |s| >= short
    ensures Truncate(s, short)[..short] == Truncate(s, long)[..short]
  {
    if |s| > long {
      assert Truncate(s, long)[..long][..short] == s[..short];
    }
  }

  // ------------------------------------------------------------------- cover

  /** The file name of the first cover_art relationship, when it has a non-empty one. */
  function CoverFileName(manga: Manga): (r: Option<string>)
    ensures r.Some? ==> r.value != ""
  {
    match manga.relationships
    case NotArray => None
    case Arr(rels) =>
      var rel := FirstOfKind(rels, "cover_art");
      if rel.Some? && Filled(rel.value.fileName) then rel.value.fileName else None
  }

  /** `getCoverArt` is the medium cover URL of exactly that file. */
  lemma CoverArtOfCoverFile(manga: Manga)
    ensures GuardedCoverArt(manga) == if CoverFileName(manga).Some? then Some(CoverImageUrl(manga.id, CoverFileName(manga).value)) else None
  {
  }

  /**
   * `fallbackUrls.slice(1)`: the fallback list for the first cover file
   * without its sized entry, or [] without a cover file. The older MangaCard
   * calls `relationships.find` without a guard and throws when
   * relationships is not an array.
   */
  function CoverFallbacks(manga: Manga, size: CoverSize, guarded: bool): (r: Result<seq<string>, string>)
    ensures r.Failure? <==> !guarded && manga.relationships.NotArray?
    ensures r.Success? && CoverFileName(manga).None? ==> r.value == []
    ensures r.Success? && CoverFileName(manga).Some? ==>
              |r.value| == 3
              && forall k :: 0 <= k < 3 ==> r.value[k] == CoverBase(manga.id, CoverFileName(manga).value) + FormatSuffixes[k]
  {
    if !guarded && manga.relationships.NotArray? then Failure("TypeError")
    else match CoverFileName(manga)
      case None => Success([])
      case Some(f) => Success(CoverImageUrlWithFallback(manga.id, f, size)[1..])
  }

  /**
   * The card image tries the medium cover URL and then the three fallbacks:
   * together exactly the medium fallback list, whatever size the card asked
   * the fallbacks in.
   */
  lemma {:induction false} CardTriesWholeFallbackList(manga: Manga, size: CoverSize, guarded: bool)
    requires CoverFileName(manga).Some? && CoverFallbacks(manga, size, guarded).Success?
    ensures [GuardedCoverArt(manga).value] + CoverFallbacks(manga, size, guarded).value
            == CoverImageUrlWithFallback(manga.id, CoverFileName(manga).value, Medium)
  {
    var f := CoverFileName(manga).value;
    FallbackTailIgnoresSize(manga.id, f, size, Medium);
    var full := CoverImageUrlWithFallback(manga.id, f, Medium);
    assert full == [full[0]] + full[1..];
  }

  /**
   * After k load errors (1 <= k <= 3) the card shows entry k of the medium
   * fallback list, and after the fourth it shows the placeholder.
   */
  lemma {:induction false} CardImageAfterErrors(manga: Manga, size: CoverSize, guarded: bool, placeholder: string, k: nat)
    requires CoverFileName(manga).Some? && CoverFallbacks(manga, size, guarded).Success?
    ensures var fallbacks := CoverFallbacks(manga, size, guarded).value;
            var full := CoverImageUrlWithFallback(manga.id, CoverFileName(manga).value, Medium);
            var state := SmartImage.AfterErrors(GuardedCoverArt(manga), fallbacks, placeholder, k);
            (k < 4 ==> state.currentSrc == Some(full[k]))
            && (k >= 4 ==> state.currentSrc == Some(placeholder) && state.hasError)
  {
    var fallbacks := CoverFallbacks(manga, size, guarded).value;
    CardTriesWholeFallbackList(manga, size, guarded);
    if 1 <= k <= 3 {
      SmartImage.FallbacksInOrder(GuardedCoverArt(manga), fallbacks, placeholder, k);
    } else if k >= 4 {
      SmartImage.PlaceholderAfterExhaustion(GuardedCoverArt(manga), fallbacks, placeholder, k);
    }
  }

  // -------------------------------------------------------------------- tags

  const CardTagLimit := 3
  const CarouselTagLimit := 2
  const ListTagLimit := 4

  /** `tag.attributes.name.en || Object.values(tag.attributes.name)[0]`. */
  function TagLabel(tag: Tag): (r: JsVal)
    ensures Truthy(Get(tag.name, "en")) ==> r == Get(tag.name, "en")
    ensures !Truthy(Get(tag.name, "en")) ==> r == FirstValue(tag.name)
  {
    Or(Get(tag.name, "en"), FirstValue(tag.name))
  }

  /** The labels shown and the "+n" badge, if any. */
  datatype TagStrip = TagStrip(labels: seq<JsVal>, overflow: Option<int>)

  /** The first `limit` tags as labels, and a badge counting the rest when there is a rest. */
  function Strip(tags: seq<Tag>, limit: nat): (r: TagStrip)
    ensures |r.labels| == Min(limit, |tags|)
    ensures forall i :: 0 <= i < |r.labels| ==> r.labels[i] == TagLabel(tags[i])
    ensures r.overflow.Some? <==> |tags| > limit
    ensures r.overflow.Some? ==> r.overflow.value > 0 && |r.labels| + r.overflow.value == |tags|
  {
    var shown := Min(limit, |tags|);
    TagStrip(seq(shown, i requires 0 <= i < shown => TagLabel(tags[i])),
             if |tags| > limit then Some(|tags| - limit) else None)
  }

  /**
   * The tag area of a card. The Next.js MangaCard and the carousel card check
   * `Array.isArray(tags)` and show nothing otherwise; the older MangaCard and
   * the list item call `slice` unguarded and throw.
   */
  function TagArea(tags: Loose<Tag>, limit: nat, guarded: bool): (r: Result<TagStrip, string>)
    ensures r.Failure? <==> !guarded && tags.NotArray?
    ensures guarded && tags.NotArray? ==> r == Success(TagStrip([], None))
    ensures tags.Arr? ==> r == Success(Strip(tags.items, limit))
  {
    match tags
    case Arr(items) => Success(Strip(items, limit))
    case NotArray => if guarded then Success(TagStrip([], None)) else Failure("TypeError")
  }

  /** Every tag is either labelled or counted in the badge, never both. */
  lemma StripAccountsForEveryTag(tags: seq<Tag>, limit: nat)
    ensures |Strip(tags, limit).labels| + (if Strip(tags, limit).overflow.Some? then Strip(tags, limit).overflow.value else 0) == |tags|
  {
  }

  // ----------------------------------------------------------------- authors

  /** MangaCard: "by " and the names joined with ", ", shown only when there is a name. */
  function ByLine(authors: seq<string>): (r: Option<string>)
    ensures r.Some? <==> |authors| > 0
    ensures r.Some? ==> r.value == "by " + Join(authors, ", ")
  {
    if |authors| > 0 then Some("by " + Join(authors, ", ")) else None
  }

  /** MangaListItem: the names joined with ", ", shown only when there is a name. */
  function AuthorsLine(authors: seq<string>): (r: Option<string>)
    ensures r.Some? <==> |authors| > 0
    ensures r.Some? ==> r.value == Join(authors, ", ")
  {
    if |authors| > 0 then Some(Join(authors, ", ")) else None
  }

  /** MangaCardCarousel: the first name, followed by " +(n - 1)" when there are more. */
  function AuthorSummary(authors: seq<string>): (r: Option<string>)
    ensures r.Some? <==> |authors| > 0
    ensures |authors| == 1 ==> r == Some(authors[0])
    ensures |authors| > 1 ==> r == Some(authors[0] + " +" + NatToString(|authors| - 1))
  {
    if |authors| == 0 then None
    else if |authors| == 1 then Some(authors[0])
    else Some(authors[0] + " +" + NatToString(|authors| - 1))
  }

  /** With one author the three author displays show the same name. */
  lemma {:induction false} SingleAuthorShownAlike(name: string)
    ensures AuthorsLine([name]) == AuthorSummary([name]) == Some(name)
    ensures ByLine([name]) == Some("by " + name)
  {
    assert Join([name], ", ") == name;
  }

  /** A joined list of non-empty names is non-empty, so a shown line is never blank. */
  lemma {:induction false} JoinedNamesNonEmpty(authors: seq<string>)
    requires |authors| > 0 && forall s :: s in authors ==> s != ""
    ensures Join(authors, ", ") != ""
  {
    assert authors[0] in authors;
    if |authors| > 1 {
      assert Join(authors, ", ") == authors[0] + ", " + Join(authors[1..], ", ");
    }
  }

  // ------------------------------------------------------------ status, year

  datatype StatusColor = Green | Blue | Gray

  /** The badge colour: green for completed, blue for ongoing, gray for anything else. */
  function StatusColorOf(status: string): (c: StatusColor)
    ensures c == Green <==> status == "completed"
    ensures c == Blue <==> status == "ongoing"
  {
    if status == "completed" then Green
    else if status == "ongoing" then Blue
    else Gray
  }

  /**
   * `status.charAt(0).toUpperCase() + status.slice(1)`, with the upper-casing
   * of one character as a parameter.
   */
  function StatusLabel(status: string, upper: char -> char): (r: string)
    ensures |r| == |status|
    ensures |status| > 0 ==> r[0] == upper(status[0]) && r[1..] == status[1..]
  {
    if |status| == 0 then "" else [upper(status[0])] + status[1..]
  }

  /** Labelling an already labelled status again changes nothing when upper-casing is idempotent. */
  lemma StatusLabelStable(status: string, upper: char -> char)
    requires forall c :: upper(upper(c)) == upper(c)
    ensures StatusLabel(StatusLabel(status, upper), upper) == StatusLabel(status, upper)
  {
    if |status| > 0 {
      assert StatusLabel(status, upper)[0] == upper(status[0]);
    }
  }

  /**
   * `{year && <badge/>}`: a missing year renders nothing, a non-zero year a
   * badge, and a year of 0 renders as the bare text "0".
   */
  datatype YearView = NoYear | YearBadge(year: int) | BareZero

  function YearDisplay(year: Option<int>): (r: YearView)
    ensures r.YearBadge? <==> year.Some? && year.value != 0
    ensures r.YearBadge? ==> r.year == year.value
    ensures r.BareZero? <==> year == Some(0)
  {
    match year
    case None => NoYear
    case Some(y) => if y == 0 then BareZero else YearBadge(y)
  }
}
