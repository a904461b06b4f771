# Read-only manga client, modelled in Dafny

Read-only-manga is a browser client for the MangaDex catalog. It has two front
ends that share most of their logic. The older one is a React single-page app
under `manga-reader/`. The newer one is a Next.js app under `manga-reader-next/`,
which adds an image proxy endpoint. This project models the decision logic of
both trees and proves properties about it:

- **Catalog services.** These cover the shape guards on API responses, the
  chapter-feed filter and the pagination offsets. They also cover the
  cover-image and chapter-page URL builders, the localized title and
  description fallback chains, and author/artist extraction. There are four
  service modules: the defensive legacy `mangadex.ts`, the unguarded
  `mangadx.ts`, the enhanced `mangadx-enhanced.ts` with its CORS-proxy retry
  path, and the Next.js `mangadex.ts`. The helpers they share are defined
  once, in `Catalog`. The variants differ in what they guard and what they
  throw; each module keeps its own behaviour.
- **Image proxy.** `/api/image-proxy` accepts a URL only when it is present,
  parses, and names the uploads host. It fetches the image with a fixed
  Referer and relays it with long CDN caching. The model has a pure
  specification (`ImageProxy.Handle`) and an imperative handler over a mutable
  response object, proved equal to that specification.
- **UI state machines.** These are the pagination window, the carousel index,
  the chapter reader (page turning, keys, zoom, fit and help) and the image
  component with format fallbacks. Each is a class whose methods update its
  fields. Each method is specified by a pure step function, and lemmas show
  that the invariants survive any sequence of user actions.
- **Card derivations.** These are description truncation, the tag strip and
  its overflow badge, the author lines, the status badge, year visibility and
  the cover fallback list. They are linked to the image component, which shows
  which URL a card displays after each load error.

Where the two trees differ, the model keeps both behaviours:

- The older pagination disables its arrows on equality; the newer one on
  inequality.
- The Next.js service returns the chapter feed unfiltered.
- The Next.js reader rejects a chapter without pages; the older reader renders
  it as page `.../undefined`.
- The legacy `mangadex.ts` title chain type-checks the first value;
  `mangadx.ts` returns it whatever its type.
- Unguarded `.find`, `.slice` or `.length` on a missing array is a
  `Failure("TypeError")`.

Both readers keep the current page index when the chapter id changes
(`Reader.Load` leaves `currentPage` unchanged). The reader invariant is
therefore proved from mount through one load and any sequence of user actions.

External calls are parameters of the model:

- `new URL` is `parse`.
- `fetch` is `fetch`.
- `encodeURIComponent` is `encode`.
- Per-character `toUpperCase` is `upper`.
- Every network answer (listing, feed, at-home server, proxy) is an input value.

## Model

| member | source | states |
|---|---|---|
| Catalog.CoverImageUrlWithFallback | manga-reader/src/services/mangadex.ts:225-238 | exactly four URLs: the first is the sized cover URL, then the unsized base with .jpg, .png and .webp |
| Catalog.FallbackTailIgnoresSize | manga-reader/src/services/mangadx.ts:205-218 | the three format fallbacks are the same whatever size was asked for |
| Catalog.CoverSizesDistinct | manga-reader/src/services/mangadex.ts:215-222 | small, medium and large (256/512/1024) give three different URLs for one cover |
| Catalog.CoverUrlsOnUploadsHost | manga-reader-next/src/services/mangadex.ts:62-70 | every sized or fallback cover URL has host uploads.mangadex.org, whatever the id and file name |
| Catalog.ChapterPageUrlInjective | manga-reader/src/services/mangadx.ts:221-224 | page URLs under one base and hash differ when the file name or the data/data-saver choice differs |
| Catalog.ItemOnExactlyOnePage | manga-reader/src/services/mangadex.ts:150 | with offset (page - 1) * limit, item i lies on exactly one page, page i / limit + 1 |
| Catalog.OffsetsStep | manga-reader/src/services/mangadx-enhanced.ts:224 | page 1 starts at offset 0 and each page starts limit items after the previous one |
| Catalog.ReadableChapters | manga-reader/src/services/mangadx.ts:79-82 | keeps exactly the chapters with pages > 0 and no external URL, never more than given |
| Catalog.ReadableChaptersAppend | manga-reader/src/services/mangadex.ts:103-106 | the filter distributes over concatenation, so the order of kept chapters is preserved |
| Catalog.ReadableChaptersIdempotent | manga-reader/src/services/mangadx-enhanced.ts:177-180 | filtering an already filtered feed changes nothing |
| Catalog.NamesOfKind | manga-reader/src/services/mangadx.ts:251-256 | every returned name is non-empty and comes from a relationship of that kind; every such non-empty name is returned |
| Catalog.NamesOfKindAppend | manga-reader/src/services/mangadx.ts:259-263 | extraction distributes over concatenation, so relationship order is kept |
| Catalog.FirstIndexOfKind | manga-reader/src/services/mangadx.ts:240 | `find` picks the first relationship of the kind: none before it has that kind |
| Catalog.CoverArtFrom | manga-reader/src/services/mangadx.ts:239-248 | a URL exactly when the FIRST cover_art relationship has a file name, and then it is on the uploads host |
| Catalog.FirstTruthy | manga-reader/src/services/mangadx.ts:229 | an `a or b or ...` chain yields the first truthy candidate, or the last operand when none is truthy |
| Catalog.LocalizedText | manga-reader/src/services/mangadex.ts:247-252 | the chain in full: en when truthy, else ja-ro when truthy, else ja when truthy, else the first value when truthy (and a string, when the check is on), else the default; always truthy, and always a value of the object or the default |
| Catalog.StringCheckMattersOnlyForNonStrings | manga-reader/src/services/mangadx.ts:229 | the checked and unchecked chains differ exactly when en, ja-ro and ja are falsy and the first value is truthy but not a string |
| Catalog.GuardedCoverArt | manga-reader-next/src/services/mangadex.ts:83-87 | null for non-array relationships, otherwise the first cover_art's medium URL |
| Catalog.GuardedNames | manga-reader-next/src/services/mangadex.ts:88-93 | [] for non-array relationships, otherwise the non-empty names of that kind in order |
| LegacyService.EnsureArray | manga-reader/src/services/mangadex.ts:24-26 | the value itself when it is an array, otherwise the fallback (default []) |
| LegacyService.EnsureObject | manga-reader/src/services/mangadex.ts:28-31 | any object passes unchanged; anything else fails with the given message |
| LegacyService.ListManga | manga-reader/src/services/mangadex.ts:35-52 | the listing's data when it is an array, [] otherwise; the method's own message when the body is not an object |
| LegacyService.GetPaginatedManga | manga-reader/src/services/mangadex.ts:148-168 | offset (page - 1) * limit; the same response object is returned with data normalised in place to an array |
| LegacyService.GetMangaChapters | manga-reader/src/services/mangadex.ts:102-114 | every field copied, data replaced by exactly its readable chapters in feed order; a non-object body fails with "Failed to fetch manga chapters" |
| LegacyService.GetEnglishTitle | manga-reader/src/services/mangadex.ts:247-252 | a present title object goes through the string-checked chain (en, ja-ro, ja, first string value, then "Unknown Title"); a missing one gives "Unknown Title" |
| LegacyService.GetEnglishDescription | manga-reader/src/services/mangadex.ts:255-260 | a present description object goes through the string-checked chain (en, ja-ro, ja, first string value, then "No description available"); a missing one gives "No description available" |
| LegacyService.LocalizedTextIsText | manga-reader/src/services/mangadex.ts:249-251 | because the first value is type-checked, the chain yields a non-empty string whenever en, ja-ro and ja are strings or absent |
| MangadxService.GetMangaChapters | manga-reader/src/services/mangadx.ts:65-92 | fails exactly when the body is not an object or data is not an array; otherwise the feed with only its readable chapters |
| MangadxService.GetEnglishTitle | manga-reader/src/services/mangadx.ts:227-230 | throws exactly when the title object is missing; otherwise the unchecked chain: en, ja-ro, ja, first value, then "Unknown Title" |
| MangadxService.GetEnglishDescription | manga-reader/src/services/mangadx.ts:233-236 | throws exactly when the description object is missing; otherwise the unchecked chain: en, ja-ro, ja, first value, then "No description available" |
| MangadxService.NonStringFirstValueIsReturned | manga-reader/src/services/mangadx.ts:229 | a numeric first value becomes the title here, where the legacy helper falls back to "Unknown Title" |
| MangadxService.GetCoverArt | manga-reader/src/services/mangadx.ts:239-248 | throws exactly for non-array relationships; otherwise agrees with the guarded helper |
| MangadxService.GetNames | manga-reader/src/services/mangadx.ts:251-264 | throws exactly for non-array relationships; otherwise the guarded author/artist names |
| NextService.ListOrEmpty | manga-reader-next/src/services/mangadex.ts:13-18 | `data` when it is an array, [] for a missing body or non-array data |
| NextService.GetMangaChapters | manga-reader-next/src/services/mangadex.ts:29-34 | the feed is returned exactly as received |
| NextService.UnreadableChapterKept | manga-reader-next/src/services/mangadex.ts:33 | a chapter without pages or with an external URL reaches the caller, unlike with the legacy filter |
| NextService.GetEnglishTitle | manga-reader-next/src/services/mangadex.ts:75-78 | a present title object goes through the unchecked chain (en, ja-ro, ja, first value, then "Unknown Title"); a missing one gives "Unknown Title" |
| NextService.GetEnglishDescription | manga-reader-next/src/services/mangadex.ts:79-82 | a present description object goes through the unchecked chain (en, ja-ro, ja, first value, then "No description available"); a missing one gives "No description available" |
| EnhancedService.AbsoluteUrl | manga-reader/src/services/mangadx-enhanced.ts:66-68 | a URL not starting with "http" is prefixed with https://api.mangadex.org; others are kept |
| EnhancedService.HandleApiError | manga-reader/src/services/mangadx-enhanced.ts:47-96 | attempt k goes through proxy k with the encoded absolute URL; at most 2 - retryCount attempts; recovery only through a proxy that answered; otherwise the connectivity text or "API request failed: message"; no proxy request unless eligible; an eligible error always tries proxy retryCount, and the message is thrown only once every remaining proxy has failed |
| EnhancedService.AtMostTwoProxyAttempts | manga-reader/src/services/mangadx-enhanced.ts:59-65 | from the interceptor's call, at most two proxy requests, through the two proxies in list order |
| EnhancedService.AllProxiesDown | manga-reader/src/services/mangadx-enhanced.ts:51-95 | a CORS failure in production outside Vercel with both proxies down tries both proxies in order and throws the connectivity message |
| EnhancedService.SecondProxyRecovers | manga-reader/src/services/mangadx-enhanced.ts:64-85 | when the first proxy fails and the second answers, the request is recovered through the second |
| EnhancedService.OnResponseError | manga-reader/src/services/mangadx-enhanced.ts:99-109 | the first failure of a request reaches the error handler and marks the request; a marked request is rejected unchanged |
| EnhancedService.FailTwice | manga-reader/src/services/mangadx-enhanced.ts:101-107 | a request that fails twice reaches the error handler only once |
| ImageProxy.UrlArgument | manga-reader-next/pages/api/image-proxy.ts:8-9 | an absent or empty url parameter counts as missing; a repeated one reaches the parser comma-joined |
| ImageProxy.ImageHeaders | manga-reader-next/pages/api/image-proxy.ts:44-50 | Content-Type is upstream's or image/jpeg, Content-Length is set exactly when upstream gave one, Cache-Control is the fixed CDN policy |
| ImageProxy.Handle | manga-reader-next/pages/api/image-proxy.ts:6-58 | an upstream request exactly for a present, parsable URL whose host is exactly uploads.mangadex.org, sent with the fixed Referer/Accept/User-Agent and no-store; 400 for missing, then invalid, then foreign host; a failed upstream status relayed with "Upstream error" and the status; 200 with the image; 500 "Internal error" on a thrown fetch or failed read |
| ImageProxy.CoverUrlsAreProxied | manga-reader-next/pages/api/image-proxy.ts:22-36 | every cover URL the catalog builds passes all three checks and is fetched unchanged |
| ImageProxy.Handler | manga-reader-next/pages/api/image-proxy.ts:7-57 | the statement-by-statement handler writes into a fresh response exactly what Handle specifies |
| Pagination.RenderPageNumbers | manga-reader/src/components/Pagination.tsx:11-40 | buttons ascending and contiguous from max(1, min(current - 2, totalPages - 4)), only the current page highlighted; with totalPages >= 1 exactly min(5, totalPages) pages of [1, totalPages], containing the current page exactly when it is in range |
| Pagination.NavButtons | manga-reader/src/components/Pagination.tsx:47-103 | First, Previous, Next and Last request 1, current - 1, current + 1 and totalPages, enabled by the variant's rule |
| Pagination.NavRulesAgreeInRange | manga-reader-next/src/components/Pagination.tsx:19-20 | for a current page in [1, totalPages] the equality and inequality rules enable the same buttons |
| Pagination.EnabledTargetsInRange | manga-reader-next/src/components/Pagination.tsx:19-35 | under the Next.js rule an enabled Previous never asks for a page below 1 and an enabled Next never for one past the end; with the current page in range every enabled button leads to another page of [1, totalPages] |
| Pagination.LegacyPreviousBelowRange | manga-reader/src/components/Pagination.tsx:62-63 | the equality rule leaves Previous enabled on page 0, requesting page -1 |
| Pagination.Render | manga-reader-next/src/components/Pagination.tsx:18-40 | nothing when totalPages <= 1; otherwise the four arrows and a page window that starts at max(1, min(current - 2, totalPages - 4)) and contains the current page exactly when it lies in [1, totalPages] |
| Carousel.ItemsPerViewFor | manga-reader/src/components/Carousel.tsx:18-30 | the breakpoint table: 5 from width 1536, 4 from 1280, 3 from 1024, 2 from 768, 1 below 768 |
| Carousel.ItemsPerViewMonotone | manga-reader-next/src/components/Carousel.tsx:11-17 | a wider window never shows fewer cards |
| Carousel.SafeLength | manga-reader-next/src/components/Carousel.tsx:23 | the list length, 0 for a non-array |
| Carousel.MaxIndex | manga-reader/src/components/Carousel.tsx:37-38 | never negative: max(0, length - itemsPerView) |
| Carousel.NextIndex | manga-reader/src/components/Carousel.tsx:40-42 | never past maxIndex, moves forward by at most one, by exactly one below maxIndex, and lands on maxIndex from there or beyond |
| Carousel.PrevIndex | manga-reader/src/components/Carousel.tsx:44-46 | never below 0, moves back by at most one, and by exactly one above 0 |
| Carousel.GoToIndex | manga-reader/src/components/Carousel.tsx:48-50 | clamps into [0, maxIndex] and is the identity on indices in range |
| Carousel.DisabledExactlyWhenStuck | manga-reader/src/components/Carousel.tsx:67-80 | in range, Previous is disabled exactly when it would not move, and so is Next |
| Carousel.RunStaysInRange | manga-reader/src/components/Carousel.tsx:13-50 | from an index in range, any sequence of next, previous and dot clicks stays in [0, maxIndex] |
| Carousel.ClampingStepsRecover | manga-reader-next/src/components/Carousel.tsx:26-28 | a next or dot click brings any index to at most maxIndex |
| Carousel.Dots | manga-reader/src/components/Carousel.tsx:117-119 | maxIndex + 1 dots, and none when maxIndex is 0 |
| Carousel.DotsReachTheirIndex | manga-reader-next/src/components/Carousel.tsx:57-59 | clicking a dot scrolls exactly to its index |
| Carousel.Renders | manga-reader/src/components/Carousel.tsx:52 | the Next.js carousel renders exactly for a non-empty list; the older one throws for a missing list |
| Carousel.CarouselState.constructor | manga-reader/src/components/Carousel.tsx:13-14 | mount state: index 0, one card per view |
| Carousel.CarouselState.UpdateItemsPerView | manga-reader/src/components/Carousel.tsx:18-33 | sets the breakpoint count and leaves the index as it was |
| Carousel.CarouselState.NextSlide | manga-reader-next/src/components/Carousel.tsx:26 | applies NextIndex and keeps the index in range |
| Carousel.CarouselState.PrevSlide | manga-reader-next/src/components/Carousel.tsx:27 | applies PrevIndex and keeps the index in range |
| Carousel.CarouselState.GoToSlide | manga-reader-next/src/components/Carousel.tsx:28 | applies the clamp, which always lands in range |
| Carousel.ResizeKeepsIndexPastEnd | manga-reader/src/components/Carousel.tsx:18-41 | ten cards scrolled to index 9, then widened to five per view: the index stays 9, past maxIndex 5 |
| Reader.ZoomedIn | manga-reader/src/pages/ChapterReader.tsx:79-82 | never above 300 and stays 300 at the cap; from a reachable zoom it stays reachable and grows by 25 exactly below 300 |
| Reader.ZoomedOut | manga-reader/src/pages/ChapterReader.tsx:84-87 | never below 25 and stays 25 at the floor; from a reachable zoom it stays reachable and shrinks by 25 exactly above 25 |
| Reader.OnNextPage | manga-reader/src/pages/ChapterReader.tsx:46-53 | moves forward one page and starts the image-loading overlay exactly when data is loaded and this is not the last page; otherwise nothing changes |
| Reader.OnPrevPage | manga-reader/src/pages/ChapterReader.tsx:55-62 | moves back one page with the overlay exactly when not on page 0; otherwise nothing changes |
| Reader.KeyPress | manga-reader/src/pages/ChapterReader.tsx:64-72 | ArrowRight and space turn forward, ArrowLeft turns back, other keys change nothing |
| Reader.OnToggleFit | manga-reader-next/src/components/ChapterReader.tsx:60-66 | flips fit-to-width; switching it on resets zoom to 100, switching it off keeps the zoom; nothing else changes |
| Reader.Load | manga-reader-next/src/components/ChapterReader.tsx:19-38 | no id: the older reader stays loading, the Next.js one reports "No chapter ID provided"; an empty page list is refused by the Next.js reader only; failures give the variant's message; the page index is never reset |
| Reader.FailureMessage | manga-reader-next/src/components/ChapterReader.tsx:32-33 | a usable message is passed through; otherwise "An error occurred" in the older reader and "An error occurred loading chapter images" in the Next.js one |
| Reader.Render | manga-reader-next/src/components/ChapterReader.tsx:68-126 | loading, error or page screen; the error screen shows the stored error when non-empty, otherwise "Chapter not found" (older) or the Next.js not-found text; the counter reads currentPage + 1 of the page count; Previous disabled on page 0, Next on the last page; help always shown by the older reader |
| Reader.StepPreservesValid | manga-reader/src/pages/ChapterReader.tsx:46-92 | every user action keeps the page in the chapter, the zoom reachable and the chapter data unchanged |
| Reader.RunPreservesValid | manga-reader-next/src/components/ChapterReader.tsx:42-66 | the reader invariant survives any sequence of user actions |
| Reader.FirstLoadValid | manga-reader-next/src/components/ChapterReader.tsx:10-38 | from mount, whatever the first load returns, the invariant holds after it and through any following user actions |
| Reader.ShownPageExists | manga-reader-next/src/components/ChapterReader.tsx:98-113 | in either reader with a non-empty chapter, the image shown is the current page's file and 1 <= k <= n in "Page k of n"; the Next.js reader never shows an empty chapter |
| Reader.LegacyEmptyChapter | manga-reader/src/pages/ChapterReader.tsx:125-149 | the older reader renders a chapter without pages as ".../undefined" and "Page 1 of 0" |
| Reader.ReaderView.constructor | manga-reader/src/pages/ChapterReader.tsx:11-16 | the mount state: page 0, loading, zoom 100, fit to width, help shown |
| Reader.ReaderView.FetchChapterImages | manga-reader/src/pages/ChapterReader.tsx:18-36 | updates the fields exactly as Load specifies |
| Reader.ReaderView.NextPage | manga-reader-next/src/components/ChapterReader.tsx:42-47 | applies OnNextPage and preserves the invariant |
| Reader.ReaderView.PrevPage | manga-reader-next/src/components/ChapterReader.tsx:48-51 | applies OnPrevPage and preserves the invariant |
| Reader.ReaderView.HandleKeyPress | manga-reader-next/src/components/ChapterReader.tsx:52-55 | applies the key mapping |
| Reader.ReaderView.HandleImageSettled | manga-reader-next/src/components/ChapterReader.tsx:40-41 | image load and image error both end the loading overlay |
| Reader.ReaderView.ZoomIn | manga-reader-next/src/components/ChapterReader.tsx:57 | steps the zoom up, turns fit off, preserves the invariant |
| Reader.ReaderView.ZoomOut | manga-reader-next/src/components/ChapterReader.tsx:58 | steps the zoom down, turns fit off, preserves the invariant |
| Reader.ReaderView.ResetZoom | manga-reader-next/src/components/ChapterReader.tsx:59 | zoom 100 and fit to width |
| Reader.ReaderView.ToggleFit | manga-reader-next/src/components/ChapterReader.tsx:60-66 | applies OnToggleFit |
| Reader.ReaderView.ToggleHelp | manga-reader-next/src/components/ChapterReader.tsx:119 | flips the help banner |
| Reader.ReaderView.DismissHelp | manga-reader-next/src/components/ChapterReader.tsx:147 | "Got it" hides the help banner |
| SmartImage.Reset | manga-reader/src/components/SmartImage.tsx:20-28 | on mount and on every new src: currentSrc = src, index -1, no error |
| SmartImage.OnError | manga-reader/src/components/SmartImage.tsx:30-40 | while fallbacks remain, shows the next one; once exhausted, shows the placeholder with the error mark; keeps the index in [-1, length - 1] |
| SmartImage.FallbacksInOrder | manga-reader/src/components/SmartImage.tsx:31-34 | the k-th error (k <= number of fallbacks) shows fallback k - 1, each once and in order |
| SmartImage.PlaceholderAfterExhaustion | manga-reader-next/src/components/SmartImage.tsx:26-35 | from error number length + 1 on, the placeholder is shown with the error mark and further errors change nothing |
| SmartImage.AfterErrorsValid | manga-reader/src/components/SmartImage.tsx:21-34 | after any number of errors the index stays in [-1, length - 1] |
| SmartImage.Render | manga-reader/src/components/SmartImage.tsx:42-54 | the "No Image" box exactly for a null or empty source; otherwise the image, error-styled once marked |
| SmartImage.SmartImageView.constructor | manga-reader-next/src/components/SmartImage.tsx:16-18 | the mount state equals Reset(src) |
| SmartImage.SmartImageView.SrcChanged | manga-reader-next/src/components/SmartImage.tsx:20-24 | a new src resets the state |
| SmartImage.SmartImageView.HandleError | manga-reader/src/components/SmartImage.tsx:30-40 | applies OnError; onError is called exactly on the exhausted branch, and only by the older component |
| Cards.Truncate | manga-reader/src/components/MangaCard.tsx:23-25 | text within the limit is unchanged; longer text becomes its first limit characters followed by "..." |
| Cards.TruncateIdempotent | manga-reader/src/components/MangaListItem.tsx:18-20 | truncating twice equals truncating once |
| Cards.LongerLimitKeepsMore | manga-reader/src/components/MangaCardCarousel.tsx:26-28 | for any text at least as long as the shorter limit, the shorter card's first characters are those the longer card shows (the 100-character card against the 150- and 200-character ones) |
| Cards.CoverFileName | manga-reader-next/src/components/MangaCard.tsx:12-17 | the first cover_art's file name when non-empty |
| Cards.CoverArtOfCoverFile | manga-reader/src/services/mangadex.ts:263-271 | the cover URL is the medium URL of that same file, or null without one |
| Cards.CoverFallbacks | manga-reader/src/components/MangaCard.tsx:18-20 | the fallback list without its sized entry, [] without a cover file; the older MangaCard throws for non-array relationships |
| Cards.CardTriesWholeFallbackList | manga-reader/src/components/MangaCardCarousel.tsx:19-23 | the cover URL followed by the fallbacks is exactly the medium fallback list, whatever size the card asked for |
| Cards.CardImageAfterErrors | manga-reader-next/src/components/MangaCard.tsx:28-34 | after k load errors a card shows entry k of the medium fallback list, and from the fourth error on the placeholder with the error mark |
| Cards.TagLabel | manga-reader/src/components/MangaCard.tsx:67 | the English name when truthy, otherwise the first name value |
| Cards.Strip | manga-reader/src/components/MangaListItem.tsx:97-109 | the first limit tags' labels in order, and a positive "+n" badge exactly when there are more tags than the limit |
| Cards.TagArea | manga-reader-next/src/components/MangaCard.tsx:45-58 | guarded cards show nothing for non-array tags; unguarded cards throw; otherwise the strip |
| Cards.StripAccountsForEveryTag | manga-reader/src/components/MangaCardCarousel.tsx:89-101 | labels plus the badge count add up to the number of tags |
| Cards.ByLine | manga-reader/src/components/MangaCard.tsx:50-54 | "by " and the names joined with ", ", shown exactly when there is an author |
| Cards.AuthorsLine | manga-reader/src/components/MangaListItem.tsx:81-88 | the names joined with ", ", shown exactly when there is an author |
| Cards.AuthorSummary | manga-reader/src/components/MangaCardCarousel.tsx:55-60 | the first author, with " +(n - 1)" when there are more, hidden without authors |
| Cards.SingleAuthorShownAlike | manga-reader-next/src/components/MangaCard.tsx:40-42 | with one author, all three author displays show that name |
| Cards.JoinedNamesNonEmpty | manga-reader/src/components/MangaListItem.tsx:84-86 | a shown author line is never blank |
| Cards.StatusColorOf | manga-reader/src/components/MangaCardCarousel.tsx:69-75 | green exactly for completed, blue exactly for ongoing, gray otherwise |
| Cards.StatusLabel | manga-reader/src/components/MangaListItem.tsx:70 | same length as the status, first character upper-cased, rest unchanged |
| Cards.StatusLabelStable | manga-reader/src/components/MangaCardCarousel.tsx:76 | labelling a label again changes nothing |
| Cards.YearDisplay | manga-reader/src/components/MangaListItem.tsx:56-61 | a badge exactly for a non-zero year, nothing for a missing one, and a bare "0" for year 0 |

## Definitions without a contract of their own

Definitions without an `ensures` are described through the rows of the members that use them:

- `Catalog.SizeCode`, `Catalog.CoverBase` and `Catalog.CoverImageUrl` (manga-reader/src/services/mangadex.ts:214-221) are covered by `Catalog.CoverImageUrlWithFallback`, `Catalog.CoverSizesDistinct` and `Catalog.CoverUrlsOnUploadsHost`.
- `Catalog.Quality` and `Catalog.ChapterPageUrl` (manga-reader/src/services/mangadex.ts:241-244) are covered by `Catalog.ChapterPageUrlInjective` and `Reader.ShownPageExists`.
- `Catalog.Offset` (manga-reader/src/services/mangadex.ts:150) is covered by `Catalog.ItemOnExactlyOnePage` and `Catalog.OffsetsStep`.
- `Catalog.Readable` is covered by `Catalog.ReadableChapters` and its lemmas.
- `Pagination.LegacyNavEnabled` (manga-reader/src/components/Pagination.tsx:48-49, 62-63, 79-80, 93-94) and `Pagination.NavEnabled` (manga-reader-next/src/components/Pagination.tsx:19-20) are covered by `Pagination.NavButtons`, `Pagination.NavRulesAgreeInRange`, `Pagination.EnabledTargetsInRange` and `Pagination.LegacyPreviousBelowRange`.
- `Carousel.PrevDisabled` and `Carousel.NextDisabled` (manga-reader/src/components/Carousel.tsx:67, 80) are covered by `Carousel.DisabledExactlyWhenStuck`.
- `Carousel.Step` and `Carousel.Run` are covered by `Carousel.RunStaysInRange`.
- `Reader.OnZoomIn`, `Reader.OnZoomOut` and `Reader.OnResetZoom` (manga-reader/src/pages/ChapterReader.tsx:79-92) are covered by `Reader.ZoomedIn`, `Reader.ZoomedOut`, `Reader.StepPreservesValid` and the rows `Reader.ReaderView.ZoomIn`, `Reader.ReaderView.ZoomOut` and `Reader.ReaderView.ResetZoom`.
- `Reader.OnToggleHelp` and `Reader.OnDismissHelp` (manga-reader-next/src/components/ChapterReader.tsx:119, 147) are covered by the rows `Reader.ReaderView.ToggleHelp` and `Reader.ReaderView.DismissHelp`.
- `Reader.ImageSettled` (manga-reader/src/pages/ChapterReader.tsx:38-44) is covered by the row `Reader.ReaderView.HandleImageSettled`.
- `Reader.PageFile` is covered by `Reader.Render`, `Reader.ShownPageExists` and `Reader.LegacyEmptyChapter`.
- `Reader.Step` and `Reader.Run` are covered by `Reader.StepPreservesValid` and `Reader.RunPreservesValid`.
- `SmartImage.AfterErrors` is covered by `SmartImage.FallbacksInOrder`, `SmartImage.PlaceholderAfterExhaustion` and `SmartImage.AfterErrorsValid`.
- `EnhancedService.ConnectivityError`, `EnhancedService.ProxyEligible`, `EnhancedService.ProxyRequest`, `EnhancedService.ProxySucceeds` and `EnhancedService.FinalMessage` are covered by `EnhancedService.HandleApiError`, `EnhancedService.AtMostTwoProxyAttempts`, `EnhancedService.AllProxiesDown` and `EnhancedService.SecondProxyRecovers`.
- `ImageProxy.Ok`, `ImageProxy.UpstreamRequest` and `ImageProxy.Accepted` are covered by `ImageProxy.Handle` and `ImageProxy.CoverUrlsAreProxied`.

## Left out

- Network I/O is not modelled: axios and fetch calls, timeouts, async ordering. Upstream replies, thrown errors and proxy outcomes are inputs.
- EnhancedService.HandleApiError: each proxy attempt is reduced to succeeded or failed. The proxied response body and the per-request axios options (45 s timeout, headers) are not modelled.
- Cards.StatusLabel: upper-casing maps one character to one character. Characters whose upper case is longer (such as ß) are not modelled.
- ImageProxy.Handler: `res.json` also sets a JSON Content-Type header, which is not modelled. Neither is Node's refusal of status codes outside 100-999.
- ImageProxy.CoverUrlsAreProxied: assumes that `new URL` parses each cover URL to the host read off after `https://` and keeps the URL as its `href`. The WHATWG URL parser is not modelled.
- Strings are sequences of characters, not UTF-16 code units, so `length` and `substring` count characters.
- Plain objects are lists of entries in property order. JavaScript lists integer-like keys first in `Object.values`; that reordering is not modelled.
- Relationship names and file names are strings or absent. Non-string values there are not modelled.
- Cards take the title and description as strings. The chain can yield a non-string value (see MangadxService.NonStringFirstValueIsReturned), and such values are not passed on.
- Numbers are integers, so NaN, fractional page numbers and the carousel's `translateX` percentage are not modelled.
- React is not modelled: rendering, JSX, CSS classes other than the status colour, batching of state updates, effect scheduling, `window.scrollTo`, `history.back` and event-listener registration. Each handler is one atomic update of the current state.
- The Next.js reader's chapter-metadata request and its "Back to Manga" link are not modelled.
- Fetchers without logic of their own are not modelled: `getMangaById`, `getChapterImages`, `getChapterMeta`, and the unguarded list fetchers of `mangadx.ts` and `mangadx-enhanced.ts`.
- MangaListItem's inline image replaces its own `src` with a placeholder on error; this DOM mutation is not modelled. Neither is its "Updated:" date, which is formatted by `toLocaleDateString`.
- Platform detection and base URLs are not modelled (`config/api.ts`, the `BASE_URL` blocks, Vercel detection). The enhanced service takes the environment as an input.
- The `/api/mangadex` forwarding endpoints (`[...path]` files) are not part of this model.
- Also not part of this model: the theme hook, the service worker, and the pages and presentational components with no logic of their own (Homepage, PopularPage, UpdatedPage, MangaDetails, Navbar, Footer, ViewToggle, ErrorBoundary, MangaGrid, Loading, `_app`, `_document`).
- The at-home server reply is taken as always carrying its `chapter` object: `ChapterImagesResponse` holds that object's `hash`, `data` and `dataSaver` directly. A reply without `chapter` is not modelled. The Next.js reader would show "No image data available for this chapter" for it, and the older reader would fail while rendering.
