/**
 * The chapter reader of both front ends
 * (manga-reader/src/pages/ChapterReader.tsx and
 * manga-reader-next/src/components/ChapterReader.tsx): loading a chapter's
 * page list, turning pages by button, click zone or keyboard, zooming, and
 * what the screen shows. The Next.js reader also rejects chapters without
 * pages, has a fit-to-width toggle and a dismissible help banner.
 */
module Reader {
  import opened Wrappers
  import opened Js
  import opened MangaTypes
  import opened Catalog

  function Max(a: int, b: int): int { if a >= b then a else b }
  function Min(a: int, b: int): int { if a <= b then a else b }

  datatype Variant = Legacy | NextJs

  const MinZoom := 25
  const MaxZoom := 300
  const ZoomStep := 25
  const DefaultZoom := 100

  /** The zoom levels reachable from 100%: multiples of 25 between 25% and 300%. */
  predicate ValidZoom(z: int) {
    MinZoom <= z <= MaxZoom && z % ZoomStep == 0
  }

  function ZoomedIn(z: int): (r: int)
    ensures r <= MaxZoom
    ensures ValidZoom(z) ==> ValidZoom(r) && (z < MaxZoom <==> r == z + ZoomStep)
    ensures z >= MaxZoom ==> r == MaxZoom
  {
    Min(z + ZoomStep, MaxZoom)
  }

  function ZoomedOut(z: int): (r: int)
    ensures r >= MinZoom
    ensures ValidZoom(z) ==> ValidZoom(r) && (z > MinZoom <==> r == z - ZoomStep)
    ensures z <= MinZoom ==> r == MinZoom
  {
    Max(z - ZoomStep, MinZoom)
  }

  /** All of the reader's state variables. */
  datatype ReaderState = ReaderState(
    chapterData: Option<ChapterImagesResponse>,
    currentPage: int,
    loading: bool,
    imageLoading: bool,
    error: Option<string>,
    zoomLevel: int,
    fitToWidth: bool,
    showHelp: bool)

  /** The state on mount. */
  const Initial := ReaderState(None, 0, true, true, None, DefaultZoom, true, true)

  function PageCount(s: ReaderState): nat {
    if s.chapterData.Some? then |s.chapterData.value.data| else 0
  }

  /**
   * The reader's invariant: the page index lies within the chapter (page 0 of
   * an empty one), the zoom level is reachable, and the Next.js reader never
   * holds a chapter without pages.
   */
  predicate Valid(s: ReaderState, variant: Variant) {
    0 <= s.currentPage <= Max(0, PageCount(s) - 1)
    && ValidZoom(s.zoomLevel)
    && (variant == NextJs && s.chapterData.Some? ==> |s.chapterData.value.data| > 0)
  }

  /** `nextPage`: forward one page unless on the last one or nothing is loaded. */
  function OnNextPage(s: ReaderState): (r: ReaderState)
    ensures r.currentPage == s.currentPage || r.currentPage == s.currentPage + 1
    ensures r.currentPage != s.currentPage <==> s.chapterData.Some? && s.currentPage < PageCount(s) - 1
    ensures r.currentPage != s.currentPage ==> r == s.(currentPage := r.currentPage, imageLoading := true)
    ensures r.currentPage == s.currentPage ==> r == s
  {
    if s.chapterData.Some? && s.currentPage < |s.chapterData.value.data| - 1 then
      s.(currentPage := s.currentPage + 1, imageLoading := true)
    else s
  }

  /** `prevPage`: back one page unless on the first. */
  function OnPrevPage(s: ReaderState): (r: ReaderState)
    ensures r.currentPage != s.currentPage <==> s.currentPage > 0
    ensures s.currentPage > 0 ==> r == s.(currentPage := s.currentPage - 1, imageLoading := true)
    ensures s.currentPage <= 0 ==> r == s
  {
    if s.currentPage > 0 then s.(currentPage := s.currentPage - 1, imageLoading := true) else s
  }

  /** `handleKeyPress`: right arrow and space go forward, left arrow back, other keys nothing. */
  function KeyPress(s: ReaderState, key: string): (r: ReaderState)
    ensures key == "ArrowRight" || key == " " ==> r == OnNextPage(s)
    ensures key == "ArrowLeft" ==> r == OnPrevPage(s)
    ensures key != "ArrowRight" && key != " " && key != "ArrowLeft" ==> r == s
  {
    if key == "ArrowRight" || key == " " then OnNextPage(s)
    else if key == "ArrowLeft" then OnPrevPage(s)
    else s
  }

  /** The image's `onLoad` and `onError` both end the loading overlay. */
  function ImageSettled(s: ReaderState): ReaderState {
    s.(imageLoading := false)
  }

  function OnZoomIn(s: ReaderState): ReaderState {
    s.(zoomLevel := ZoomedIn(s.zoomLevel), fitToWidth := false)
  }

  function OnZoomOut(s: ReaderState): ReaderState {
    s.(zoomLevel := ZoomedOut(s.zoomLevel), fitToWidth := false)
  }

  function OnResetZoom(s: ReaderState): ReaderState {
    s.(zoomLevel := DefaultZoom, fitToWidth := true)
  }

  /** `toggleFit` (Next.js reader): switching fit on also resets the zoom; switching it off keeps it. */
  function OnToggleFit(s: ReaderState): (r: ReaderState)
    ensures r.fitToWidth == !s.fitToWidth
    ensures r.zoomLevel == (if r.fitToWidth then DefaultZoom else s.zoomLevel)
    ensures r == s.(fitToWidth := r.fitToWidth, zoomLevel := r.zoomLevel)
  {
    if s.fitToWidth then s.(fitToWidth := false) else s.(fitToWidth := true, zoomLevel := DefaultZoom)
  }

  /** The help button (Next.js reader). */
  function OnToggleHelp(s: ReaderState): ReaderState {
    s.(showHelp := !s.showHelp)
  }

  /** "Got it" (Next.js reader). */
  function OnDismissHelp(s: ReaderState): ReaderState {
    s.(showHelp := false)
  }

  /** What the chapter-images request produced: the response, or a thrown value and its message if any. */
  datatype FetchOutcome = Fetched(response: ChapterImagesResponse) | FetchFailed(message: Option<string>)

  const LegacyFailure := "An error occurred"
  const NoIdMessage := "No chapter ID provided"
  const NoPagesMessage := "No image data available for this chapter"
  const NextFailure := "An error occurred loading chapter images"

  /**
   * The load effect for chapter `id`. The older reader does nothing without
   * an id, so the loading screen stays; the Next.js reader reports the
   * missing id and refuses a chapter without pages. The page index is not
   * reset.
   */
  function Load(s: ReaderState, variant: Variant, id: string, outcome: FetchOutcome): (r: ReaderState)
    ensures r.currentPage == s.currentPage && r.zoomLevel == s.zoomLevel && r.fitToWidth == s.fitToWidth
    ensures variant == Legacy && id == "" ==> r == s
    ensures variant == NextJs && id == "" ==> r == s.(error := Some(NoIdMessage), loading := false)
    ensures variant == Legacy && id != "" && outcome.Fetched? ==>
              r == s.(chapterData := Some(outcome.response), error := None, loading := false)
    ensures variant == NextJs && id != "" && outcome.Fetched? ==>
              if |outcome.response.data| > 0 then r == s.(chapterData := Some(outcome.response), error := None, loading := false)
              else r == s.(error := Some(NoPagesMessage), loading := false)
    ensures id != "" && outcome.FetchFailed? ==>
              r == s.(error := Some(FailureMessage(variant, outcome.message)), loading := false)
    // a Next.js reader only ever takes a chapter with pages
    ensures variant == NextJs && r.chapterData != s.chapterData ==> |r.chapterData.value.data| > 0
  {
    if id == "" then
      (if variant == Legacy then s else s.(error := Some(NoIdMessage), loading := false))
    else match outcome
      case Fetched(d) =>
        if variant == NextJs && |d.data| == 0 then s.(error := Some(NoPagesMessage), loading := false)
        else s.(chapterData := Some(d), error := None, loading := false)
      case FetchFailed(m) => s.(error := Some(FailureMessage(variant, m)), loading := false)
  }

  /**
   * The error text set when the request throws: the older reader takes the
   * message of an `Error` even if empty; the Next.js one only a non-empty
   * message.
   */
  function FailureMessage(variant: Variant, message: Option<string>): (r: string)
    ensures variant == NextJs ==> r != ""
    ensures message.Some? && (variant == Legacy || message.value != "") ==> r == message.value
    ensures variant == Legacy && message.None? ==> r == LegacyFailure
    ensures variant == NextJs && !Filled(message) ==> r == NextFailure
  {
    match variant
    case Legacy => if message.Some? then message.value else LegacyFailure
    case NextJs => if Filled(message) then message.value else NextFailure
  }

  datatype Screen =
    | LoadingScreen
    | ErrorScreen(message: string)
    | PageScreen(imageUrl: string, pageNumber: int, pageCount: int,
                 prevDisabled: bool, nextDisabled: bool, helpShown: bool)

  const LegacyNotFound := "Chapter not found"
  const NextNotFound := "This chapter may not have images available or the chapter ID is invalid."

  /** `data[currentPage]` as a template literal prints it. */
  function PageFile(data: seq<string>, i: int): string {
    if 0 <= i < |data| then data[i] else "undefined"
  }

  /** What the reader renders for a state. */
  function Render(s: ReaderState, variant: Variant): (r: Screen)
    ensures s.loading <==> r.LoadingScreen?
    ensures r.ErrorScreen? <==> !s.loading && (Filled(s.error) || s.chapterData.None?)
    ensures r.ErrorScreen? ==> r.message != ""
    ensures r.ErrorScreen? && Filled(s.error) ==> r.message == s.error.value
    ensures r.ErrorScreen? && !Filled(s.error) ==> r.message == (if variant == Legacy then LegacyNotFound else NextNotFound)
    ensures r.PageScreen? ==>
              r.pageNumber == s.currentPage + 1 && r.pageCount == PageCount(s)
              && (r.prevDisabled <==> s.currentPage == 0)
              && (r.nextDisabled <==> s.currentPage >= PageCount(s) - 1)
              && (r.helpShown <==> variant == Legacy || s.showHelp)
  {
    if s.loading then LoadingScreen
    else if Filled(s.error) || s.chapterData.None? then
      ErrorScreen(if Filled(s.error) then s.error.value else if variant == Legacy then LegacyNotFound else NextNotFound)
    else
      var d := s.chapterData.value;
      PageScreen(ChapterPageUrl(d.baseUrl, d.hash, PageFile(d.data, s.currentPage)),
                 s.currentPage + 1, |d.data|, s.currentPage == 0, s.currentPage >= |d.data| - 1,
                 variant == Legacy || s.showHelp)
  }

  /** Everything a reader can do once mounted, other than (re)loading. */
  datatype Action =
    | NextAction | PrevAction | Key(key: string) | ImageDone
    | ZoomInAction | ZoomOutAction | ResetAction | ToggleFitAction | HelpAction | GotItAction

  function Step(s: ReaderState, a: Action): ReaderState {
    match a
    case NextAction => OnNextPage(s)
    case PrevAction => OnPrevPage(s)
    case Key(k) => KeyPress(s, k)
    case ImageDone => ImageSettled(s)
    case ZoomInAction => OnZoomIn(s)
    case ZoomOutAction => OnZoomOut(s)
    case ResetAction => OnResetZoom(s)
    case ToggleFitAction => OnToggleFit(s)
    case HelpAction => OnToggleHelp(s)
    case GotItAction => OnDismissHelp(s)
  }

  function Run(s: ReaderState, actions: seq<Action>): ReaderState
    decreases |actions|
  {
    if |actions| == 0 then s else Run(Step(s, actions[0]), actions[1..])
  }

  lemma StepPreservesValid(s: ReaderState, variant: Variant, a: Action)
    requires Valid(s, variant)
    ensures Valid(Step(s, a), variant)
    ensures Step(s, a).chapterData == s.chapterData
  {
  }

  /** The invariant survives any sequence of user actions. */
  lemma {:induction false} RunPreservesValid(s: ReaderState, variant: Variant, actions: seq<Action>)
    requires Valid(s, variant)
    ensures Valid(Run(s, actions), variant)
    ensures Run(s, actions).chapterData == s.chapterData
    decreases |actions|
  {
    if |actions| > 0 {
      StepPreservesValid(s, variant, actions[0]);
      RunPreservesValid(Step(s, actions[0]), variant, actions[1..]);
    }
  }

  /** The first load of a freshly mounted reader establishes the invariant. */
  lemma {:induction false} FirstLoadValid(variant: Variant, id: string, outcome: FetchOutcome, actions: seq<Action>)
    ensures Valid(Load(Initial, variant, id, outcome), variant)
    ensures Valid(Run(Load(Initial, variant, id, outcome), actions), variant)
  {
    RunPreservesValid(Load(Initial, variant, id, outcome), variant, actions);
  }

  /**
   * In a valid state of either reader with a non-empty chapter, the image
   * shown is the current page's file and the counter reads "Page k of n"
   * with 1 <= k <= n. The Next.js reader never shows an empty chapter.
   */
  lemma {:induction false} ShownPageExists(s: ReaderState, variant: Variant)
    requires Valid(s, variant) && Render(s, variant).PageScreen?
    ensures variant == NextJs ==> PageCount(s) > 0
    ensures PageCount(s) > 0 ==>
              var d := s.chapterData.value;
              Render(s, variant).imageUrl == ChapterPageUrl(d.baseUrl, d.hash, d.data[s.currentPage])
              && 1 <= Render(s, variant).pageNumber <= Render(s, variant).pageCount
  {
  }

  /** The older reader accepts a chapter without pages and then asks for page ".../undefined", "Page 1 of 0". */
  lemma LegacyEmptyChapter(baseUrl: string, hash: string)
    ensures var d := ChapterImagesResponse("ok", baseUrl, hash, [], []);
            var screen := Render(Load(Initial, Legacy, "c", Fetched(d)), Legacy);
            screen == PageScreen(ChapterPageUrl(baseUrl, hash, "undefined"), 1, 0, true, true, true)
  {
  }

  /** The reader component: its state variables and handlers. */
  class ReaderView {
    const variant: Variant
    var chapterData: Option<ChapterImagesResponse>
    var currentPage: int
    var loading: bool
    var imageLoading: bool
    var error: Option<string>
    var zoomLevel: int
    var fitToWidth: bool
    var showHelp: bool

    function State(): ReaderState
      reads this
    {
      ReaderState(chapterData, currentPage, loading, imageLoading, error, zoomLevel, fitToWidth, showHelp)
    }

    constructor (variant: Variant)
      ensures this.variant == variant && State() == Initial
    {
      this.variant := variant;
      chapterData, currentPage, loading, imageLoading := None, 0, true, true;
      error, zoomLevel, fitToWidth, showHelp := None, DefaultZoom, true, true;
    }

    method FetchChapterImages(id: string, outcome: FetchOutcome)
      modifies this
      ensures State() == Load(old(State()), variant, id, outcome)
    {
      if id == "" {
        if variant == NextJs {
          error := Some(NoIdMessage);
          loading := false;
        }
        return;
      }
      loading := true;
      error := None;
      match outcome {
        case Fetched(d) =>
          if variant == NextJs && |d.data| == 0 {
            error := Some(NoPagesMessage);
          } else {
            chapterData := Some(d);
          }
        case FetchFailed(m) =>
          error := Some(FailureMessage(variant, m));
      }
      loading := false;
    }

    method NextPage()
      modifies this
      ensures State() == OnNextPage(old(State()))
      ensures old(Valid(State(), variant)) ==> Valid(State(), variant)
    {
      if chapterData.Some? && currentPage < |chapterData.value.data| - 1 {
        currentPage := currentPage + 1;
        imageLoading := true;
      }
    }

    method PrevPage()
      modifies this
      ensures State() == OnPrevPage(old(State()))
      ensures old(Valid(State(), variant)) ==> Valid(State(), variant)
    {
      if currentPage > 0 {
        currentPage := currentPage - 1;
        imageLoading := true;
      }
    }

    method HandleKeyPress(key: string)
      modifies this
      ensures State() == KeyPress(old(State()), key)
    {
      if key == "ArrowRight" || key == " " {
        NextPage();
      } else if key == "ArrowLeft" {
        PrevPage();
      }
    }

    method HandleImageSettled()
      modifies this
      ensures State() == ImageSettled(old(State()))
    {
      imageLoading := false;
    }

    method ZoomIn()
      modifies this
      ensures State() == OnZoomIn(old(State()))
      ensures old(Valid(State(), variant)) ==> Valid(State(), variant)
    {
      zoomLevel := ZoomedIn(zoomLevel);
      fitToWidth := false;
    }

    method ZoomOut()
      modifies this
      ensures State() == OnZoomOut(old(State()))
      ensures old(Valid(State(), variant)) ==> Valid(State(), variant)
    {
      zoomLevel := ZoomedOut(zoomLevel);
      fitToWidth := false;
    }

    method ResetZoom()
      modifies this
      ensures State() == OnResetZoom(old(State()))
    {
      zoomLevel := DefaultZoom;
      fitToWidth := true;
    }

    method ToggleFit()
      requires variant == NextJs
      modifies this
      ensures State() == OnToggleFit(old(State()))
    {
      var next := !fitToWidth;
      if next {
        zoomLevel := DefaultZoom;
      }
      fitToWidth := next;
    }

    method ToggleHelp()
      requires variant == NextJs
      modifies this
      ensures State() == OnToggleHelp(old(State()))
    {
      showHelp := !showHelp;
    }

    method DismissHelp()
      requires variant == NextJs
      modifies this
      ensures State() == OnDismissHelp(old(State()))
    {
      showHelp := false;
    }
  }
}
