/**
 * The image component with fallbacks of both front ends
 * (manga-reader/src/components/SmartImage.tsx and
 * manga-reader-next/src/components/SmartImage.tsx): on each load error it
 * moves to the next fallback source, and once they are exhausted to the
 * placeholder, marking the error. The older component also notifies an
 * optional `onError` callback.
 */
module SmartImage {
  import opened Wrappers
  import opened Js

  const DefaultPlaceholder := "https://via.placeholder.com/300x400/1F2937/9CA3AF?text=No+Cover"

  /** The three state variables; `currentSrc` is None for `null`. */
  datatype ImageState = ImageState(currentSrc: Option<string>, fallbackIndex: int, hasError: bool)

  /** Mount and every change of `src`. */
  function Reset(src: Option<string>): (s: ImageState)
    ensures s.currentSrc == src && s.fallbackIndex == -1 && !s.hasError
  {
    ImageState(src, -1, false)
  }

  /** The index points at the fallback shown, or is -1 before any fallback. */
  predicate Valid(s: ImageState, fallbacks: seq<string>) {
    -1 <= s.fallbackIndex <= |fallbacks| - 1
  }

  /** Whether an error now would go to the placeholder. */
  predicate Exhausted(s: ImageState, fallbacks: seq<string>) {
    s.fallbackIndex + 1 >= |fallbacks|
  }

  /** `fallbackSrcs[i]`, which is `undefined` outside the list. */
  function At(fallbacks: seq<string>, i: int): (r: Option<string>)
    ensures 0 <= i < |fallbacks| ==> r == Some(fallbacks[i])
    ensures !(0 <= i < |fallbacks|) ==> r == None
  {
    if 0 <= i < |fallbacks| then Some(fallbacks[i]) else None
  }

  /** `handleError`. */
  function OnError(s: ImageState, fallbacks: seq<string>, placeholder: string): (r: ImageState)
    ensures !Exhausted(s, fallbacks) ==> r == ImageState(At(fallbacks, s.fallbackIndex + 1), s.fallbackIndex + 1, s.hasError)
    ensures !Exhausted(s, fallbacks) && Valid(s, fallbacks) ==> r.currentSrc == Some(fallbacks[s.fallbackIndex + 1])
    ensures Exhausted(s, fallbacks) ==> r == s.(currentSrc := Some(placeholder), hasError := true)
    ensures Valid(s, fallbacks) ==> Valid(r, fallbacks)
  {
    if s.fallbackIndex + 1 < |fallbacks| then
      var next := s.fallbackIndex + 1;
      s.(fallbackIndex := next, currentSrc := At(fallbacks, next))
    else
      s.(currentSrc := Some(placeholder), hasError := true)
  }

  /** The state after `k` load errors since the last reset. */
  function AfterErrors(src: Option<string>, fallbacks: seq<string>, placeholder: string, k: nat): ImageState {
    if k == 0 then Reset(src) else OnError(AfterErrors(src, fallbacks, placeholder, k - 1), fallbacks, placeholder)
  }

  /** The fallbacks are tried in order, each once: the k-th error shows fallback k - 1. */
  lemma {:induction false} FallbacksInOrder(src: Option<string>, fallbacks: seq<string>, placeholder: string, k: nat)
    requires 1 <= k <= |fallbacks|
    ensures AfterErrors(src, fallbacks, placeholder, k) == ImageState(Some(fallbacks[k - 1]), k - 1, false)
  {
    if k > 1 {
      FallbacksInOrder(src, fallbacks, placeholder, k - 1);
    }
  }

  /**
   * From the (|fallbacks| + 1)-th error on, the placeholder is shown with the
   * error mark, and further errors change nothing.
   */
  lemma {:induction false} PlaceholderAfterExhaustion(src: Option<string>, fallbacks: seq<string>, placeholder: string, k: nat)
    requires k > |fallbacks|
    ensures AfterErrors(src, fallbacks, placeholder, k) == ImageState(Some(placeholder), |fallbacks| - 1, true)
  {
    if k - 1 > |fallbacks| {
      PlaceholderAfterExhaustion(src, fallbacks, placeholder, k - 1);
    } else if |fallbacks| > 0 {
      FallbacksInOrder(src, fallbacks, placeholder, k - 1);
    }
  }

  /** The index never leaves [-1, |fallbacks| - 1]. */
  lemma {:induction false} AfterErrorsValid(src: Option<string>, fallbacks: seq<string>, placeholder: string, k: nat)
    ensures Valid(AfterErrors(src, fallbacks, placeholder, k), fallbacks)
  {
    if k > 0 {
      AfterErrorsValid(src, fallbacks, placeholder, k - 1);
    }
  }

  /** What is rendered: the "No Image" box, or an image (with the error styling once marked). */
  datatype Display = NoImageBox | Image(src: string, errorStyle: bool)

  function Render(s: ImageState): (d: Display)
    ensures d.NoImageBox? <==> !Filled(s.currentSrc)
    ensures d.Image? ==> d.src == s.currentSrc.value && d.errorStyle == s.hasError
  {
    if Filled(s.currentSrc) then Image(s.currentSrc.value, s.hasError) else NoImageBox
  }

  /**
   * The component. `notifies` is whether an `onError` callback is wired: it
   * exists only in the older tree, and only when the caller passes one.
   */
  class SmartImageView {
    const fallbackSrcs: seq<string>
    const placeholder: string
    const notifies: bool
    var currentSrc: Option<string>
    var currentFallbackIndex: int
    var hasError: bool

    function State(): ImageState
      reads this
    {
      ImageState(currentSrc, currentFallbackIndex, hasError)
    }

    constructor (src: Option<string>, fallbackSrcs: seq<string>, placeholder: string, notifies: bool)
      ensures this.fallbackSrcs == fallbackSrcs && this.placeholder == placeholder && this.notifies == notifies
      ensures State() == Reset(src)
    {
      this.fallbackSrcs := fallbackSrcs;
      this.placeholder := placeholder;
      this.notifies := notifies;
      currentSrc := src;
      currentFallbackIndex := -1;
      hasError := false;
    }

    /** The effect on a new `src`. */
    method SrcChanged(src: Option<string>)
      modifies this
      ensures State() == Reset(src)
    {
      currentSrc := src;
      currentFallbackIndex := -1;
      hasError := false;
    }

    /** `handleError`; reports whether `onError` was called, which happens only on the exhausted branch. */
    method HandleError() returns (calledOnError: bool)
      modifies this
      ensures State() == OnError(old(State()), fallbackSrcs, placeholder)
      ensures calledOnError <==> notifies && Exhausted(old(State()), fallbackSrcs)
      ensures old(Valid(State(), fallbackSrcs)) ==> Valid(State(), fallbackSrcs)
    {
      calledOnError := false;
      if currentFallbackIndex + 1 < |fallbackSrcs| {
        var nextIndex := currentFallbackIndex + 1;
        currentFallbackIndex := nextIndex;
        currentSrc := At(fallbackSrcs, nextIndex);
      } else {
        currentSrc := Some(placeholder);
        hasError := true;
        if notifies {
          calledOnError := true;
        }
      }
    }
  }
}
