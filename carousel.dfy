/** The card-instructions carousel (src/components/UI/CarouselContent.tsx):
    a current slide changed by keys, clicks and dots, and an autoplay
    interval that advances it with wrap-around unless reduced motion is
    preferred or the mouse hovers the carousel.

    React re-renders are made explicit: a handler runs with the state of the
    render that created it, and a state change that alters `startAutoplay`
    re-runs the autoplay effect (its cleanup stops the interval, then the
    effect starts a fresh one). */
module Carousel {
  import opened Wrappers
  import opened Cyclic

  /** The slide `handleKeyDown` makes current when `key` is pressed on the
      focused slide `index` of `len`: Enter and Space select that slide, the
      arrows move one place without wrapping, anything else does nothing. */
  function KeySlide(key: string, index: nat, len: nat): (r: Option<nat>)
    ensures r == Some(index) <==> key == "Enter" || key == " "
    ensures key == "ArrowLeft" ==> r == (if index > 0 then Some(index - 1) else None)
    ensures key == "ArrowRight" ==> r == (if index + 1 < len then Some(index + 1) else None)
    ensures key !in {"Enter", " ", "ArrowLeft", "ArrowRight"} ==> r == None
    ensures index < len && r.Some? ==> r.value < len
  {
    if key == "Enter" || key == " " then Some(index)
    else if key == "ArrowLeft" && index > 0 then Some(index - 1)
    else if key == "ArrowRight" && index < len - 1 then Some(index + 1)
    else None
  }

  /** The arrows clamp at both ends instead of wrapping, and on an inner
      slide ArrowLeft and ArrowRight land on the two neighbours. */
  lemma ArrowsClamp(index: nat, len: nat)
    requires index < len
    ensures KeySlide("ArrowLeft", 0, len) == None
    ensures KeySlide("ArrowRight", len - 1, len) == None
    ensures 0 < index < len - 1 ==>
              KeySlide("ArrowLeft", index, len).value + 2 == KeySlide("ArrowRight", index, len).value
  {
  }

  class CarouselState {
    /** `slideData.length` and the `prefersReducedMotion` prop. */
    const slideCount: nat
    const prefersReducedMotion: bool
    var currentSlide: nat
    var autoplayPaused: bool
    /** `intervalRef.current !== null`. */
    var intervalSet: bool
    /** Intervals that are ticking, including any whose handle was
        overwritten in `intervalRef` without being cleared. */
    var runningIntervals: nat

    ghost predicate Valid()
      reads this
    {
      && slideCount > 0 && currentSlide < slideCount
      && (intervalSet ==> runningIntervals > 0)
      && (prefersReducedMotion ==> runningIntervals == 0 && !intervalSet)
    }

    /** Exactly the interval in `intervalRef` runs, and it runs exactly when
        neither reduced motion is preferred nor autoplay is paused. */
    ghost predicate Steady()
      reads this
    {
      && runningIntervals == (if intervalSet then 1 else 0)
      && (intervalSet <==> !prefersReducedMotion && !autoplayPaused)
    }

    /** Mounting: the first slide, not paused, and the autoplay effect starts
        the interval unless reduced motion is preferred. */
    constructor (slideCount: nat, prefersReducedMotion: bool)
      requires slideCount > 0
      ensures this.slideCount == slideCount && this.prefersReducedMotion == prefersReducedMotion
      ensures Valid() && Steady()
      ensures currentSlide == 0 && !autoplayPaused && intervalSet == !prefersReducedMotion
    {
      this.slideCount := slideCount;
      this.prefersReducedMotion := prefersReducedMotion;
      currentSlide := 0;
      autoplayPaused := false;
      intervalSet := !prefersReducedMotion;
      runningIntervals := if prefersReducedMotion then 0 else 1;
    }

    /** `startAutoplay` as created in a render that saw `pausedSeen`: nothing
        when reduced motion is preferred or autoplay was paused; otherwise a
        new interval is started and its handle stored, without clearing a
        handle already there. */
    method StartAutoplay(pausedSeen: bool)
      requires Valid()
      modifies this
      ensures Valid()
      ensures prefersReducedMotion || pausedSeen ==>
                intervalSet == old(intervalSet) && runningIntervals == old(runningIntervals)
      ensures !prefersReducedMotion && !pausedSeen ==>
                intervalSet && runningIntervals == old(runningIntervals) + 1
      ensures currentSlide == old(currentSlide) && autoplayPaused == old(autoplayPaused)
    {
      if prefersReducedMotion || pausedSeen {
        return;
      }
      runningIntervals := runningIntervals + 1;
      intervalSet := true;
    }

    /** `stopAutoplay`: the interval whose handle is stored is cleared and the
        handle dropped. */
    method StopAutoplay()
      requires Valid()
      modifies this
      ensures Valid() && !intervalSet
      ensures runningIntervals == old(runningIntervals) - (if old(intervalSet) then 1 else 0)
      ensures currentSlide == old(currentSlide) && autoplayPaused == old(autoplayPaused)
    {
      if intervalSet {
        runningIntervals := runningIntervals - 1;
        intervalSet := false;
      }
    }

    /** The autoplay effect re-run after `autoplayPaused` changed: cleanup,
        then a start with the new state unless reduced motion is preferred. */
    method RerunAutoplayEffect()
      requires Valid()
      modifies this
      ensures Valid()
      ensures intervalSet == (!prefersReducedMotion && !autoplayPaused)
      ensures runningIntervals == old(runningIntervals) - (if old(intervalSet) then 1 else 0)
                                  + (if intervalSet then 1 else 0)
      ensures currentSlide == old(currentSlide) && autoplayPaused == old(autoplayPaused)
    {
      StopAutoplay();
      if !prefersReducedMotion {
        StartAutoplay(autoplayPaused);
      }
    }

    /** `handleMouseEnter`: paused and the interval stopped. */
    method MouseEnter()
      requires Valid()
      modifies this
      ensures Valid() && autoplayPaused && !intervalSet
      ensures runningIntervals == old(runningIntervals) - (if old(intervalSet) then 1 else 0)
      ensures currentSlide == old(currentSlide)
      ensures old(Steady()) ==> Steady() && runningIntervals == 0
    {
      var wasPaused := autoplayPaused;
      autoplayPaused := true;
      StopAutoplay();
      if !wasPaused {
        RerunAutoplayEffect();
      }
    }

    /** `handleMouseLeave`: unpaused. Its own call to `startAutoplay` still
        sees the paused state of its render, so after a mouse-enter it does
        nothing and the effect re-run starts the interval; without a
        preceding mouse-enter it starts an interval next to the running one. */
    method MouseLeave()
      requires Valid()
      modifies this
      ensures Valid() && !autoplayPaused && currentSlide == old(currentSlide)
      ensures old(autoplayPaused) ==>
                intervalSet == !prefersReducedMotion
                && runningIntervals == old(runningIntervals) - (if old(intervalSet) then 1 else 0)
                                       + (if prefersReducedMotion then 0 else 1)
      ensures old(autoplayPaused) && old(Steady()) ==> Steady()
      ensures !old(autoplayPaused) && !prefersReducedMotion ==>
                intervalSet && runningIntervals == old(runningIntervals) + 1
    {
      var wasPaused := autoplayPaused;
      autoplayPaused := false;
      if !prefersReducedMotion {
        StartAutoplay(wasPaused);
      }
      if wasPaused {
        RerunAutoplayEffect();
      }
    }

    /** One firing of a running interval: `(prev + 1) % slideData.length`. */
    method Tick()
      requires Valid() && runningIntervals > 0
      modifies this
      ensures Valid() && currentSlide == Succ(old(currentSlide), slideCount)
      ensures autoplayPaused == old(autoplayPaused) && intervalSet == old(intervalSet)
      ensures runningIntervals == old(runningIntervals)
    {
      currentSlide := (currentSlide + 1) % slideCount;
    }

    /** `handleKeyDown` on the focused slide `index`. */
    method KeyDown(key: string, index: nat)
      requires Valid() && index < slideCount
      modifies this
      ensures Valid()
      ensures currentSlide == (match KeySlide(key, index, slideCount) case Some(k) => k case None => old(currentSlide))
      ensures autoplayPaused == old(autoplayPaused) && intervalSet == old(intervalSet)
      ensures runningIntervals == old(runningIntervals)
    {
      if key == "Enter" || key == " " {
        currentSlide := index;
      } else if key == "ArrowLeft" && index > 0 {
        currentSlide := index - 1;
      } else if key == "ArrowRight" && index < slideCount - 1 {
        currentSlide := index + 1;
      }
    }

    /** A click on slide `k` or on dot `k` (one of each per slide). */
    method SelectSlide(k: nat)
      requires Valid() && k < slideCount
      modifies this
      ensures Valid() && currentSlide == k
      ensures autoplayPaused == old(autoplayPaused) && intervalSet == old(intervalSet)
      ensures runningIntervals == old(runningIntervals)
    {
      currentSlide := k;
    }

    /** The slider's `slideChanged` callback reports its relative slide. */
    method SlideChanged(rel: nat)
      requires Valid() && rel < slideCount
      modifies this
      ensures Valid() && currentSlide == rel
      ensures autoplayPaused == old(autoplayPaused) && intervalSet == old(intervalSet)
      ensures runningIntervals == old(runningIntervals)
    {
      currentSlide := rel;
    }
  }
}
