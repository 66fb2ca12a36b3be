/**
  The listening panel under the board. Only hiding is animated. Each hide
  starts a tween; the panel holds the promise of the latest one until a tween
  completes (the pending flag), and a tween's completion is an explicit step.
  Tweens are counted as started and finished, so that whoever awaits a hide
  can tell when it is over. Where
  the panel sits is its placement: off screen, or on screen at a vertical offset
  from its resting place.
*/
module Listening {

  datatype Placement = OffScreen | OnScreen(yOffset: int)

  class ListeningComponent {
    var isVisible: bool
    /** `animationPromise !== undefined`: a hide animation has not completed. */
    var animationPending: bool
    var placement: Placement
    /** Hide tweens started so far, and those whose `onComplete` has run; they
        all last as long, so they complete in the order they started. */
    var hidesStarted: nat
    var hidesFinished: nat

    /** The panel is on screen exactly while visible, and a pending animation
        (always a hide, of a tween still running) means it is not visible. */
    ghost predicate Valid()
      reads this
    {
      (isVisible <==> placement.OnScreen?) &&
      (animationPending ==> !isVisible && hidesFinished < hidesStarted) && hidesFinished <= hidesStarted
    }

    /** The component after `setup`: invisible and below the screen. */
    constructor ()
      ensures Valid()
      ensures !isVisible && !animationPending && placement == OffScreen
      ensures hidesStarted == 0 && hidesFinished == 0
    {
      isVisible := false;
      animationPending := false;
      placement := OffScreen;
      hidesStarted := 0;
      hidesFinished := 0;
    }

    /** `show`: skipped while visible or while an animation is pending; otherwise
        the panel appears at once at its resting place. */
    method Show() returns (awaited: bool)
      requires Valid()
      modifies this
      ensures Valid()
      ensures old(isVisible) || old(animationPending) ==>
                isVisible == old(isVisible) && animationPending == old(animationPending) &&
                placement == old(placement)
      ensures !old(isVisible) && !old(animationPending) ==>
                isVisible && !animationPending && placement == OnScreen(0)
      ensures awaited == animationPending
      ensures hidesStarted == old(hidesStarted) && hidesFinished == old(hidesFinished)
    {
      if isVisible || animationPending {
        return animationPending;
      }
      isVisible := true;
      placement := OnScreen(0);
      awaited := animationPending;
    }

    /** `hide`: skipped while invisible or while an animation is pending; otherwise
        the panel is marked invisible and slides off screen. */
    method Hide() returns (awaited: bool)
      requires Valid()
      modifies this
      ensures Valid()
      ensures !old(isVisible) || old(animationPending) ==>
                isVisible == old(isVisible) && animationPending == old(animationPending) &&
                placement == old(placement)
      ensures old(isVisible) && !old(animationPending) ==>
                !isVisible && animationPending && placement == OffScreen
      ensures awaited == animationPending
      ensures hidesStarted == old(hidesStarted) + (if old(isVisible) then 1 else 0)
      ensures hidesFinished == old(hidesFinished)
    {
      if !isVisible || animationPending {
        return animationPending;
      }
      isVisible := false;
      animationPending := true;
      hidesStarted := hidesStarted + 1;
      placement := OffScreen;
      awaited := true;
    }

    /** The oldest running slide-out tween's `onComplete`: it has finished and
        the promise is dropped. */
    method FinishHideAnimation()
      requires Valid() && hidesFinished < hidesStarted
      modifies this
      ensures Valid()
      ensures !animationPending && isVisible == old(isVisible) && placement == old(placement)
      ensures hidesFinished == old(hidesFinished) + 1 && hidesStarted == old(hidesStarted)
    {
      animationPending := false;
      hidesFinished := hidesFinished + 1;
    }

    /** `adjustPosition`: moves the panel only while it is visible. */
    method AdjustPosition(yOffset: int)
      requires Valid()
      modifies this
      ensures Valid()
      ensures placement == (if old(isVisible) then OnScreen(yOffset) else old(placement))
      ensures isVisible == old(isVisible) && animationPending == old(animationPending)
      ensures hidesStarted == old(hidesStarted) && hidesFinished == old(hidesFinished)
    {
      if isVisible {
        placement := OnScreen(yOffset);
      }
    }

    /** `destroy`: the pending promise is dropped; the tween itself runs on.
        Destroying the panel's sizer is not modelled. */
    method Destroy()
      requires Valid()
      modifies this
      ensures Valid()
      ensures !animationPending && isVisible == old(isVisible) && placement == old(placement)
      ensures hidesStarted == old(hidesStarted) && hidesFinished == old(hidesFinished)
    {
      if animationPending {
        animationPending := false;
      }
    }
  }
}
