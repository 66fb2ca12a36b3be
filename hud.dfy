/**
  The HUD's service: the mic toggle and the HUD's visibility. Only hiding is
  animated. Each hide starts a tween; the service holds the promise of the
  latest one until a tween completes (the pending flag), and a tween's
  completion is an explicit step. Tweens are counted as started and finished,
  so that whoever awaits a hide can tell when it is over.
*/
module Hud {
  import opened Events

  class HudService {
    var micEnabled: bool
    var isShown: bool
    /** `animationPromise !== undefined`: a hide animation has not completed. */
    var animationPending: bool
    /** Hide tweens started so far, and those whose `onComplete` has run; they
        all last as long, so they complete in the order they started. */
    var hidesStarted: nat
    var hidesFinished: nat

    /** Showing is immediate, so while an animation is pending the HUD is hidden,
        and the pending promise is that of a tween still running. */
    ghost predicate Valid()
      reads this
    {
      (animationPending ==> !isShown && hidesFinished < hidesStarted) && hidesFinished <= hidesStarted
    }

    constructor ()
      ensures Valid()
      ensures !micEnabled && !isShown && !animationPending
      ensures hidesStarted == 0 && hidesFinished == 0
    {
      micEnabled := false;
      isShown := false;
      animationPending := false;
      hidesStarted := 0;
      hidesFinished := 0;
    }

    /** The mic button: the flag flips, and the event names its new value. */
    method ClickMic() returns (emitted: GameEvent)
      requires Valid()
      modifies this
      ensures Valid()
      ensures micEnabled == !old(micEnabled)
      ensures emitted == (if micEnabled then MicEnable else MicDisable)
      ensures isShown == old(isShown) && animationPending == old(animationPending)
      ensures hidesStarted == old(hidesStarted) && hidesFinished == old(hidesFinished)
    {
      micEnabled := !micEnabled;
      if micEnabled {
        emitted := MicEnable;
      } else {
        emitted := MicDisable;
      }
    }

    /** `showHud`: skipped while shown or while an animation is pending; otherwise
        the HUD is shown at once, with nothing left to wait for. `awaited` says
        whether the returned promise is a pending animation. */
    method ShowHud() returns (awaited: bool)
      requires Valid()
      modifies this
      ensures Valid()
      ensures old(isShown) || old(animationPending) ==>
                isShown == old(isShown) && animationPending == old(animationPending)
      ensures !old(isShown) && !old(animationPending) ==> isShown && !animationPending
      ensures awaited == animationPending && micEnabled == old(micEnabled)
      ensures hidesStarted == old(hidesStarted) && hidesFinished == old(hidesFinished)
    {
      if isShown || animationPending {
        return animationPending;
      }
      isShown := true;
      awaited := animationPending;
    }

    /** `hideHud`: skipped while hidden or while an animation is pending; otherwise
        the HUD is marked hidden and its slide-out animation starts. */
    method HideHud() returns (awaited: bool)
      requires Valid()
      modifies this
      ensures Valid()
      ensures !old(isShown) || old(animationPending) ==>
                isShown == old(isShown) && animationPending == old(animationPending)
      ensures old(isShown) && !old(animationPending) ==> !isShown && animationPending
      ensures awaited == animationPending && micEnabled == old(micEnabled)
      ensures hidesStarted == old(hidesStarted) + (if old(isShown) then 1 else 0)
      ensures hidesFinished == old(hidesFinished)
    {
      if !isShown || animationPending {
        return animationPending;
      }
      isShown := false;
      animationPending := true;
      hidesStarted := hidesStarted + 1;
      awaited := true;
    }

    /** The oldest running slide-out tween's `onComplete`: it has finished, the
        promise is dropped and "hub-hidden" is emitted. */
    method FinishHideAnimation() returns (emitted: GameEvent)
      requires Valid() && hidesFinished < hidesStarted
      modifies this
      ensures Valid()
      ensures !animationPending && emitted == HubHidden
      ensures hidesFinished == old(hidesFinished) + 1 && hidesStarted == old(hidesStarted)
      ensures isShown == old(isShown) && micEnabled == old(micEnabled)
    {
      animationPending := false;
      hidesFinished := hidesFinished + 1;
      emitted := HubHidden;
    }

    /** `resetMicState` */
    method ResetMicState()
      requires Valid()
      modifies this
      ensures Valid()
      ensures !micEnabled
      ensures isShown == old(isShown) && animationPending == old(animationPending)
      ensures hidesStarted == old(hidesStarted) && hidesFinished == old(hidesFinished)
    {
      micEnabled := false;
    }

    /** `destroy`: the pending promise is dropped; the tween itself runs on. */
    method Destroy()
      requires Valid()
      modifies this
      ensures Valid()
      ensures !animationPending
      ensures isShown == old(isShown) && micEnabled == old(micEnabled)
      ensures hidesStarted == old(hidesStarted) && hidesFinished == old(hidesFinished)
    {
      if animationPending {
        animationPending := false;
      }
    }
  }
}
