/**
  The presentation state machine. A transition to a new state starts the
  animations of the board, the HUD and the listening panel; the state changes,
  and "state-changed" is emitted, only when the hides it awaits have finished,
  which is an explicit step here. Completing a transition to `Listening` starts
  a transition to `ListeningHub` before the state is updated.
*/
module StateManager {
  import opened Wrappers
  import opened Events
  import Hud
  import Listening

  /** A HUD hide being awaited: it is over once `until` hide tweens of `service` have finished. */
  datatype HudHide = HudHide(service: Hud.HudService, until: nat)

  /** A panel hide being awaited, in the same way. */
  datatype PanelHide = PanelHide(panel: Listening.ListeningComponent, until: nat)

  /** `GameStateTransition`, with the HUD and panel promises its `Promise.all` awaits. */
  datatype Transition = Transition(from: GameState, to: GameState,
                                   hudHide: Option<HudHide>, panelHide: Option<PanelHide>)

  /** Every hide the transition awaits has finished, so its `Promise.all` has resolved. */
  predicate AnimationsDone(t: Transition)
    reads if t.hudHide.Some? then {t.hudHide.value.service} else {}
    reads if t.panelHide.Some? then {t.panelHide.value.panel} else {}
  {
    (t.hudHide.Some? ==> t.hudHide.value.service.hidesFinished >= t.hudHide.value.until) &&
    (t.panelHide.Some? ==> t.panelHide.value.panel.hidesFinished >= t.panelHide.value.until)
  }

  /** The listeners set up by the constructor: the state each event leads to. */
  function EventTarget(e: GameEvent): (r: Option<GameState>)
    ensures r.Some? <==> e == MicEnable || e == MicDisable || e == BackButtonClicked || e == HubShow
    ensures r == Some(Listening) <==> e == MicEnable
    ensures r == Some(Full) <==> e == BackButtonClicked
    // `ListeningHub` is reached only by the automatic follow-up transition
    ensures r != Some(ListeningHub)
  {
    match e
    case MicEnable => Some(Listening)
    case MicDisable => Some(Hub)
    case BackButtonClicked => Some(Full)
    case HubShow => Some(Hub)
    case _ => None
  }

  /** How far the listening panel is raised when the HUD takes its place. */
  const ListeningHubOffset := 24

  /** The HUD promise a transition towards `to` awaits: `showHud` (on a hidden
      HUD) or `hideHud` (on a shown one) was called and returned a pending promise,
      that of the latest hide. */
  twostate function HudAwait(hud: Hud.HudService?, to: GameState): Option<HudHide>
    reads hud
  {
    if hud != null && hud.animationPending && (to == Hub || old(hud.isShown))
    then Some(HudHide(hud, hud.hidesStarted)) else None
  }

  /** The panel promise a transition awaits: `show` or `hide` is always called, and
      its promise is pending exactly when a hide is. */
  twostate function PanelAwait(listening: Listening.ListeningComponent?): Option<PanelHide>
    reads listening
  {
    if listening != null && listening.animationPending
    then Some(PanelHide(listening, listening.hidesStarted)) else None
  }

  /** The transition from `from` to `to` as started, with what it awaits. */
  twostate function Awaiting(hud: Hud.HudService?, listening: Listening.ListeningComponent?,
                             from: GameState, to: GameState): Transition
    reads hud, listening
  {
    Transition(from, to, HudAwait(hud, to), PanelAwait(listening))
  }

  /** The HUD is up only in `Hub`; showing it waits for no animation in flight,
      and hiding a shown HUD starts a hide tween. */
  twostate predicate HudEffects(hud: Hud.HudService, to: GameState)
    reads hud
  {
    hud.isShown == (to == Hub && (old(hud.isShown) || !old(hud.animationPending))) &&
    hud.animationPending == (old(hud.animationPending) || (to != Hub && old(hud.isShown))) &&
    hud.hidesStarted == old(hud.hidesStarted) + (if to != Hub && old(hud.isShown) then 1 else 0) &&
    hud.hidesFinished == old(hud.hidesFinished)
  }

  /** The panel is up only in the listening states; towards `ListeningHub` a visible
      panel is raised, a newly shown one starts level, and hiding a visible panel
      starts a hide tween. */
  twostate predicate PanelEffects(listening: Listening.ListeningComponent, boardRegistered: bool, to: GameState)
    reads listening
  {
    listening.isVisible == (IsListening(to) && (old(listening.isVisible) || !old(listening.animationPending))) &&
    listening.animationPending ==
      (old(listening.animationPending) || (!IsListening(to) && old(listening.isVisible))) &&
    listening.placement ==
      (if !IsListening(to) then Listening.OffScreen
       else if old(listening.isVisible) then
         // `adjustPosition(24)` runs only towards `ListeningHub` with the board registered
         (if to == ListeningHub && boardRegistered then Listening.OnScreen(ListeningHubOffset)
          else old(listening.placement))
       else if old(listening.animationPending) then old(listening.placement)  // `show` skipped
       else Listening.OnScreen(0)) &&
    listening.hidesStarted ==
      old(listening.hidesStarted) + (if !IsListening(to) && old(listening.isVisible) then 1 else 0) &&
    listening.hidesFinished == old(listening.hidesFinished)
  }

  /** What starting a transition from `from` to `to` does to the HUD and the
      listening panel, whichever of them are registered. */
  twostate predicate TransitionEffects(hud: Hud.HudService?, listening: Listening.ListeningComponent?,
                                       boardRegistered: bool, from: GameState, to: GameState)
    reads hud, listening
  {
    (hud != null ==>
      HudEffects(hud, to) &&
      // leaving the listening states turns the mic off
      hud.micEnabled == (old(hud.micEnabled) && !(listening != null && !IsListening(to) && IsListening(from)))) &&
    (listening != null ==> PanelEffects(listening, boardRegistered, to))
  }

  /** The HUD's part of `executeTransition`. */
  method StartHud(hud: Hud.HudService, to: GameState) returns (awaits: Option<HudHide>)
    requires hud.Valid()
    modifies hud
    ensures hud.Valid() && HudEffects(hud, to) && hud.micEnabled == old(hud.micEnabled)
    ensures awaits == HudAwait(hud, to)
  {
    var called, awaited := false, false;
    if to == Hub {
      if !hud.isShown {
        called := true;
        awaited := hud.ShowHud();
      }
    } else if hud.isShown {
      called := true;
      awaited := hud.HideHud();
    }
    awaits := if called && awaited then Some(HudHide(hud, hud.hidesStarted)) else None;
  }

  /** The listening panel's part of `executeTransition`, raising a visible panel
      towards `ListeningHub` included. */
  method StartPanel(listening: Listening.ListeningComponent, boardRegistered: bool, to: GameState)
    returns (awaits: Option<PanelHide>)
    requires listening.Valid()
    modifies listening
    ensures listening.Valid() && PanelEffects(listening, boardRegistered, to)
    ensures awaits == PanelAwait(listening)
  {
    if boardRegistered && to == ListeningHub && listening.isVisible {
      listening.AdjustPosition(ListeningHubOffset);
    }
    var awaited;
    if IsListening(to) {
      awaited := listening.Show();
    } else {
      awaited := listening.Hide();
    }
    awaits := if awaited then Some(PanelHide(listening, listening.hidesStarted)) else None;
  }

  class GameStateManager {
    var currentState: GameState
    /** The event listeners are attached (until `destroy`). */
    var listenersOn: bool
    var hud: Hud.HudService?
    var listening: Listening.ListeningComponent?
    /** The game board's services are registered; they only contribute animations. */
    var boardRegistered: bool
    /** The transitions whose `Promise.all` has not resolved yet, oldest first. */
    var pending: seq<Transition>

    ghost predicate Valid()
      reads this, hud, listening
    {
      (hud != null ==> hud.Valid()) && (listening != null ==> listening.Valid())
    }

    constructor ()
      ensures Valid()
      ensures currentState == Full && listenersOn && pending == []
      ensures hud == null && listening == null && !boardRegistered
    {
      currentState := Full;
      listenersOn := true;
      hud := null;
      listening := null;
      boardRegistered := false;
      pending := [];
    }

    /** `registerComponents` */
    method RegisterComponents(listening: Listening.ListeningComponent, hud: Hud.HudService)
      requires listening.Valid() && hud.Valid()
      modifies this
      ensures Valid()
      ensures this.listening == listening && this.hud == hud && boardRegistered
      ensures currentState == old(currentState) && listenersOn == old(listenersOn) && pending == old(pending)
    {
      this.listening := listening;
      this.hud := hud;
      boardRegistered := true;
    }

    /** Starting the transition from `from` to `to`: the components react as
        `TransitionEffects` says, the transition is added to those in flight and
        nothing else changes. */
    twostate predicate Started(from: GameState, to: GameState)
      reads this, hud, listening
    {
      hud == old(hud) && listening == old(listening) &&
      currentState == old(currentState) && listenersOn == old(listenersOn) &&
      boardRegistered == old(boardRegistered) &&
      pending == old(pending) + [Awaiting(hud, listening, from, to)] &&
      TransitionEffects(hud, listening, boardRegistered, from, to)
    }

    /** The part of `executeTransition` that runs before its animations are awaited:
        towards `ListeningHub` a visible panel is raised, the HUD is shown or hidden,
        the panel is shown or hidden, and leaving the listening states resets the
        mic. The transition is recorded with the HUD and panel promises it awaits. */
    method StartTransition(to: GameState)
      requires Valid()
      modifies this, hud, listening
      ensures Valid() && Started(old(currentState), to)
    {
      var from := currentState;
      var hudHide: Option<HudHide> := None;
      if hud != null {
        hudHide := StartHud(hud, to);
      }
      var panelHide: Option<PanelHide> := None;
      if listening != null {
        panelHide := StartPanel(listening, boardRegistered, to);
        if hud != null && !IsListening(to) && IsListening(from) {
          hud.ResetMicState();
        }
      }
      pending := pending + [Transition(from, to, hudHide, panelHide)];
    }

    /** `transitionTo`: nothing happens when already in `to`; otherwise the
        transition's animations start. */
    method TransitionTo(to: GameState) returns (started: bool)
      requires Valid()
      modifies this, hud, listening
      ensures Valid()
      ensures started <==> old(currentState) != to
      ensures started ==> Started(old(currentState), to)
      ensures !started ==> unchanged(this) && (hud != null ==> unchanged(hud)) && (listening != null ==> unchanged(listening))
    {
      if currentState == to {
        return false;
      }
      StartTransition(to);
      started := true;
    }

    /** The `Promise.all` of the `k`-th pending transition resolves, which needs
        every hide it awaits to have finished: a transition to `Listening` first
        starts one to `ListeningHub` (from the state as it still is), then the state
        becomes the target and "state-changed" is emitted. */
    method CompleteTransition(k: nat) returns (emitted: GameEvent, autoStarted: bool)
      requires Valid() && k < |pending| && AnimationsDone(pending[k])
      modifies this, hud, listening
      ensures Valid()
      ensures currentState == old(pending[k].to)
      ensures emitted == StateChanged(old(pending[k].from), old(pending[k].to))
      ensures autoStarted <==> old(pending[k].to) == Listening && old(currentState) != ListeningHub
      ensures !autoStarted ==> pending == old(pending[..k] + pending[k + 1..])
      ensures autoStarted ==>
                pending == old(pending[..k] + pending[k + 1..]) + [Awaiting(old(hud), old(listening), old(currentState), ListeningHub)]
      ensures hud == old(hud) && listening == old(listening) && listenersOn == old(listenersOn)
      ensures boardRegistered == old(boardRegistered)
      ensures autoStarted ==> TransitionEffects(old(hud), old(listening), boardRegistered, old(currentState), ListeningHub)
      ensures !autoStarted ==> (hud != null ==> unchanged(hud)) && (listening != null ==> unchanged(listening))
    {
      var t := pending[k];
      pending := pending[..k] + pending[k + 1..];
      autoStarted := false;
      if t.to == Listening {
        autoStarted := TransitionTo(ListeningHub);
      }
      currentState := t.to;
      emitted := StateChanged(t.from, t.to);
    }

    /** An event on the game's emitter: the four listened events start a transition
        to their target while the listeners are attached; anything else is ignored. */
    method HandleEvent(e: GameEvent) returns (started: bool)
      requires Valid()
      modifies this, hud, listening
      ensures Valid()
      ensures started <==> listenersOn && EventTarget(e).Some? && EventTarget(e).value != old(currentState)
      ensures started ==> Started(old(currentState), EventTarget(e).value)
      ensures !started ==> unchanged(this) && (hud != null ==> unchanged(hud)) && (listening != null ==> unchanged(listening))
    {
      if !listenersOn {
        return false;
      }
      match EventTarget(e)
      case None =>
        started := false;
      case Some(target) =>
        started := TransitionTo(target);
    }

    /** `destroy`: the listeners are detached and the panel's pending animation is
        forgotten. */
    method Destroy()
      requires Valid()
      modifies this, listening
      ensures Valid() && !listenersOn
      ensures currentState == old(currentState) && pending == old(pending)
      ensures hud == old(hud) && listening == old(listening)
      ensures boardRegistered == old(boardRegistered)
      ensures listening != null ==>
                !listening.animationPending && listening.isVisible == old(listening.isVisible) &&
                listening.placement == old(listening.placement) &&
                listening.hidesStarted == old(listening.hidesStarted) &&
                listening.hidesFinished == old(listening.hidesFinished)
    {
      listenersOn := false;
      if listening != null {
        listening.Destroy();
      }
    }
  }

  /** The static `instance` slot of `GameStateManager`. */
  class ManagerSlot {
    var instance: GameStateManager?

    constructor ()
      ensures instance == null
    {
      instance := null;
    }

    /** `getInstance`: the first call creates the manager, every later one returns it. */
    method GetInstance() returns (m: GameStateManager)
      modifies this
      ensures instance == m
      ensures old(instance) != null ==> m == old(instance)
      ensures old(instance) == null ==>
                fresh(m) && m.Valid() && m.currentState == Full && m.pending == [] && m.listenersOn &&
                m.hud == null && m.listening == null && !m.boardRegistered
    {
      if instance == null {
        instance := new GameStateManager();
      }
      m := instance;
    }
  }

  /** The board's start-up and one click on the mic: the state manager moves to
      `Hub` (showing the HUD), then towards `Listening` (hiding the HUD, showing
      the panel). That transition completes only once the HUD's slide-out tween
      has finished and emitted "hub-hidden"; it then leads on to `ListeningHub`
      (raising the panel). The last "state-changed" names as its origin the state
      before `Listening`. */
  method MicEnableSettlesInListeningHub() returns (state: GameState, events: seq<GameEvent>)
    ensures state == ListeningHub
    ensures events == [StateChanged(Full, Hub), MicEnable, HubHidden,
                       StateChanged(Hub, Listening), StateChanged(Hub, ListeningHub)]
  {
    var m := new GameStateManager();
    var hud := new Hud.HudService();
    var panel := new Listening.ListeningComponent();
    m.RegisterComponents(panel, hud);
    var _ := m.TransitionTo(Hub);
    var e1, _ := m.CompleteTransition(0);
    assert hud.isShown;
    var e2 := hud.ClickMic();
    var _ := m.HandleEvent(e2);
    assert !hud.isShown && panel.isVisible && hud.hidesStarted == 1;
    assert m.pending == [Transition(Hub, Listening, Some(HudHide(hud, 1)), None)];
    var e3 := hud.FinishHideAnimation();
    var e4, auto := m.CompleteTransition(0);
    assert auto && |m.pending| == 1 && panel.placement == Listening.OnScreen(ListeningHubOffset);
    assert m.pending[0].hudHide.None? && m.pending[0].panelHide.None?;
    var e5, _ := m.CompleteTransition(0);
    assert hud.micEnabled && !hud.isShown && panel.isVisible && !hud.animationPending;
    state := m.currentState;
    events := [e1, e2, e3, e4, e5];
  }
}
