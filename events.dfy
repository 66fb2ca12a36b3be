/** The presentation states and the game-wide events the HUD, the listening
    panel and the state manager exchange. */
module Events {

  /** `GameState`: the board in full view, with the HUD, with the listening
      panel rising, or with the panel settled above the board. */
  datatype GameState = Full | Hub | Listening | ListeningHub

  datatype GameEvent =
    | MicEnable                                   // "mic-enable"
    | MicDisable                                  // "mic-disable"
    | BackButtonClicked                           // "back-button-clicked"
    | HubShow                                     // "hub-show"
    | HubHidden                                   // "hub-hidden"
    | StateChanged(from: GameState, to: GameState) // "state-changed"

  /** The two states in which the listening panel is up. */
  predicate IsListening(s: GameState) {
    s == Listening || s == ListeningHub
  }
}
