/** The three-valued screen state of the game (src/game/gamestate.c). */
module GameState {

  datatype State = Menu | Playing | GameOver

  /** The global `current_state`: one cell, overwritten by SetState and read by GetState. */
  class StateStore {
    var current: State

    /** The static initialiser `current_state = GAMESTATE_MENU`. */
    constructor ()
      ensures current == Menu
    {
      current := Menu;
    }

    /** `set_state` has no guard: any state may follow any other. */
    method SetState(newState: State)
      modifies this
      ensures current == newState
    {
      current := newState;
    }

    /** `get_state` returns the stored value and changes nothing. */
    method GetState() returns (s: State)
      ensures s == current
    {
      s := current;
    }
  }
}
