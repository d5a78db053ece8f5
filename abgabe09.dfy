/** One iteration of the polling loop of the game demo (src/demos/Abgabe_09.c):
    sampled buttons and joystick become `(move, fire)`, MENU turns into PLAYING
    on any movement, then the game is updated. */
module Abgabe09 {
  import opened GameState
  import opened Game
  import Joystick

  /** Levels read by `gpio_get` on the four button pins. The pins are pulled up,
      so `false` means pressed. The bottom button is configured but never read. */
  datatype Buttons = Buttons(left: bool, right: bool, top: bool, bottom: bool)

  /** The joystick's say on `move` when no button overrides it: the axis is inverted. */
  function StickMove(xNorm: real): (m: int)
    ensures m == 1 <==> xNorm < -0.5
    ensures m == -1 <==> xNorm > 0.5
    ensures m == 0 <==> -0.5 <= xNorm <= 0.5
  {
    if xNorm > 0.5 then -1 else if xNorm < -0.5 then 1 else 0
  }

  /** The chain of assignments that resolves `move` and `fire`: joystick first,
      then the left button, then the right button, each overriding the last. */
  method ResolveInput(xNorm: real, pins: Buttons) returns (move: int, fire: int)
    ensures -1 <= move <= 1 && 0 <= fire <= 1
    ensures !pins.right ==> move == 1
    ensures pins.right && !pins.left ==> move == -1
    ensures pins.right && pins.left ==> move == StickMove(xNorm)
    ensures fire == 1 <==> !pins.top
  {
    move := 0;
    fire := 0;
    if xNorm < -0.5 {
      move := 1;
    }
    if xNorm > 0.5 {
      move := -1;
    }
    if !pins.left {
      move := -1;
    }
    if !pins.right {
      move := 1;
    }
    if !pins.top {
      fire := 1;
    }
  }

  /** The body of the `while (true)` loop for one sampled joystick event and button
      state; `sleep_ms(50)` is left out. */
  method Iteration(store: StateStore, game: Game, event: Joystick.Event, pins: Buttons)
    returns (move: int, fire: int)
    requires game.store == store && game.Valid()
    modifies store, game
    ensures -1 <= move <= 1 && 0 <= fire <= 1
    ensures pins.right && pins.left ==> move == StickMove(event.xNorm)
    ensures !pins.right ==> move == 1
    ensures pins.right && !pins.left ==> move == -1
    ensures fire == 1 <==> !pins.top
    ensures store.current == if old(store.current) == Menu && move != 0 then Playing else old(store.current)
    ensures game.Valid()
    ensures game.Snapshot() ==
      if store.current == Playing then Tick(old(game.Snapshot()), move, fire) else old(game.Snapshot())
  {
    move, fire := ResolveInput(event.xNorm, pins);
    var state := store.GetState();
    if state == Menu && move != 0 {
      store.SetState(Playing);
    }
    game.Update(move, fire);
  }
}
