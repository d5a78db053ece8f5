/** The per-tick player update of the game (src/game/game.c). */
module Game {
  import opened GameState

  const ScreenWidth := 128
  const PlayerY := 150
  const PlayerWidth := 10
  /** Pixels the player moves per unit of `move_dir`. */
  const PlayerStep := 4
  /** Pixels the player's bullet climbs per update. */
  const BulletStep := 5
  /** The right-most player position, SCREEN_WIDTH - PLAYER_WIDTH. */
  const MaxPlayerX := ScreenWidth - PlayerWidth

  /** The three statics `player_x`, `bullet_x`, `bullet_y` as one value. */
  datatype Player = Player(x: int, bulletX: int, bulletY: int)

  /** The static initial values of game.c. */
  const InitialPlayer := Player(60, -1, -1)

  /** What `bullet_y` can hold: -1 (no bullet), or a multiple of 5 between 0 and 145. */
  predicate BulletInvariant(y: int) {
    y == -1 || (0 <= y <= PlayerY - BulletStep && y % BulletStep == 0)
  }

  /** A shot starts when fire is set and no bullet is in flight. */
  predicate StartsShot(p: Player, fire: int) {
    fire != 0 && p.bulletY < 0
  }

  /** One PLAYING tick of `game_update`: move and clamp, maybe fire, advance the bullet. */
  function Tick(p: Player, moveDir: int, fire: int): (r: Player)
    ensures 0 <= r.x <= MaxPlayerX
    ensures 0 <= p.x + PlayerStep * moveDir <= MaxPlayerX ==> r.x == p.x + PlayerStep * moveDir
    ensures p.x + PlayerStep * moveDir < 0 ==> r.x == 0
    ensures p.x + PlayerStep * moveDir > MaxPlayerX ==> r.x == MaxPlayerX
    ensures StartsShot(p, fire) ==> r.bulletX == r.x + PlayerWidth / 2 && r.bulletY == PlayerY - BulletStep
    ensures !StartsShot(p, fire) ==> r.bulletX == p.bulletX
    ensures !StartsShot(p, fire) && p.bulletY >= BulletStep ==> r.bulletY == p.bulletY - BulletStep
    ensures !StartsShot(p, fire) && 0 <= p.bulletY < BulletStep ==> r.bulletY == -1
    ensures !StartsShot(p, fire) && p.bulletY < 0 ==> r.bulletY == p.bulletY
    ensures BulletInvariant(p.bulletY) ==> BulletInvariant(r.bulletY)
  {
    var moved := p.x + moveDir * PlayerStep;
    var x := if moved < 0 then 0 else if moved > MaxPlayerX then MaxPlayerX else moved;
    var shot := StartsShot(p, fire);
    var bx := if shot then x + PlayerWidth / 2 else p.bulletX;
    var y := if shot then PlayerY else p.bulletY;
    var y' := if y >= 0 then (if y - BulletStep < 0 then -1 else y - BulletStep) else y;
    Player(x, bx, y')
  }

  /** The statics of game.c, next to the shared game state they consult. */
  class Game {
    var playerX: int
    var bulletX: int
    var bulletY: int
    /** The global `current_state` of gamestate.c. */
    const store: StateStore

    function Snapshot(): Player
      reads this
    {
      Player(playerX, bulletX, bulletY)
    }

    /** Holds from the initial values on and is kept by every update. */
    ghost predicate Valid()
      reads this
    {
      0 <= playerX <= MaxPlayerX && BulletInvariant(bulletY)
    }

    constructor (s: StateStore)
      ensures store == s && Snapshot() == InitialPlayer && Valid()
    {
      store := s;
      playerX, bulletX, bulletY := 60, -1, -1;
    }

    /** `game_init`: of its display calls only the `set_state(GAMESTATE_MENU)` is modelled. */
    method Init()
      modifies store
      ensures store.current == Menu
    {
      store.SetState(Menu);
    }

    /** `game_update(move_dir, fire)`: nothing happens outside PLAYING. */
    method Update(moveDir: int, fire: int)
      requires Valid()
      modifies this
      ensures Valid()
      ensures store.current == Playing ==> Snapshot() == Tick(old(Snapshot()), moveDir, fire)
      ensures store.current != Playing ==> Snapshot() == old(Snapshot())
    {
      var state := store.GetState();
      if state != Playing {
        return;
      }
      playerX := playerX + moveDir * PlayerStep;
      if playerX < 0 {
        playerX := 0;
      }
      if playerX > MaxPlayerX {
        playerX := MaxPlayerX;
      }
      if fire != 0 && bulletY < 0 {
        bulletX := playerX + PlayerWidth / 2;
        bulletY := PlayerY;
      }
      if bulletY >= 0 {
        bulletY := bulletY - BulletStep;
        if bulletY < 0 {
          bulletY := -1;
        }
      }
    }
  }
}
