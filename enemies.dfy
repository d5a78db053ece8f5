/** The enemy formation and its bullets (src/game/enemies.c): a fixed pool of
    40 enemy slots and 6 bullet slots, marching in lock-step, dropping at the
    screen edges and shooting at random. Time enters as the `now` value and the
    two intervals; `rand()` enters as the sequence of values it would return. */
module Enemies {
  import opened Util

  const ScreenWidth := 128
  const MaxEnemyRows := 5
  const MaxEnemyCols := 8
  const MaxEnemies := MaxEnemyRows * MaxEnemyCols
  const MaxEnemyBullets := 6

  const EnemyWidth := 10
  const EnemyHeight := 6
  const BulletWidth := 2
  const BulletHeight := 6

  /** Grid origin and pitch of `enemies_init_dynamic`. */
  const GridX := 10
  const GridY := 20
  const GridDx := 14
  const GridDy := 12

  /** Horizontal step per unit of direction, and the drop at an edge. */
  const MarchStep := 2
  const DropStep := 4
  /** A bullet spawns at the enemy position plus this offset. */
  const MuzzleDx := 4
  const MuzzleDy := 6
  /** Enemy bullets fall by this much per update and die below this line. */
  const BulletSpeed := 4
  const BulletFloor := 160
  /** Random draws per shot attempt. */
  const ShotTries := 10

  datatype Enemy = Enemy(x: int, y: int, alive: bool)
  datatype EnemyBullet = EnemyBullet(x: int, y: int, active: bool)

  /** The statics of enemies.c as one value. */
  datatype FormationState = FormationState(
    enemies: seq<Enemy>, bullets: seq<EnemyBullet>,
    dir: int, activeEnemies: int, lastMove: int, lastShot: int)

  /** Number of alive slots. */
  function AliveCount(es: seq<Enemy>): nat
  {
    if |es| == 0 then 0
    else AliveCount(es[..|es| - 1]) + (if es[|es| - 1].alive then 1 else 0)
  }

  /** The invariant of the module state: pool sizes, a unit direction, and the
      kill counter `active_enemies` equal to the number of alive slots. */
  ghost predicate WellFormed(s: FormationState)
  {
    |s.enemies| == MaxEnemies && |s.bullets| == MaxEnemyBullets &&
    (s.dir == 1 || s.dir == -1) && s.activeEnemies == AliveCount(s.enemies)
  }

  // ---------------------------------------------------------------- counting

  lemma {:induction false} AliveCountSameFlags(a: seq<Enemy>, b: seq<Enemy>)
    requires |a| == |b|
    requires forall k :: 0 <= k < |a| ==> a[k].alive == b[k].alive
    ensures AliveCount(a) == AliveCount(b)
  {
    if |a| > 0 {
      AliveCountSameFlags(a[..|a| - 1], b[..|b| - 1]);
    }
  }

  lemma {:induction false} AliveCountKill(a: seq<Enemy>, i: int)
    requires 0 <= i < |a| && a[i].alive
    ensures AliveCount(a[i := a[i].(alive := false)]) == AliveCount(a) - 1
  {
    var b := a[i := a[i].(alive := false)];
    if i == |a| - 1 {
      assert b[..|b| - 1] == a[..|a| - 1];
    } else {
      assert b[..|b| - 1] == a[..|a| - 1][i := a[i].(alive := false)];
      AliveCountKill(a[..|a| - 1], i);
    }
  }

  lemma {:induction false} AliveCountExact(a: seq<Enemy>, n: int)
    requires 0 <= n <= |a|
    requires forall k :: 0 <= k < |a| ==> (a[k].alive <==> k < n)
    ensures AliveCount(a) == n
  {
    if |a| > 0 {
      if n == |a| {
        AliveCountExact(a[..|a| - 1], n - 1);
      } else {
        AliveCountExact(a[..|a| - 1], n);
      }
    }
  }

  lemma {:induction false} AliveCountZero(a: seq<Enemy>)
    ensures AliveCount(a) == 0 <==> forall k :: 0 <= k < |a| ==> !a[k].alive
  {
    if |a| > 0 {
      AliveCountZero(a[..|a| - 1]);
      assert forall k :: 0 <= k < |a| - 1 ==> a[..|a| - 1][k] == a[k];
    }
  }

  // ---------------------------------------------------------------- the grid

  /** The enemy that `enemies_init_dynamic` places in slot `i` of a grid with `cols` columns. */
  function GridEnemy(i: int, cols: int): Enemy
    requires cols > 0
  {
    Enemy(GridX + GridDx * (i % cols), GridY + GridDy * (i / cols), true)
  }

  /** The slot `enemies_init_dynamic` gives the enemy of row r and column c. */
  function Slot(r: int, c: int, cols: int): int
  {
    r * cols + c
  }

  /** The enemy pool after `enemies_init_dynamic(rows, cols)`: the first rows*cols
      slots form the grid, every other slot is dead and keeps its old position. */
  function Layout(es: seq<Enemy>, rows: int, cols: int): seq<Enemy>
  {
    seq(|es|, i requires 0 <= i < |es| =>
      if cols > 0 && i < rows * cols then GridEnemy(i, cols) else es[i].(alive := false))
  }

  function Deactivated(bs: seq<EnemyBullet>): seq<EnemyBullet>
  {
    seq(|bs|, i requires 0 <= i < |bs| => bs[i].(active := false))
  }

  function InitSpec(s: FormationState, rows: int, cols: int, now: int): FormationState
  {
    FormationState(Layout(s.enemies, rows, cols), Deactivated(s.bullets), 1, rows * cols, now, now)
  }

  lemma MulMonotone(a: int, b: int, k: int)
    requires 0 <= a <= b && 0 <= k
    ensures a * k <= b * k
  {
  }

  /** Division by the column count recovers row and column. */
  lemma DivModUnique(r: int, c: int, cols: int)
    requires cols > 0 && 0 <= c < cols
    ensures (r * cols + c) / cols == r && (r * cols + c) % cols == c
  {
    var i := r * cols + c;
    var q, m := i / cols, i % cols;
    assert q * cols + m == r * cols + c;
    assert (q - r) * cols == c - m;
    if q > r {
      MulMonotone(1, q - r, cols);
    } else if q < r {
      MulMonotone(1, r - q, cols);
    }
  }

  /** Slot r*cols+c holds the enemy of row r and column c. */
  lemma GridSlot(rows: int, cols: int, r: int, c: int)
    requires 0 <= r < rows && 0 <= c < cols
    ensures 0 <= r * cols + c < rows * cols
    ensures GridEnemy(r * cols + c, cols) == Enemy(GridX + GridDx * c, GridY + GridDy * r, true)
  {
    MulMonotone(r + 1, rows, cols);
    assert (r + 1) * cols == r * cols + cols;
    MulMonotone(0, r, cols);
    DivModUnique(r, c, cols);
  }

  /** After the layout, slot r*cols+c of the pool holds the enemy of row r and column c. */
  lemma LayoutSlot(es: seq<Enemy>, rows: int, cols: int, r: int, c: int)
    requires 0 <= r < rows && 0 <= c < cols && rows * cols <= |es|
    ensures 0 <= Slot(r, c, cols) < |es|
    ensures Layout(es, rows, cols)[Slot(r, c, cols)] == Enemy(GridX + GridDx * c, GridY + GridDy * r, true)
  {
    GridSlot(rows, cols, r, c);
  }

  /** After the layout, every cell of the rows x cols grid is in its slot. */
  lemma LayoutGrid(es: seq<Enemy>, rows: int, cols: int)
    requires 0 <= rows && 0 <= cols && rows * cols <= |es|
    ensures forall r, c :: 0 <= r < rows && 0 <= c < cols ==>
      0 <= Slot(r, c, cols) < |es| &&
      Layout(es, rows, cols)[Slot(r, c, cols)] == Enemy(GridX + GridDx * c, GridY + GridDy * r, true)
  {
    forall r, c | 0 <= r < rows && 0 <= c < cols
      ensures 0 <= Slot(r, c, cols) < |es| &&
        Layout(es, rows, cols)[Slot(r, c, cols)] == Enemy(GridX + GridDx * c, GridY + GridDy * r, true)
    {
      LayoutSlot(es, rows, cols, r, c);
    }
  }

  /** Row `r` of the grid occupies slots r*cols up to (r+1)*cols. */
  lemma RowBounds(rows: int, cols: int, r: int)
    requires 0 <= r < rows && 0 <= cols
    ensures 0 <= r * cols && r * cols + cols == (r + 1) * cols <= rows * cols
  {
    MulMonotone(r + 1, rows, cols);
    MulMonotone(0, r, cols);
  }

  /** No two slots of the grid share a position. */
  lemma GridDistinct(cols: int, i: int, j: int)
    requires cols > 0 && 0 <= i && 0 <= j && i != j
    ensures GridEnemy(i, cols).x != GridEnemy(j, cols).x || GridEnemy(i, cols).y != GridEnemy(j, cols).y
  {
    assert i == (i / cols) * cols + i % cols;
    assert j == (j / cols) * cols + j % cols;
  }

  /** What `enemies_init_dynamic` promises: exactly the first rows*cols slots are
      alive and on the grid, all bullets are inactive, the direction is +1 and the
      counter matches. */
  lemma {:induction false} InitSpecCorrect(s: FormationState, rows: int, cols: int, now: int)
    requires |s.enemies| == MaxEnemies && |s.bullets| == MaxEnemyBullets
    requires 0 <= rows && 0 <= cols && rows * cols <= MaxEnemies
    ensures var t := InitSpec(s, rows, cols, now);
      && WellFormed(t)
      && t.activeEnemies == rows * cols
      && (forall i :: 0 <= i < MaxEnemies ==> (t.enemies[i].alive <==> i < rows * cols))
      && (forall i :: rows * cols <= i < MaxEnemies ==>
            t.enemies[i].x == s.enemies[i].x && t.enemies[i].y == s.enemies[i].y)
      && (forall r, c :: 0 <= r < rows && 0 <= c < cols ==>
            0 <= Slot(r, c, cols) < MaxEnemies &&
            t.enemies[Slot(r, c, cols)] == Enemy(GridX + GridDx * c, GridY + GridDy * r, true))
      && (forall b :: 0 <= b < MaxEnemyBullets ==> !t.bullets[b].active)
      && t.dir == 1 && t.lastMove == now && t.lastShot == now
  {
    var t := InitSpec(s, rows, cols, now);
    assert rows * cols > 0 ==> cols > 0;
    AliveCountExact(t.enemies, rows * cols);
    LayoutGrid(s.enemies, rows, cols);
  }

  // ---------------------------------------------------------------- movement

  predicate Due(last: int, now: int, interval: int)
  {
    now - last >= interval
  }

  function Marched(e: Enemy, dx: int): Enemy
  {
    if e.alive then e.(x := e.x + dx) else e
  }

  function Lowered(e: Enemy, dy: int): Enemy
  {
    if e.alive then e.(y := e.y + dy) else e
  }

  function Shift(es: seq<Enemy>, dx: int): seq<Enemy>
  {
    seq(|es|, i requires 0 <= i < |es| => Marched(es[i], dx))
  }

  function Lower(es: seq<Enemy>, dy: int): seq<Enemy>
  {
    seq(|es|, i requires 0 <= i < |es| => Lowered(es[i], dy))
  }

  /** An alive enemy on or beyond the left or right edge. */
  predicate AtEdge(e: Enemy)
  {
    e.alive && (e.x <= 0 || e.x >= ScreenWidth - EnemyWidth)
  }

  predicate AnyAtEdge(es: seq<Enemy>)
  {
    exists i :: 0 <= i < |es| && AtEdge(es[i])
  }

  /** The movement phase of `enemies_update`. */
  function MoveSpec(s: FormationState, now: int, moveInterval: int): FormationState
  {
    if !Due(s.lastMove, now, moveInterval) then s
    else
      var moved := Shift(s.enemies, MarchStep * s.dir);
      if AnyAtEdge(moved) then s.(enemies := Lower(moved, DropStep), dir := -s.dir, lastMove := now)
      else s.(enemies := moved, lastMove := now)
  }

  /** On a due movement tick every alive enemy moves by 2*dir; if one of them then
      touches an edge the direction flips and every alive enemy drops by 4. Dead
      enemies and alive flags never change, and the invariant is kept. */
  lemma MoveSpecCorrect(s: FormationState, now: int, moveInterval: int)
    requires WellFormed(s)
    ensures var t := MoveSpec(s, now, moveInterval);
      && WellFormed(t)
      && |t.enemies| == |s.enemies| && t.bullets == s.bullets && t.lastShot == s.lastShot
      && (forall i :: 0 <= i < MaxEnemies ==> t.enemies[i].alive == s.enemies[i].alive)
      && (forall i :: 0 <= i < MaxEnemies && !s.enemies[i].alive ==> t.enemies[i] == s.enemies[i])
      && (!Due(s.lastMove, now, moveInterval) ==> t == s)
      && (Due(s.lastMove, now, moveInterval) ==>
            t.lastMove == now
            && (forall i :: 0 <= i < MaxEnemies && s.enemies[i].alive ==>
                  t.enemies[i].x == s.enemies[i].x + MarchStep * s.dir)
            && (AnyAtEdge(Shift(s.enemies, MarchStep * s.dir)) ==>
                  t.dir == -s.dir
                  && forall i :: 0 <= i < MaxEnemies && s.enemies[i].alive ==>
                       t.enemies[i].y == s.enemies[i].y + DropStep)
            && (!AnyAtEdge(Shift(s.enemies, MarchStep * s.dir)) ==>
                  t.dir == s.dir
                  && forall i :: 0 <= i < MaxEnemies ==> t.enemies[i].y == s.enemies[i].y))
  {
    var t := MoveSpec(s, now, moveInterval);
    AliveCountSameFlags(s.enemies, t.enemies);
  }

  // ---------------------------------------------------------------- shooting

  function FreeSlot(bs: seq<EnemyBullet>): Option<nat>
  {
    FirstIndex(bs, (b: EnemyBullet) => !b.active)
  }

  /** The first draw that names an alive enemy (the index is `rand() % MAX_ENEMIES`). */
  function Shooter(es: seq<Enemy>, draws: seq<nat>): Option<nat>
    requires |es| == MaxEnemies
  {
    FirstIndex(draws, (d: nat) => es[d % MaxEnemies].alive)
  }

  /** The shooting phase of `enemies_update`: the new state, whether a bullet was
      fired (the function then returns early), and how many draws were made. */
  function ShootSpec(s: FormationState, now: int, shotInterval: int, draws: seq<nat>): (FormationState, bool, nat)
    requires WellFormed(s) && |draws| == ShotTries
  {
    if !Due(s.lastShot, now, shotInterval) then (s, false, 0)
    else match (FreeSlot(s.bullets), Shooter(s.enemies, draws))
      case (Some(b), Some(k)) =>
        var e := s.enemies[draws[k] % MaxEnemies];
        (s.(bullets := s.bullets[b := EnemyBullet(e.x + MuzzleDx, e.y + MuzzleDy, true)], lastShot := now),
         true, k + 1)
      case _ => (s, false, ShotTries)
  }

  /** At most 10 draws; a shot uses the lowest free slot and the first alive drawn
      enemy, spawning at its muzzle; only a shot resets the shot timer; enemies
      never change. */
  lemma ShootSpecCorrect(s: FormationState, now: int, shotInterval: int, draws: seq<nat>)
    requires WellFormed(s) && |draws| == ShotTries
    ensures var (t, fired, used) := ShootSpec(s, now, shotInterval, draws);
      && WellFormed(t)
      && used <= ShotTries
      && t.enemies == s.enemies && t.dir == s.dir && t.lastMove == s.lastMove
      && t.activeEnemies == s.activeEnemies
      && (!fired ==> t == s)
      && (fired <==> Due(s.lastShot, now, shotInterval)
                     && (exists b :: 0 <= b < MaxEnemyBullets && !s.bullets[b].active)
                     && (exists k :: 0 <= k < ShotTries && s.enemies[draws[k] % MaxEnemies].alive))
      && (fired ==>
            var b := FreeSlot(s.bullets).value;
            var e := s.enemies[draws[used - 1] % MaxEnemies];
            && 1 <= used
            && e.alive
            && (forall k :: 0 <= k < used - 1 ==> !s.enemies[draws[k] % MaxEnemies].alive)
            && !s.bullets[b].active
            && (forall j :: 0 <= j < b ==> s.bullets[j].active)
            && t.bullets == s.bullets[b := EnemyBullet(e.x + MuzzleDx, e.y + MuzzleDy, true)]
            && t.lastShot == now)
  {
  }

  // ---------------------------------------------------------------- bullets

  function Fallen(b: EnemyBullet): EnemyBullet
  {
    if b.active then b.(y := b.y + BulletSpeed, active := b.y + BulletSpeed <= BulletFloor) else b
  }

  function Advance(bs: seq<EnemyBullet>): seq<EnemyBullet>
  {
    seq(|bs|, i requires 0 <= i < |bs| => Fallen(bs[i]))
  }

  /** Every active bullet falls by 4 and turns inactive exactly when its new y is
      past 160; inactive bullets stay as they are. */
  lemma AdvanceCorrect(bs: seq<EnemyBullet>)
    ensures |Advance(bs)| == |bs|
    ensures forall i :: 0 <= i < |bs| && bs[i].active ==>
      Advance(bs)[i].x == bs[i].x && Advance(bs)[i].y == bs[i].y + BulletSpeed
      && (Advance(bs)[i].active <==> bs[i].y + BulletSpeed <= BulletFloor)
    ensures forall i :: 0 <= i < |bs| && !bs[i].active ==> Advance(bs)[i] == bs[i]
  {
  }

  /** One call of `enemies_update`: movement, then shooting, then (unless a shot
      returned early) the bullet phase. The second component counts the draws. */
  function UpdateSpec(s: FormationState, now: int, moveInterval: int, shotInterval: int, draws: seq<nat>)
    : (FormationState, nat)
    requires WellFormed(s) && |draws| == ShotTries
  {
    var m := MoveSpec(s, now, moveInterval);
    MoveSpecCorrect(s, now, moveInterval);
    var (t, fired, used) := ShootSpec(m, now, shotInterval, draws);
    (if fired then t else t.(bullets := Advance(t.bullets)), used)
  }

  /** `enemies_update` keeps the invariant, never changes alive flags or the
      counter, and a shot means the bullets do not move in that call. */
  lemma UpdateSpecCorrect(s: FormationState, now: int, moveInterval: int, shotInterval: int, draws: seq<nat>)
    requires WellFormed(s) && |draws| == ShotTries
    ensures var (t, used) := UpdateSpec(s, now, moveInterval, shotInterval, draws);
      && WellFormed(t)
      && used <= ShotTries
      && t.activeEnemies == s.activeEnemies
      && (forall i :: 0 <= i < MaxEnemies ==> t.enemies[i].alive == s.enemies[i].alive)
      && var m := MoveSpec(s, now, moveInterval);
         var (u, fired, _) := ShootSpec(m, now, shotInterval, draws);
         (fired ==> t.bullets == u.bullets) && (!fired ==> t.bullets == Advance(m.bullets))
  {
    var m := MoveSpec(s, now, moveInterval);
    MoveSpecCorrect(s, now, moveInterval);
    ShootSpecCorrect(m, now, shotInterval, draws);
  }

  // ---------------------------------------------------------------- collisions

  /** The closed-interval hit box of `enemies_check_bullet_hits`. */
  predicate HitBy(e: Enemy, x: int, y: int)
  {
    e.alive && e.x <= x <= e.x + EnemyWidth && e.y <= y <= e.y + EnemyHeight
  }

  function BulletHitSpec(s: FormationState, x: int, y: int, active: bool): (FormationState, bool)
  {
    match FirstIndex(s.enemies, (e: Enemy) => HitBy(e, x, y))
    case None => (s, active)
    case Some(i) =>
      (s.(enemies := s.enemies[i := s.enemies[i].(alive := false)], activeEnemies := s.activeEnemies - 1), false)
  }

  /** The first alive enemy whose box holds the point dies, the counter drops by
      one and the caller's bullet is deactivated; on a miss nothing changes. */
  lemma BulletHitSpecCorrect(s: FormationState, x: int, y: int, active: bool)
    requires WellFormed(s)
    ensures var (t, active') := BulletHitSpec(s, x, y, active);
      && WellFormed(t)
      && t.bullets == s.bullets && t.dir == s.dir && t.lastMove == s.lastMove && t.lastShot == s.lastShot
      && ((forall i :: 0 <= i < MaxEnemies ==> !HitBy(s.enemies[i], x, y)) ==> t == s && active' == active)
      && (forall i :: (0 <= i < MaxEnemies && HitBy(s.enemies[i], x, y)
                       && forall j :: 0 <= j < i ==> !HitBy(s.enemies[j], x, y)) ==>
            t.enemies == s.enemies[i := s.enemies[i].(alive := false)]
            && t.activeEnemies == s.activeEnemies - 1 && !active')
  {
    match FirstIndex(s.enemies, (e: Enemy) => HitBy(e, x, y))
    case None =>
    case Some(i) => AliveCountKill(s.enemies, i);
  }

  /** Hitting the same point twice: the second call finds the enemy dead. */
  lemma BulletHitTwice(s: FormationState, x: int, y: int, active: bool, i: int)
    requires WellFormed(s) && 0 <= i < MaxEnemies
    requires HitBy(s.enemies[i], x, y)
    requires forall j :: 0 <= j < MaxEnemies && j != i ==> !HitBy(s.enemies[j], x, y)
    ensures var (t, _) := BulletHitSpec(s, x, y, active);
      BulletHitSpec(t, x, y, active) == (t, active) && !t.enemies[i].alive
  {
    var (t, _) := BulletHitSpec(s, x, y, active);
    assert forall j :: 0 <= j < MaxEnemies ==> !HitBy(t.enemies[j], x, y);
  }

  /** Strict overlap of a 2x6 bullet box with the player's box. */
  predicate Overlaps(b: EnemyBullet, px: int, py: int, pw: int, ph: int)
  {
    b.active && px < b.x + BulletWidth && px + pw > b.x && py < b.y + BulletHeight && py + ph > b.y
  }

  function PlayerHitSpec(s: FormationState, px: int, py: int, pw: int, ph: int): (FormationState, bool)
  {
    match FirstIndex(s.bullets, (b: EnemyBullet) => Overlaps(b, px, py, pw, ph))
    case None => (s, false)
    case Some(i) => (s.(bullets := s.bullets[i := s.bullets[i].(active := false)]), true)
  }

  /** Only the first overlapping bullet is deactivated, and a miss changes nothing. */
  lemma PlayerHitSpecCorrect(s: FormationState, px: int, py: int, pw: int, ph: int)
    requires WellFormed(s)
    ensures var (t, hit) := PlayerHitSpec(s, px, py, pw, ph);
      && WellFormed(t)
      && t.enemies == s.enemies && t.activeEnemies == s.activeEnemies
      && (hit <==> exists i :: 0 <= i < MaxEnemyBullets && Overlaps(s.bullets[i], px, py, pw, ph))
      && (!hit ==> t == s)
      && (forall i :: (0 <= i < MaxEnemyBullets && Overlaps(s.bullets[i], px, py, pw, ph)
                       && forall j :: 0 <= j < i ==> !Overlaps(s.bullets[j], px, py, pw, ph)) ==>
            t.bullets == s.bullets[i := s.bullets[i].(active := false)])
  {
  }

  // ---------------------------------------------------------------- the statics

  /** The statics `enemies`, `enemy_bullets`, `enemy_dir`, `active_enemies`,
      `last_enemy_move` and `last_enemy_shot`. */
  class Formation {
    const enemies: array<Enemy>
    const bullets: array<EnemyBullet>
    var dir: int
    var activeEnemies: int
    var lastMove: int
    var lastShot: int

    function Snapshot(): FormationState
      reads this, enemies, bullets
    {
      FormationState(enemies[..], bullets[..], dir, activeEnemies, lastMove, lastShot)
    }

    ghost predicate Valid()
      reads this, enemies, bullets
    {
      WellFormed(Snapshot())
    }

    /** The zero-initialised statics with `enemy_dir = 1`. */
    constructor ()
      ensures Valid() && fresh(enemies) && fresh(bullets)
      ensures forall i :: 0 <= i < MaxEnemies ==> enemies[i] == Enemy(0, 0, false)
      ensures forall i :: 0 <= i < MaxEnemyBullets ==> bullets[i] == EnemyBullet(0, 0, false)
      ensures dir == 1 && activeEnemies == 0 && lastMove == 0 && lastShot == 0
    {
      enemies := new Enemy[MaxEnemies](_ => Enemy(0, 0, false));
      bullets := new EnemyBullet[MaxEnemyBullets](_ => EnemyBullet(0, 0, false));
      dir, activeEnemies, lastMove, lastShot := 1, 0, 0, 0;
      new;
      AliveCountExact(enemies[..], 0);
    }

    /** The first loop of `enemies_init_dynamic`: every slot dies. */
    method KillAll()
      modifies enemies
      ensures forall k :: 0 <= k < enemies.Length ==> enemies[k] == old(enemies[k]).(alive := false)
    {
      for i := 0 to enemies.Length
        invariant forall k :: 0 <= k < i ==> enemies[k] == old(enemies[k]).(alive := false)
        invariant forall k :: i <= k < enemies.Length ==> enemies[k] == old(enemies[k])
      {
        enemies[i] := enemies[i].(alive := false);
      }
    }

    /** The nested row/column loops of `enemies_init_dynamic`. */
    method FillGrid(rows: int, cols: int)
      requires 0 <= rows && 0 <= cols && rows * cols <= enemies.Length
      modifies enemies
      ensures forall k :: 0 <= k < enemies.Length ==>
        enemies[k] == if k < rows * cols then GridEnemy(k, cols) else old(enemies[k])
    {
      var index := 0;
      for r := 0 to rows
        invariant index == r * cols && index <= rows * cols
        invariant forall k :: 0 <= k < enemies.Length ==>
          enemies[k] == if k < index then GridEnemy(k, cols) else old(enemies[k])
      {
        RowBounds(rows, cols, r);
        index := FillRow(rows, cols, r, index);
      }
    }

    /** The column loop for row `r`, which starts at slot `index`. */
    method FillRow(rows: int, cols: int, r: int, index: int) returns (next: int)
      requires 0 <= r < rows && 0 <= cols && index == r * cols
      requires 0 <= index && index + cols <= rows * cols <= enemies.Length
      modifies enemies
      ensures next == index + cols
      ensures forall k :: 0 <= k < enemies.Length ==>
        enemies[k] == if index <= k < next then GridEnemy(k, cols) else old(enemies[k])
    {
      next := index;
      for c := 0 to cols
        invariant next == index + c
        invariant forall k :: 0 <= k < enemies.Length ==>
          enemies[k] == if index <= k < next then GridEnemy(k, cols) else old(enemies[k])
      {
        GridSlot(rows, cols, r, c);
        enemies[next] := Enemy(GridX + c * GridDx, GridY + r * GridDy, true);
        next := next + 1;
      }
    }

    /** The bullet loop of `enemies_init_dynamic`. */
    method DeactivateBullets()
      modifies bullets
      ensures bullets[..] == Deactivated(old(bullets[..]))
    {
      for i := 0 to bullets.Length
        invariant forall k :: 0 <= k < i ==> bullets[k] == old(bullets[k]).(active := false)
        invariant forall k :: i <= k < bullets.Length ==> bullets[k] == old(bullets[k])
      {
        bullets[i] := bullets[i].(active := false);
      }
    }

    /** `enemies_init_dynamic(rows, cols)` at time `now`. */
    method InitDynamic(rows: int, cols: int, now: int)
      requires Valid()
      requires 0 <= rows && 0 <= cols && rows * cols <= MaxEnemies
      modifies this, enemies, bullets
      ensures Valid()
      ensures Snapshot() == InitSpec(old(Snapshot()), rows, cols, now)
    {
      activeEnemies := rows * cols;
      KillAll();
      FillGrid(rows, cols);
      DeactivateBullets();
      dir := 1;
      lastMove := now;
      lastShot := now;
      assert enemies[..] == Layout(old(enemies[..]), rows, cols);
      InitSpecCorrect(old(Snapshot()), rows, cols, now);
    }

    /** `enemies_init`: one row of three. */
    method Init(now: int)
      requires Valid()
      modifies this, enemies, bullets
      ensures Valid()
      ensures Snapshot() == InitSpec(old(Snapshot()), 1, 3, now)
    {
      InitDynamic(1, 3, now);
    }

    /** The movement phase: march, and at an edge flip and drop. */
    method March(now: int, moveInterval: nat)
      requires Valid()
      modifies this, enemies
      ensures Valid() && Snapshot() == MoveSpec(old(Snapshot()), now, moveInterval)
    {
      if now - lastMove >= moveInterval {
        var edge := MarchAll(dir * MarchStep);
        if edge {
          dir := -dir;
          DropAll(DropStep);
        }
        lastMove := now;
      }
      MoveSpecCorrect(old(Snapshot()), now, moveInterval);
    }

    /** The first loop of the movement phase: every alive enemy moves by `dx`;
        `edge` says whether one of them then touches an edge. */
    method MarchAll(dx: int) returns (edge: bool)
      requires enemies.Length == MaxEnemies
      modifies enemies
      ensures enemies[..] == Shift(old(enemies[..]), dx)
      ensures edge <==> AnyAtEdge(enemies[..])
    {
      edge := false;
      for i := 0 to MaxEnemies
        invariant forall k :: 0 <= k < i ==> enemies[k] == Marched(old(enemies[k]), dx)
        invariant forall k :: i <= k < MaxEnemies ==> enemies[k] == old(enemies[k])
        invariant edge <==> exists k :: 0 <= k < i && AtEdge(enemies[k])
      {
        if enemies[i].alive {
          enemies[i] := enemies[i].(x := enemies[i].x + dx);
          if enemies[i].x <= 0 || enemies[i].x >= ScreenWidth - EnemyWidth {
            edge := true;
          }
        }
      }
      assert enemies[..] == Shift(old(enemies[..]), dx);
    }

    /** The second loop of the movement phase: every alive enemy drops by `dy`. */
    method DropAll(dy: int)
      requires enemies.Length == MaxEnemies
      modifies enemies
      ensures enemies[..] == Lower(old(enemies[..]), dy)
    {
      for i := 0 to MaxEnemies
        invariant forall k :: 0 <= k < i ==> enemies[k] == Lowered(old(enemies[k]), dy)
        invariant forall k :: i <= k < MaxEnemies ==> enemies[k] == old(enemies[k])
      {
        if enemies[i].alive {
          enemies[i] := enemies[i].(y := enemies[i].y + dy);
        }
      }
      assert enemies[..] == Lower(old(enemies[..]), dy);
    }

    /** The shooting phase: up to 10 draws; the first alive drawn enemy fires into
        the lowest free bullet slot, and the caller then returns early. */
    method Shoot(now: int, shotInterval: nat, draws: seq<nat>) returns (fired: bool, used: nat)
      requires Valid() && |draws| == ShotTries
      modifies this, bullets
      ensures Valid()
      ensures (Snapshot(), fired, used) == ShootSpec(old(Snapshot()), now, shotInterval, draws)
    {
      fired, used := false, 0;
      if now - lastShot < shotInterval {
        return;
      }
      while used < ShotTries
        invariant used <= ShotTries
        invariant unchanged(this) && unchanged(bullets)
        invariant FreeSlot(bullets[..]).Some? ==>
          forall j :: 0 <= j < used ==> !enemies[draws[j] % MaxEnemies].alive
      {
        var i := draws[used] % MaxEnemies;
        used := used + 1;
        if enemies[i].alive {
          for b := 0 to MaxEnemyBullets
            invariant forall j :: 0 <= j < b ==> bullets[j].active
            invariant unchanged(this) && unchanged(bullets)
          {
            if !bullets[b].active {
              Fire(b, i, now, shotInterval, draws, used);
              fired := true;
              return;
            }
          }
        }
      }
      ShootSpecCorrect(Snapshot(), now, shotInterval, draws);
    }

    /** The spawn in the shooting phase: enemy `i`, named by draw `used - 1`, is
        the first alive one drawn and `b` is the lowest free bullet slot. */
    method Fire(b: nat, i: nat, now: int, ghost shotInterval: nat, ghost draws: seq<nat>, ghost used: nat)
      requires Valid() && |draws| == ShotTries && Due(lastShot, now, shotInterval)
      requires b < MaxEnemyBullets && !bullets[b].active
      requires forall j :: 0 <= j < b ==> bullets[j].active
      requires 1 <= used <= ShotTries && i == draws[used - 1] % MaxEnemies && enemies[i].alive
      requires forall j :: 0 <= j < used - 1 ==> !enemies[draws[j] % MaxEnemies].alive
      modifies this, bullets
      ensures Valid()
      ensures (Snapshot(), true, used) == ShootSpec(old(Snapshot()), now, shotInterval, draws)
    {
      assert FreeSlot(bullets[..]) == Some(b);
      assert Shooter(enemies[..], draws) == Some(used - 1);
      bullets[b] := EnemyBullet(enemies[i].x + MuzzleDx, enemies[i].y + MuzzleDy, true);
      lastShot := now;
      assert bullets[..] == old(bullets[..])[b := bullets[b]];
    }

    /** The bullet phase: every active bullet falls and dies past the floor. */
    method MoveBullets()
      requires Valid()
      modifies bullets
      ensures Valid() && Snapshot() == old(Snapshot()).(bullets := Advance(old(bullets[..])))
    {
      for i := 0 to MaxEnemyBullets
        invariant forall k :: 0 <= k < i ==> bullets[k] == Fallen(old(bullets[k]))
        invariant forall k :: i <= k < MaxEnemyBullets ==> bullets[k] == old(bullets[k])
      {
        if bullets[i].active {
          bullets[i] := bullets[i].(y := bullets[i].y + BulletSpeed);
          if bullets[i].y > BulletFloor {
            bullets[i] := bullets[i].(active := false);
          }
        }
      }
      assert bullets[..] == Advance(old(bullets[..]));
    }

    /** `enemies_update(move_interval, shot_interval)` at time `now`, with the
        values `rand()` would return; `used` is how many of them were drawn. */
    method Update(now: int, moveInterval: nat, shotInterval: nat, draws: seq<nat>) returns (used: nat)
      requires Valid() && |draws| == ShotTries
      modifies this, enemies, bullets
      ensures Valid()
      ensures (Snapshot(), used) == UpdateSpec(old(Snapshot()), now, moveInterval, shotInterval, draws)
    {
      March(now, moveInterval);
      var fired;
      fired, used := Shoot(now, shotInterval, draws);
      if !fired {
        MoveBullets();
      }
    }

    /** `enemies_check_bullet_hits(x, y, &active)`: returns the new value of `*active`. */
    method CheckBulletHits(x: int, y: int, active: bool) returns (active': bool)
      requires Valid()
      modifies this, enemies
      ensures Valid()
      ensures (Snapshot(), active') == BulletHitSpec(old(Snapshot()), x, y, active)
    {
      active' := active;
      for i := 0 to MaxEnemies
        invariant unchanged(this) && unchanged(enemies)
        invariant forall k :: 0 <= k < i ==> !HitBy(enemies[k], x, y)
      {
        if enemies[i].alive && x >= enemies[i].x && x <= enemies[i].x + EnemyWidth
           && y >= enemies[i].y && y <= enemies[i].y + EnemyHeight {
          Kill(i, x, y, active);
          active' := false;
          return;
        }
      }
      BulletHitSpecCorrect(Snapshot(), x, y, active);
    }

    /** The hit branch of `enemies_check_bullet_hits`: slot `i` is the first one
        whose box holds the point, and it dies. */
    method Kill(i: nat, ghost x: int, ghost y: int, ghost active: bool)
      requires Valid() && i < MaxEnemies && HitBy(enemies[i], x, y)
      requires forall k :: 0 <= k < i ==> !HitBy(enemies[k], x, y)
      modifies this, enemies
      ensures Valid()
      ensures (Snapshot(), false) == BulletHitSpec(old(Snapshot()), x, y, active)
    {
      BulletHitSpecCorrect(Snapshot(), x, y, active);
      enemies[i] := enemies[i].(alive := false);
      activeEnemies := activeEnemies - 1;
      assert enemies[..] == old(enemies[..])[i := old(enemies[i]).(alive := false)];
    }

    /** `enemies_check_player_hit(px, py, pw, ph)`. */
    method CheckPlayerHit(px: int, py: int, pw: int, ph: int) returns (hit: bool)
      requires Valid()
      modifies bullets
      ensures Valid()
      ensures (Snapshot(), hit) == PlayerHitSpec(old(Snapshot()), px, py, pw, ph)
    {
      PlayerHitSpecCorrect(Snapshot(), px, py, pw, ph);
      for i := 0 to MaxEnemyBullets
        invariant Snapshot() == old(Snapshot())
        invariant forall k :: 0 <= k < i ==> !Overlaps(bullets[k], px, py, pw, ph)
      {
        if bullets[i].active && px < bullets[i].x + BulletWidth && px + pw > bullets[i].x
           && py < bullets[i].y + BulletHeight && py + ph > bullets[i].y {
          bullets[i] := bullets[i].(active := false);
          return true;
        }
      }
      return false;
    }

    /** `enemies_all_dead`: the counter is at most zero, which is exactly when no slot is alive. */
    method AllDead() returns (dead: bool)
      requires Valid()
      ensures dead <==> activeEnemies <= 0
      ensures dead <==> forall i :: 0 <= i < MaxEnemies ==> !enemies[i].alive
    {
      AliveCountZero(enemies[..]);
      dead := activeEnemies <= 0;
    }
  }
}
