/** The records the simulation creates and moves: bullets, zombies, the
    practice target, and the constants of the player. */
module Entities {

  datatype Bullet = Bullet(x: real, y: real, radius: real, speed: real, dx: real, dy: real)

  datatype Zombie = Zombie(
    x: real, y: real,
    radius: real,
    speed: real,
    hp: int, maxHp: int,
    detectionRadius: real,
    separationRadius: real,
    wanderAngle: real, wanderTimer: real,
    damageCooldown: int,
    flashT: int,
    angle: real)

  datatype Target = Target(x: real, y: real, width: real, height: real, health: int, alive: bool)

  const PlayerRadius: real := 24.0
  const PlayerSpeed: real := 3.0
  const RotationSpeed: real := 0.05
  const PlayerMaxHp: int := 100

  /** The bullet `shoot` pushes: at the shooter's position, flying along
      (cos, sin) of the shooter's facing. */
  function Fire(x: real, y: real, cos: real, sin: real): Bullet {
    Bullet(x, y, 5.0, 6.0, cos, sin)
  }

  /** The zombie `spawnZombie` pushes, just left of the playfield; `yRoll` and
      `speedRoll` are the two `Math.random()` draws, in [0, 1). */
  function Spawned(canvasHeight: real, yRoll: real, speedRoll: real): Zombie {
    Zombie(-30.0, 30.0 + yRoll * (canvasHeight - 60.0), 20.0, 0.8 + speedRoll * 0.6,
           60, 60, 180.0, 30.0, 0.0, 0.0, 0, 0, 0.0)
  }

  /** The stationary box as a new game places it. */
  const FreshTarget: Target := Target(450.0, 200.0, 60.0, 60.0, 100, true)

  /** Every zombie still in the list has hit points left. */
  predicate AllAlive(zs: seq<Zombie>) {
    forall k :: 0 <= k < |zs| ==> zs[k].hp > 0
  }
}
