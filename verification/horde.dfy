/** The per-zombie part of `update` that is not float geometry: the three
    countdowns, the wander redraw, the contact damage to the player, and the
    loop that runs it over every zombie in list order. Steering (chase,
    wander heading, separation, normalisation, atan2) is not computed: its
    outcome comes in as a `Draw`. */
module Horde {
  import opened Geometry
  import opened Entities

  const ContactDamage: int := 10
  const ContactCooldown: int := 50

  /** `Math.PI` as the nearest decimal of the double. */
  const Pi: real := 3.141592653589793

  /** What the host decides for one zombie in one tick: the two random draws
      of a wander redraw (each in [0, 1)), the normalised movement vector and
      the facing that `atan2` gives for it. */
  datatype Draw = Draw(angleRoll: real, delayRoll: real, nx: real, ny: real, heading: real)

  /** The zombie after `updateZombie`, and whether it hurt the player. */
  datatype Outcome = Outcome(zombie: Zombie, struck: bool)

  /** `Math.max(0, c - 1)` on an integer counter. */
  function CountDown(c: int): (r: int)
    ensures r >= 0
    ensures c >= 1 ==> r == c - 1
    ensures c <= 1 ==> r == 0
  {
    if c - 1 > 0 then c - 1 else 0
  }

  /** The three countdowns at the head of `updateZombie`. */
  function Decay(z: Zombie): Zombie {
    z.(damageCooldown := CountDown(z.damageCooldown), flashT := CountDown(z.flashT),
       wanderTimer := Max(0.0, z.wanderTimer - 1.0))
  }

  /** Out of detection range with the wander timer run out, a new wander
      heading within a quarter turn of "rightwards" and a new timer of
      60 to 150 ticks are drawn. */
  function Redraw(z: Zombie, chasing: bool, d: Draw): Zombie {
    if !chasing && z.wanderTimer <= 0.0 then
      z.(wanderAngle := (d.angleRoll - 0.5) * (Pi * 0.5), wanderTimer := 60.0 + d.delayRoll * 90.0)
    else z
  }

  /** A coordinate after one step of `speed` along a unit-vector component `n`. */
  function Along(p: real, n: real, speed: real): real {
    p + n * speed
  }

  /** The step along the steering vector, and the facing when it is not zero. */
  function Move(z: Zombie, d: Draw): Zombie {
    var stepped := z.(x := Along(z.x, d.nx, z.speed), y := Along(z.y, d.ny, z.speed));
    if d.nx != 0.0 || d.ny != 0.0 then stepped.(angle := d.heading) else stepped
  }

  /** One `updateZombie` call against a player at (px, py) of radius pr. The
      player distance is taken before the zombie moves. */
  function Think(z: Zombie, px: real, py: real, pr: real, d: Draw): (o: Outcome)
    ensures o.zombie.hp == z.hp && o.zombie.radius == z.radius && o.zombie.speed == z.speed
    ensures o.zombie.x == z.x + d.nx * z.speed && o.zombie.y == z.y + d.ny * z.speed
    ensures o.zombie.flashT == CountDown(z.flashT)
    ensures o.struck <==> Within(z.x, z.y, px, py, z.radius + pr) && z.damageCooldown <= 1
    ensures o.zombie.damageCooldown == if o.struck then ContactCooldown else CountDown(z.damageCooldown)
    ensures o.zombie.damageCooldown >= 0 && o.zombie.flashT >= 0
    ensures Within(z.x, z.y, px, py, z.detectionRadius) ==> o.zombie.wanderAngle == z.wanderAngle
    ensures 0.0 <= d.delayRoll ==> o.zombie.wanderTimer >= 0.0
    ensures d.nx == 0.0 && d.ny == 0.0 ==> o.zombie.angle == z.angle
  {
    var chasing := Within(z.x, z.y, px, py, z.detectionRadius);
    var touching := Within(z.x, z.y, px, py, z.radius + pr);
    var moved := Move(Redraw(Decay(z), chasing, d), d);
    var struck := touching && moved.damageCooldown <= 0;
    Outcome(if struck then moved.(damageCooldown := ContactCooldown) else moved, struck)
  }

  /** The rest of the record after one `updateZombie` call: the size and
      sensing radii stay; while chasing, or while the wander timer has not run
      out, the heading is kept and the timer counts down to zero; once it runs
      out out of range, a new heading and a new timer are drawn; a non-zero
      steering vector sets the facing. */
  lemma ThinkRecord(z: Zombie, px: real, py: real, pr: real, d: Draw)
    ensures var o := Think(z, px, py, pr, d);
            && o.zombie.maxHp == z.maxHp
            && o.zombie.detectionRadius == z.detectionRadius
            && o.zombie.separationRadius == z.separationRadius
    ensures var o := Think(z, px, py, pr, d);
            Within(z.x, z.y, px, py, z.detectionRadius) || z.wanderTimer > 1.0 ==>
              o.zombie.wanderTimer == Max(0.0, z.wanderTimer - 1.0) && o.zombie.wanderAngle == z.wanderAngle
    ensures var o := Think(z, px, py, pr, d);
            !Within(z.x, z.y, px, py, z.detectionRadius) && z.wanderTimer <= 1.0 ==>
              o.zombie.wanderAngle == (d.angleRoll - 0.5) * (Pi * 0.5)
              && o.zombie.wanderTimer == 60.0 + d.delayRoll * 90.0
    ensures var o := Think(z, px, py, pr, d);
            d.nx != 0.0 || d.ny != 0.0 ==> o.zombie.angle == d.heading
  {
  }

  /** The zombies, the player's hit points and the running flag after the AI loop. */
  datatype Swarm = Swarm(zombies: seq<Zombie>, hp: int, running: bool)

  /** The AI loop over `zs` in index order; `draws(k)` steers zombie `k`. A
      blow that leaves the player at zero or below clears the running flag,
      and the remaining zombies still run. */
  function March(zs: seq<Zombie>, px: real, py: real, pr: real, draws: nat -> Draw,
                 hp: int, running: bool): Swarm
    decreases |zs|
  {
    if |zs| == 0 then Swarm([], hp, running)
    else
      Visit(March(zs[..|zs| - 1], px, py, pr, draws, hp, running),
            Think(zs[|zs| - 1], px, py, pr, draws(|zs| - 1)))
  }

  /** The loop after one more zombie: its new state is appended, a blow costs
      10 hit points and clears the running flag at zero or below. */
  function Visit(r: Swarm, o: Outcome): Swarm {
    var left := if o.struck then r.hp - ContactDamage else r.hp;
    Swarm(r.zombies + [o.zombie], left, r.running && !(o.struck && left <= 0))
  }

  /** `March` over a prefix one longer visits the next zombie. */
  lemma MarchNext(zs: seq<Zombie>, i: int, px: real, py: real, pr: real, draws: nat -> Draw,
                  hp: int, running: bool)
    requires 0 <= i < |zs|
    ensures March(zs[..i + 1], px, py, pr, draws, hp, running)
         == Visit(March(zs[..i], px, py, pr, draws, hp, running), Think(zs[i], px, py, pr, draws(i)))
  {
    assert zs[..i + 1][..i] == zs[..i];
  }

  /** How many zombies of `zs` land a blow in this pass. */
  function Strikes(zs: seq<Zombie>, px: real, py: real, pr: real, draws: nat -> Draw): nat
    decreases |zs|
  {
    if |zs| == 0 then 0
    else Strikes(zs[..|zs| - 1], px, py, pr, draws)
         + (if Think(zs[|zs| - 1], px, py, pr, draws(|zs| - 1)).struck then 1 else 0)
  }

  /** The AI loop updates every zombie on its own: same length, zombie `k`
      becomes its own `Think` result. */
  lemma {:induction false} MarchEach(zs: seq<Zombie>, px: real, py: real, pr: real,
                                     draws: nat -> Draw, hp: int, running: bool)
    ensures |March(zs, px, py, pr, draws, hp, running).zombies| == |zs|
    ensures forall k :: 0 <= k < |zs| ==>
      March(zs, px, py, pr, draws, hp, running).zombies[k] == Think(zs[k], px, py, pr, draws(k)).zombie
    ensures AllAlive(zs) ==> AllAlive(March(zs, px, py, pr, draws, hp, running).zombies)
  {
    if |zs| > 0 {
      var n := |zs| - 1;
      MarchEach(zs[..n], px, py, pr, draws, hp, running);
      forall k | 0 <= k < n
        ensures zs[..n][k] == zs[k]
      {
      }
    }
  }

  /** Each blow costs exactly 10 hit points, and the pass ends the game
      exactly when some blow landed and the player is left at zero or below. */
  lemma {:induction false} MarchDamage(zs: seq<Zombie>, px: real, py: real, pr: real,
                                       draws: nat -> Draw, hp: int, running: bool)
    ensures March(zs, px, py, pr, draws, hp, running).hp
         == hp - ContactDamage * Strikes(zs, px, py, pr, draws)
    ensures March(zs, px, py, pr, draws, hp, running).running
         == (running && !(Strikes(zs, px, py, pr, draws) > 0
                          && March(zs, px, py, pr, draws, hp, running).hp <= 0))
  {
    if |zs| > 0 {
      MarchDamage(zs[..|zs| - 1], px, py, pr, draws, hp, running);
    }
  }
}
