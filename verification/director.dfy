/** One simulation tick of the shooter as a function on the session's value:
    the player's rotation and clamped move, the spawn clock, the zombie AI
    loop, the bullet pass and the level-completion check, in that order. */
module Director {
  import opened Geometry
  import opened Levels
  import opened Entities
  import opened SpawnClock
  import opened Horde
  import opened Combat

  /** `1 / Math.sqrt(2)` as the double the source computes. */
  const InvSqrt2: real := 0.7071067811865475

  /** The held keys `update` reads: the two arrows and w, s, a, d. */
  datatype Keys = Keys(arrowLeft: bool, arrowRight: bool, w: bool, s: bool, a: bool, d: bool)

  /** What the host supplies to one tick: held keys, the two random draws a
      spawn would use, and the steering outcome of each zombie by index. */
  datatype Input = Input(keys: Keys, yRoll: real, speedRoll: real, draws: nat -> Draw)

  /** The player's mutable fields. */
  datatype PlayerView = PlayerView(x: real, y: real, angle: real, hp: int)

  /** Every value one tick reads or writes. */
  datatype Session = Session(
    player: PlayerView,
    bullets: seq<Bullet>,
    zombies: seq<Zombie>,
    target: Target,
    level: int,
    toSpawn: int,
    killed: int,
    spawnTimer: int,
    score: int,
    running: bool)

  datatype Delta = Delta(dx: real, dy: real)

  /** Net rotation of one tick: left turns by -0.05, right by +0.05. */
  function Turn(k: Keys): (delta: real)
    ensures delta == 0.0 <==> k.arrowLeft == k.arrowRight
    ensures delta == RotationSpeed <==> k.arrowRight && !k.arrowLeft
    ensures delta == -RotationSpeed <==> k.arrowLeft && !k.arrowRight
  {
    (if k.arrowRight then RotationSpeed else 0.0) - (if k.arrowLeft then RotationSpeed else 0.0)
  }

  /** Displacement of one tick from w/s/a/d, scaled by 1/sqrt(2) on a diagonal. */
  function Stride(k: Keys): (d: Delta)
    ensures d.dx == 0.0 <==> k.a == k.d
    ensures d.dy == 0.0 <==> k.w == k.s
    ensures -PlayerSpeed <= d.dx <= PlayerSpeed && -PlayerSpeed <= d.dy <= PlayerSpeed
    ensures k.w == k.s ==> d.dx == (if k.d then PlayerSpeed else 0.0) - (if k.a then PlayerSpeed else 0.0)
    ensures k.a == k.d ==> d.dy == (if k.s then PlayerSpeed else 0.0) - (if k.w then PlayerSpeed else 0.0)
  {
    var dx := (if k.d then PlayerSpeed else 0.0) - (if k.a then PlayerSpeed else 0.0);
    var dy := (if k.s then PlayerSpeed else 0.0) - (if k.w then PlayerSpeed else 0.0);
    if dx != 0.0 && dy != 0.0 then Delta(dx * InvSqrt2, dy * InvSqrt2) else Delta(dx, dy)
  }

  /** A diagonal press moves each axis by speed / sqrt(2), with the rounded
      constant: the squared step length is 9 up to that rounding. */
  lemma StrideDiagonal(k: Keys)
    requires k.a != k.d && k.w != k.s
    ensures Stride(k).dx == (if k.d then PlayerSpeed * InvSqrt2 else -PlayerSpeed * InvSqrt2)
    ensures Stride(k).dy == (if k.s then PlayerSpeed * InvSqrt2 else -PlayerSpeed * InvSqrt2)
    ensures 8.9999 < Stride(k).dx * Stride(k).dx + Stride(k).dy * Stride(k).dy <= PlayerSpeed * PlayerSpeed
  {
  }

  /** The player after rotation and movement: the circle stays inside the
      canvas whatever the keys. */
  function Steer(p: PlayerView, k: Keys, w: real, h: real): (r: PlayerView)
    ensures r.hp == p.hp
    ensures r.angle == p.angle + Turn(k)
    ensures PlayerRadius <= r.x && PlayerRadius <= r.y
    ensures 2.0 * PlayerRadius <= w ==> r.x <= w - PlayerRadius
    ensures 2.0 * PlayerRadius <= h ==> r.y <= h - PlayerRadius
    ensures PlayerRadius <= p.x + Stride(k).dx <= w - PlayerRadius ==> r.x == p.x + Stride(k).dx
    ensures PlayerRadius <= p.y + Stride(k).dy <= h - PlayerRadius ==> r.y == p.y + Stride(k).dy
  {
    var d := Stride(k);
    PlayerView(Clamp(PlayerRadius, w - PlayerRadius, p.x + d.dx),
               Clamp(PlayerRadius, h - PlayerRadius, p.y + d.dy),
               p.angle + Turn(k), p.hp)
  }

  /** A level is loaded: its counters account for every zombie of the wave
      (queued, alive, or killed), the spawn timer is within the interval and
      no dead zombie lingers in the list. */
  predicate Loaded(s: Session) {
    && 0 <= s.level < |Table|
    && s.toSpawn >= 0 && s.killed >= 0
    && s.toSpawn + |s.zombies| + s.killed == Table[s.level].zombieCount
    && 0 <= s.spawnTimer <= Table[s.level].spawnInterval
    && AllAlive(s.zombies)
  }

  /** The session invariant: a running session has a level loaded. */
  predicate Coherent(s: Session) {
    0 <= s.level && (s.running ==> Loaded(s))
  }

  /** The completion test at the end of `update`. */
  predicate LevelComplete(s: Session)
    requires 0 <= s.level < |Table|
  {
    s.toSpawn == 0 && |s.zombies| == 0 && s.killed == Table[s.level].zombieCount
  }

  function MovePhase(s: Session, k: Keys, w: real, h: real): Session {
    s.(player := Steer(s.player, k, w, h))
  }

  function SpawnPhase(s: Session, yRoll: real, speedRoll: real, h: real): Session
    requires 0 <= s.level < |Table|
  {
    var b := Step(Clock(s.toSpawn, s.spawnTimer), Table[s.level].spawnInterval);
    s.(toSpawn := b.clock.toSpawn, spawnTimer := b.clock.timer,
       zombies := if b.spawned then s.zombies + [Spawned(h, yRoll, speedRoll)] else s.zombies)
  }

  function HordePhase(s: Session, draws: nat -> Draw): Session {
    var r := March(s.zombies, s.player.x, s.player.y, PlayerRadius, draws, s.player.hp, s.running);
    s.(zombies := r.zombies, player := s.player.(hp := r.hp), running := r.running)
  }

  function BulletPhase(s: Session, w: real, h: real): Session {
    var r := Volley(s.bullets, Board(s.zombies, s.target, s.killed, s.score), w, h);
    s.(bullets := r.bullets, zombies := r.board.zombies, target := r.board.target,
       killed := r.board.killed, score := r.board.score)
  }

  function ClearPhase(s: Session): Session
    requires 0 <= s.level < |Table|
  {
    if LevelComplete(s) then s.(running := false) else s
  }

  /** One call of `update` on a canvas of width `w` and height `h`. */
  function Tick(s: Session, input: Input, w: real, h: real): Session
    requires s.running ==> 0 <= s.level < |Table|
  {
    if !s.running then s
    else
      ClearPhase(BulletPhase(HordePhase(SpawnPhase(MovePhase(s, input.keys, w, h),
                                                   input.yRoll, input.speedRoll, h),
                                        input.draws), w, h))
  }

  /** Conservation: a tick moves zombies from the queue into the list and
      from the list into the kills, and never removes a living one. */
  lemma TickConserves(s: Session, input: Input, w: real, h: real)
    requires s.running && Loaded(s)
    ensures Loaded(Tick(s, input, w, h))
    ensures Tick(s, input, w, h).level == s.level
  {
    var s1 := MovePhase(s, input.keys, w, h);
    var s2 := SpawnPhase(s1, input.yRoll, input.speedRoll, h);
    assert AllAlive(s2.zombies);
    var s3 := HordePhase(s2, input.draws);
    MarchEach(s2.zombies, s2.player.x, s2.player.y, PlayerRadius, input.draws, s2.player.hp, s2.running);
    assert AllAlive(s3.zombies);
    VolleyAccounts(s3.bullets, Board(s3.zombies, s3.target, s3.killed, s3.score), w, h);
  }

  /** Score rises by exactly 10 per kill in a tick, kills only rise, and no
      more zombies die than bullets are used up. */
  lemma TickScores(s: Session, input: Input, w: real, h: real)
    requires s.running && 0 <= s.level < |Table|
    ensures Tick(s, input, w, h).score - s.score == KillReward * (Tick(s, input, w, h).killed - s.killed)
    ensures 0 <= Tick(s, input, w, h).killed - s.killed <= |s.bullets| - |Tick(s, input, w, h).bullets|
  {
    var s3 := HordePhase(SpawnPhase(MovePhase(s, input.keys, w, h), input.yRoll, input.speedRoll, h), input.draws);
    VolleyAccounts(s3.bullets, Board(s3.zombies, s3.target, s3.killed, s3.score), w, h);
  }

  /** A running tick stops the game exactly when the level is complete at
      its end, or when the player was hit during it and is left at zero hit
      points or below. */
  lemma TickHalts(s: Session, input: Input, w: real, h: real)
    requires s.running && 0 <= s.level < |Table|
    ensures Tick(s, input, w, h).running
        <==> !LevelComplete(Tick(s, input, w, h))
             && !(Tick(s, input, w, h).player.hp < s.player.hp && Tick(s, input, w, h).player.hp <= 0)
  {
    var s2 := SpawnPhase(MovePhase(s, input.keys, w, h), input.yRoll, input.speedRoll, h);
    MarchDamage(s2.zombies, s2.player.x, s2.player.y, PlayerRadius, input.draws, s2.player.hp, s2.running);
  }

  /** Under the conservation invariant the three-part completion test is
      the same as "every zombie of the wave was killed". */
  lemma CompleteByKills(s: Session)
    requires Loaded(s)
    ensures LevelComplete(s) <==> s.killed == Table[s.level].zombieCount
  {
  }
}
