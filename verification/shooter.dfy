/** The session as the source keeps it: a player object whose fields are
    assigned in place and the module-level counters and lists, reassigned
    step by step by `initGame`, `startLevel`, `advanceLevel`, `shoot` and
    `update`. Each method is proved against the value-level tick. */
module Shooter {
  import opened Geometry
  import opened Levels
  import opened Entities
  import opened Horde
  import opened Combat
  import opened Director

  class Player {
    var x: real
    var y: real
    var angle: real
    var hp: int
    const radius: real := PlayerRadius
    const speed: real := PlayerSpeed
    const rotationSpeed: real := RotationSpeed
    const maxHp: int := PlayerMaxHp

    constructor (x0: real, y0: real)
      ensures x == x0 && y == y0 && angle == 0.0 && hp == PlayerMaxHp
    {
      x, y, angle, hp := x0, y0, 0.0, PlayerMaxHp;
    }

    ghost function View(): PlayerView
      reads this
    {
      PlayerView(x, y, angle, hp)
    }
  }

  /** Replacing element i leaves the prefix up to it untouched. */
  lemma SetSplit<T>(s: seq<T>, i: int, v: T)
    requires 0 <= i < |s|
    ensures s[i := v][..i + 1] == s[..i] + [v]
  {
    assert s[i := v][..i + 1] == s[i := v][..i] + [v];
  }

  class Game {
    const width: real
    const height: real
    const player: Player
    var bullets: seq<Bullet>
    var target: Target
    var zombies: seq<Zombie>
    var currentLevel: int
    var zombiesToSpawn: int
    var zombiesKilled: int
    var spawnTimer: int
    var score: int
    var gameRunning: bool

    ghost function State(): Session
      reads this, player
    {
      Session(player.View(), bullets, zombies, target, currentLevel,
              zombiesToSpawn, zombiesKilled, spawnTimer, score, gameRunning)
    }

    ghost function CurrentBoard(): Board
      reads this
    {
      Board(zombies, target, zombiesKilled, score)
    }

    ghost predicate Valid()
      reads this, player
    {
      Coherent(State())
    }

    /** The page as it loads: nothing is running until `initGame`. */
    constructor (w: real, h: real)
      ensures width == w && height == h && fresh(player)
      ensures State() == Session(PlayerView(w / 2.0, h / 3.0, 0.0, PlayerMaxHp), [], [],
                                 FreshTarget, 0, 0, 0, 0, 0, false)
      ensures Valid()
    {
      width, height := w, h;
      player := new Player(w / 2.0, h / 3.0);
      bullets := [];
      target := FreshTarget;
      zombies := [];
      currentLevel, zombiesToSpawn, zombiesKilled, spawnTimer, score := 0, 0, 0, 0, 0;
      gameRunning := false;
    }

    method StartLevel(index: int)
      requires 0 <= index < |Table|
      modifies this`zombiesToSpawn, this`zombiesKilled, this`spawnTimer, this`zombies, this`bullets
      ensures zombiesToSpawn == Table[index].zombieCount && zombiesKilled == 0
      ensures spawnTimer == Table[index].spawnInterval
      ensures zombies == [] && bullets == []
      ensures currentLevel == index ==> Loaded(State())
    {
      var lvl := Table[index];
      zombiesToSpawn := lvl.zombieCount;
      zombiesKilled := 0;
      spawnTimer := lvl.spawnInterval;
      zombies := [];
      bullets := [];
    }

    method InitGame()
      modifies this, player
      ensures State() == Session(PlayerView(width / 2.0, height / 2.0, 0.0, PlayerMaxHp), [], [],
                                 FreshTarget, 0, Table[0].zombieCount, 0,
                                 Table[0].spawnInterval, 0, true)
      ensures Valid()
    {
      player.x := width / 2.0;
      player.y := height / 2.0;
      player.angle := 0.0;
      player.hp := player.maxHp;
      currentLevel := 0;
      score := 0;
      zombies := [];
      bullets := [];
      target := FreshTarget;
      gameRunning := true;
      StartLevel(currentLevel);
    }

    method OnLevelComplete()
      modifies this`gameRunning
      ensures !gameRunning
    {
      gameRunning := false;
    }

    method OnGameOver()
      modifies this`gameRunning
      ensures !gameRunning
    {
      gameRunning := false;
    }

    /** The next-level button: only reachable from the level-complete screen. */
    method AdvanceLevel()
      requires Valid() && (gameRunning ==> currentLevel + 1 < |Table|)
      modifies this
      ensures currentLevel == old(currentLevel) + 1
      ensures currentLevel >= |Table| ==> State() == old(State()).(level := currentLevel)
      ensures currentLevel < |Table| ==>
                State() == old(State()).(level := currentLevel, running := true,
                                         toSpawn := Table[currentLevel].zombieCount, killed := 0,
                                         spawnTimer := Table[currentLevel].spawnInterval,
                                         zombies := [], bullets := [])
      ensures Valid()
      ensures gameRunning ==> currentLevel < |Table|
    {
      currentLevel := currentLevel + 1;
      if currentLevel < |Table| {
        gameRunning := true;
        StartLevel(currentLevel);
      }
    }

    method Shoot(cos: real, sin: real)
      requires Valid()
      modifies this`bullets
      ensures bullets == old(bullets) + [Fire(player.x, player.y, cos, sin)]
      ensures Valid()
    {
      bullets := bullets + [Fire(player.x, player.y, cos, sin)];
    }

    method SpawnZombie(yRoll: real, speedRoll: real)
      modifies this`zombies
      ensures zombies == old(zombies) + [Spawned(height, yRoll, speedRoll)]
    {
      zombies := zombies + [Spawned(height, yRoll, speedRoll)];
    }

    /** The displacement the movement keys ask for this tick. */
    method Displacement(keys: Keys) returns (dx: real, dy: real)
      ensures Delta(dx, dy) == Stride(keys)
    {
      dx, dy := 0.0, 0.0;
      if keys.w { dy := dy - player.speed; }
      if keys.s { dy := dy + player.speed; }
      if keys.a { dx := dx - player.speed; }
      if keys.d { dx := dx + player.speed; }
      if dx != 0.0 && dy != 0.0 {
        dx, dy := dx * InvSqrt2, dy * InvSqrt2;
      }
    }

    method MovePlayer(keys: Keys)
      modifies player
      ensures State() == MovePhase(old(State()), keys, width, height)
    {
      if keys.arrowLeft { player.angle := player.angle - player.rotationSpeed; }
      if keys.arrowRight { player.angle := player.angle + player.rotationSpeed; }

      var dx, dy := Displacement(keys);
      player.x := Max(player.radius, Min(width - player.radius, player.x + dx));
      player.y := Max(player.radius, Min(height - player.radius, player.y + dy));
    }

    method RunSpawnClock(yRoll: real, speedRoll: real)
      requires 0 <= currentLevel < |Table|
      modifies this`zombiesToSpawn, this`spawnTimer, this`zombies
      ensures State() == SpawnPhase(old(State()), yRoll, speedRoll, height)
    {
      if zombiesToSpawn > 0 {
        spawnTimer := spawnTimer + 1;
        if spawnTimer >= Table[currentLevel].spawnInterval {
          spawnTimer := 0;
          SpawnZombie(yRoll, speedRoll);
          zombiesToSpawn := zombiesToSpawn - 1;
        }
      }
    }

    /** `updateZombie(zombies[i], i)` without its float steering. */
    method UpdateZombie(i: int, d: Draw)
      requires 0 <= i < |zombies|
      modifies this`zombies, this`gameRunning, player`hp
      ensures var o := Think(old(zombies[i]), player.x, player.y, player.radius, d);
              && zombies == old(zombies)[i := o.zombie]
              && player.hp == old(player.hp) - (if o.struck then ContactDamage else 0)
              && gameRunning == (old(gameRunning) && !(o.struck && player.hp <= 0))
    {
      var z := zombies[i];
      ghost var z0 := z;
      z := z.(damageCooldown := CountDown(z.damageCooldown), flashT := CountDown(z.flashT),
              wanderTimer := Max(0.0, z.wanderTimer - 1.0));
      assert z == Decay(z0);

      var chasing := Within(z.x, z.y, player.x, player.y, z.detectionRadius);
      var touching := Within(z.x, z.y, player.x, player.y, z.radius + player.radius);
      if !chasing && z.wanderTimer <= 0.0 {
        z := z.(wanderAngle := (d.angleRoll - 0.5) * (Pi * 0.5), wanderTimer := 60.0 + d.delayRoll * 90.0);
      }
      assert z == Redraw(Decay(z0), chasing, d);
      ghost var z2 := z;
      z := z.(x := Along(z.x, d.nx, z.speed), y := Along(z.y, d.ny, z.speed));
      if d.nx != 0.0 || d.ny != 0.0 {
        z := z.(angle := d.heading);
      }
      assert z == Move(z2, d);
      ghost var o := Think(z0, player.x, player.y, player.radius, d);
      assert o == Outcome(if touching && z.damageCooldown <= 0 then z.(damageCooldown := ContactCooldown) else z,
                          touching && z.damageCooldown <= 0);

      if touching && z.damageCooldown <= 0 {
        player.hp := player.hp - ContactDamage;
        z := z.(damageCooldown := ContactCooldown);
        if player.hp <= 0 {
          OnGameOver();
        }
      }
      assert player.x == old(player.x) && player.y == old(player.y);
      zombies := zombies[i := z];
    }

    /** The AI loop: zombies are never culled for being off-screen. */
    method RunHorde(draws: nat -> Draw)
      modifies this`zombies, this`gameRunning, player`hp
      ensures State() == HordePhase(old(State()), draws)
    {
      ghost var zs, px, py := zombies, player.x, player.y;
      ghost var hp, running := player.hp, gameRunning;
      var i := 0;
      while i < |zombies|
        invariant 0 <= i <= |zombies| == |zs|
        invariant px == player.x && py == player.y
        invariant forall k :: i <= k < |zs| ==> zombies[k] == zs[k]
        invariant March(zs[..i], px, py, PlayerRadius, draws, hp, running)
               == Swarm(zombies[..i], player.hp, gameRunning)
      {
        ghost var pre, hp0, run0 := zombies, player.hp, gameRunning;
        ghost var o := Think(zs[i], px, py, PlayerRadius, draws(i));
        MarchNext(zs, i, px, py, PlayerRadius, draws, hp, running);
        assert pre[i] == zs[i];
        UpdateZombie(i, draws(i));
        assert zombies == pre[i := o.zombie];
        assert player.hp == hp0 - (if o.struck then ContactDamage else 0);
        assert gameRunning == (run0 && !(o.struck && player.hp <= 0));
        SetSplit(pre, i, o.zombie);
        i := i + 1;
      }
      assert zombies[..i] == zombies;
      assert zs[..i] == zs;
    }

    /** `bullets.splice(i, 1)`. */
    method SpliceBullet(i: int)
      requires 0 <= i < |bullets|
      modifies this`bullets
      ensures bullets == old(bullets[..i]) + old(bullets[i + 1..])
    {
      bullets := bullets[..i] + bullets[i + 1..];
    }

    /** A bullet lands on zombie `j`: 20 damage and a flash, and a zombie left
        at zero hit points or below is spliced out as a kill worth 10. */
    method StrikeZombie(j: int)
      requires 0 <= j < |zombies|
      modifies this`zombies, this`zombiesKilled, this`score
      ensures var z := old(zombies[j]).(hp := old(zombies[j]).hp - BulletDamage, flashT := FlashTicks);
              if z.hp <= 0 then
                && zombies == old(zombies[..j]) + old(zombies[j + 1..])
                && zombiesKilled == old(zombiesKilled) + 1 && score == old(score) + KillReward
              else
                && zombies == old(zombies)[j := z]
                && zombiesKilled == old(zombiesKilled) && score == old(score)
    {
      zombies := zombies[j := zombies[j].(hp := zombies[j].hp - BulletDamage, flashT := FlashTicks)];
      if zombies[j].hp <= 0 {
        zombies := zombies[..j] + zombies[j + 1..];
        zombiesKilled := zombiesKilled + 1;
        score := score + KillReward;
      }
    }

    /** One iteration of the bullet loop: move bullet `i`, then splice it out
        if it left the playfield, struck the target or struck a zombie. */
    method ResolveAt(i: int)
      requires 0 <= i < |bullets|
      modifies this`bullets, this`zombies, this`target, this`zombiesKilled, this`score
      ensures var r := Resolve(old(bullets[i]), old(CurrentBoard()), width, height);
              && bullets == old(bullets[..i]) + r.bullets + old(bullets[i + 1..])
              && CurrentBoard() == r.board
    {
      var b := Advance(bullets[i]);
      bullets := bullets[i := b];
      assert bullets == old(bullets[..i]) + [b] + old(bullets[i + 1..]);

      if Outside(b, width, height) {
        SpliceBullet(i);
        return;
      }
      if InsideBox(b, target) {
        target := target.(health := target.health - BulletDamage);
        SpliceBullet(i);
        if target.health <= 0 {
          target := target.(alive := false);
        }
        return;
      }
      var j := FindTouched(zombies, b);
      if j >= 0 {
        StrikeZombie(j);
        SpliceBullet(i);
      }
    }

    /** The bullet loop, from the last bullet down to the first. */
    method RunBullets()
      modifies this`bullets, this`zombies, this`target, this`zombiesKilled, this`score
      ensures Sweep(bullets, CurrentBoard()) == Volley(old(bullets), old(CurrentBoard()), width, height)
    {
      ghost var goal := Volley(bullets, CurrentBoard(), width, height);
      FinishStart(bullets, CurrentBoard(), width, height);
      var i := |bullets| - 1;
      while i >= 0
        invariant -1 <= i < |bullets|
        invariant Finish(bullets[..i + 1], CurrentBoard(), bullets[i + 1..], width, height) == goal
      {
        ghost var pre := bullets;
        ghost var r := Resolve(pre[i], CurrentBoard(), width, height);
        FinishStep(pre, i, CurrentBoard(), width, height);
        ResolveAt(i);
        assert bullets[..i] == pre[..i] && bullets[i..] == r.bullets + pre[i + 1..];
        i := i - 1;
      }
      FinishDone(bullets, CurrentBoard(), width, height);
    }

    /** One call of `update`. */
    method Update(input: Input)
      requires Valid()
      modifies this, player
      ensures State() == Tick(old(State()), input, width, height)
      ensures !old(gameRunning) ==> State() == old(State())
      ensures Valid()
    {
      if !gameRunning {
        return;
      }
      ghost var s0 := State();
      MovePlayer(input.keys);
      RunSpawnClock(input.yRoll, input.speedRoll);
      RunHorde(input.draws);
      ghost var s3 := State();
      RunBullets();
      assert State() == BulletPhase(s3, width, height);
      if zombiesToSpawn == 0 && |zombies| == 0 && zombiesKilled == Table[currentLevel].zombieCount {
        OnLevelComplete();
      }
      TickConserves(s0, input, width, height);
    }
  }
}
