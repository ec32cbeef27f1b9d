/** The spawn timer of `update`: while zombies are queued it counts ticks, and
    when it reaches the level's interval it resets and releases one zombie. */
module SpawnClock {

  datatype Clock = Clock(toSpawn: int, timer: int)

  /** One tick of the clock, and whether `spawnZombie` ran in it. */
  datatype Beat = Beat(clock: Clock, spawned: bool)

  /** Several ticks of the clock, and how many zombies they released. */
  datatype Run = Run(clock: Clock, spawns: nat)

  function Step(c: Clock, interval: int): (b: Beat)
    ensures b.clock.toSpawn == c.toSpawn - (if b.spawned then 1 else 0)
    ensures b.spawned ==> c.toSpawn > 0 && b.clock.timer == 0
    ensures c.toSpawn >= 0 ==> b.clock.toSpawn >= 0
    ensures c.toSpawn <= 0 ==> b.clock == c
    ensures 1 <= interval && 0 <= c.timer <= interval ==> 0 <= b.clock.timer <= interval
    ensures c.toSpawn > 0 && c.timer == interval ==> b.spawned
  {
    if c.toSpawn > 0 then
      if c.timer + 1 >= interval then Beat(Clock(c.toSpawn - 1, 0), true)
      else Beat(Clock(c.toSpawn, c.timer + 1), false)
    else
      Beat(c, false)
  }

  /** `n` consecutive running ticks. */
  function Ticks(n: nat, c: Clock, interval: int): Run
    decreases n
  {
    if n == 0 then Run(c, 0)
    else
      var b := Step(c, interval);
      var rest := Ticks(n - 1, b.clock, interval);
      Run(rest.clock, rest.spawns + (if b.spawned then 1 else 0))
  }

  /** The queue never goes negative, every released zombie leaves the queue,
      and no tick releases more than one. */
  lemma {:induction false} TicksAccount(n: nat, c: Clock, interval: int)
    requires c.toSpawn >= 0
    ensures Ticks(n, c, interval).clock.toSpawn >= 0
    ensures Ticks(n, c, interval).clock.toSpawn + Ticks(n, c, interval).spawns == c.toSpawn
    ensures Ticks(n, c, interval).spawns <= n
  {
    if n > 0 {
      TicksAccount(n - 1, Step(c, interval).clock, interval);
    }
  }

  /** Ticks that do not yet reach the interval only count. */
  lemma {:induction false} Quiet(n: nat, c: Clock, interval: int)
    requires c.toSpawn > 0 && 0 <= c.timer && c.timer + n < interval
    ensures Ticks(n, c, interval) == Run(Clock(c.toSpawn, c.timer + n), 0)
  {
    if n > 0 {
      Quiet(n - 1, Clock(c.toSpawn, c.timer + 1), interval);
    }
  }

  /** From timer `t` below the interval, the zombie is released exactly
      `interval - t` ticks later, and the timer restarts from zero. */
  lemma {:induction false} Due(c: Clock, interval: int)
    requires c.toSpawn > 0 && 0 <= c.timer < interval
    ensures Ticks(interval - c.timer, c, interval) == Run(Clock(c.toSpawn - 1, 0), 1)
    decreases interval - c.timer
  {
    if c.timer + 1 < interval {
      Due(Clock(c.toSpawn, c.timer + 1), interval);
    }
  }

  /** With the queue empty the clock stands still. */
  lemma {:induction false} Drained(n: nat, c: Clock, interval: int)
    requires c.toSpawn == 0
    ensures Ticks(n, c, interval) == Run(c, 0)
  {
    if n > 0 {
      Drained(n - 1, c, interval);
    }
  }

  lemma {:induction false} TicksSplit(a: nat, b: nat, c: Clock, interval: int)
    ensures Ticks(a + b, c, interval)
         == Run(Ticks(b, Ticks(a, c, interval).clock, interval).clock,
                Ticks(a, c, interval).spawns + Ticks(b, Ticks(a, c, interval).clock, interval).spawns)
  {
    if a > 0 {
      TicksSplit(a - 1, b, Step(c, interval).clock, interval);
    }
  }

  function MinInt(a: int, b: int): int { if a <= b then a else b }

  /** A level starts its timer at the interval: the first tick releases a
      zombie, and after that one is released every `interval` ticks until the
      queue is empty. */
  lemma {:induction false} Cadence(k: int, m: nat, interval: int)
    requires 1 <= interval && k > 0
    ensures Ticks(1 + m * interval, Clock(k, interval), interval)
         == Run(Clock(k - MinInt(k, m + 1), 0), MinInt(k, m + 1))
  {
    if m > 0 {
      Cadence(k, m - 1, interval);
      var a := 1 + (m - 1) * interval;
      assert 1 + m * interval == a + interval;
      TicksSplit(a, interval, Clock(k, interval), interval);
      var mid := Ticks(a, Clock(k, interval), interval).clock;
      if k > m {
        Due(mid, interval);
      } else {
        Drained(interval, mid, interval);
      }
    }
  }
}
