/** The fixed level table: how many zombies a wave holds and how many ticks
    separate two spawns. */
module Levels {

  /** A spawn interval is a positive number of ticks. */
  type Interval = n: int | n >= 1 witness 1

  datatype Level = Level(zombieCount: nat, spawnInterval: Interval)

  const Table: seq<Level> := [Level(3, 180), Level(6, 150)]
}
