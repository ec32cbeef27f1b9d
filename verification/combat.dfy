/** The bullet pass of `update`: every bullet, from the last to the first,
    moves one step and then leaves the playfield, hits the live target, hits
    one zombie, or flies on. A zombie brought to zero hit points or below is
    removed and counted as a kill worth 10 points. */
module Combat {
  import opened Geometry
  import opened Entities

  const BulletDamage: int := 20
  const KillReward: int := 10
  const FlashTicks: int := 8

  /** What the bullet pass reads and writes besides the bullets themselves. */
  datatype Board = Board(zombies: seq<Zombie>, target: Target, killed: int, score: int)

  /** Bullets left in flight, and the board after them. */
  datatype Sweep = Sweep(bullets: seq<Bullet>, board: Board)

  /** The bullet one step along its direction. */
  function Advance(b: Bullet): Bullet {
    b.(x := b.x + b.dx * b.speed, y := b.y + b.dy * b.speed)
  }

  /** Outside the canvas rectangle [0, w] x [0, h]. */
  predicate Outside(b: Bullet, w: real, h: real) {
    b.x < 0.0 || b.x > w || b.y < 0.0 || b.y > h
  }

  /** Strictly inside the target box while the target stands. */
  predicate InsideBox(b: Bullet, t: Target) {
    t.alive && t.x < b.x < t.x + t.width && t.y < b.y < t.y + t.height
  }

  /** The bullet's circle overlaps the zombie's. */
  predicate Touches(b: Bullet, z: Zombie) {
    Within(b.x, b.y, z.x, z.y, b.radius + z.radius)
  }

  /** The index the reverse zombie scan stops at: the last zombie the bullet
      touches, or -1 when it touches none. */
  function LastTouched(zs: seq<Zombie>, b: Bullet): (j: int)
    ensures -1 <= j < |zs|
    ensures j >= 0 ==> Touches(b, zs[j])
    ensures forall k :: j < k < |zs| ==> !Touches(b, zs[k])
    decreases |zs|
  {
    if |zs| == 0 then -1
    else if Touches(b, zs[|zs| - 1]) then |zs| - 1
    else LastTouched(zs[..|zs| - 1], b)
  }

  /** The inner loop of the bullet pass: scan the zombies from the last one
      down and stop at the first that the bullet touches. */
  method FindTouched(zs: seq<Zombie>, b: Bullet) returns (j: int)
    ensures -1 <= j < |zs|
    ensures j >= 0 ==> Touches(b, zs[j])
    ensures forall k :: j < k < |zs| ==> !Touches(b, zs[k])
    ensures j == LastTouched(zs, b)
  {
    j := |zs| - 1;
    while j >= 0 && !Touches(b, zs[j])
      invariant -1 <= j < |zs|
      invariant forall k :: j < k < |zs| ==> !Touches(b, zs[k])
    {
      j := j - 1;
    }
  }

  /** One bullet of the pass: it moves, then leaves the playfield, strikes
      the live target, strikes the last zombie it touches, or flies on. */
  function Resolve(b: Bullet, bd: Board, w: real, h: real): Sweep
  {
    var m := Advance(b);
    if Outside(m, w, h) then Sweep([], bd)
    else if InsideBox(m, bd.target) then
      var health := bd.target.health - BulletDamage;
      Sweep([], bd.(target := bd.target.(health := health, alive := health > 0)))
    else
      var j := LastTouched(bd.zombies, m);
      if j < 0 then Sweep([m], bd)
      else
        var z := bd.zombies[j].(hp := bd.zombies[j].hp - BulletDamage, flashT := FlashTicks);
        if z.hp <= 0 then
          Sweep([], bd.(zombies := bd.zombies[..j] + bd.zombies[j + 1..],
                        killed := bd.killed + 1, score := bd.score + KillReward))
        else
          Sweep([], bd.(zombies := bd.zombies[j := z]))
  }

  /** The fate of one bullet: it survives, moved, exactly when it stays on
      the playfield, misses the live target and touches no zombie; then the
      board is untouched. Leaving the playfield changes nothing else. */
  lemma ResolveFate(b: Bullet, bd: Board, w: real, h: real)
    ensures var r := Resolve(b, bd, w, h);
            r.bullets == [] || r.bullets == [Advance(b)]
    ensures var r := Resolve(b, bd, w, h);
            r.bullets == [Advance(b)]
            <==> !Outside(Advance(b), w, h) && !InsideBox(Advance(b), bd.target)
                 && LastTouched(bd.zombies, Advance(b)) < 0
    ensures var r := Resolve(b, bd, w, h);
            r.bullets != [] || Outside(Advance(b), w, h) ==> r.board == bd
  {
  }

  /** A bullet inside the live target costs it 20 health, and it falls at
      zero or below; the bullet is used up and the rest of the board,
      the box's position and size included, is spared. */
  lemma ResolveTarget(b: Bullet, bd: Board, w: real, h: real)
    ensures var r := Resolve(b, bd, w, h);
            r.board.target != bd.target
            <==> !Outside(Advance(b), w, h) && InsideBox(Advance(b), bd.target)
    ensures var r := Resolve(b, bd, w, h);
            r.board.target != bd.target ==>
              && r.board.zombies == bd.zombies && r.board.killed == bd.killed
              && r.board.target.health == bd.target.health - BulletDamage
              && (r.board.target.alive <==> r.board.target.health > 0)
    ensures var m, r := Advance(b), Resolve(b, bd, w, h);
            !Outside(m, w, h) && InsideBox(m, bd.target) ==>
              && r.bullets == []
              && r.board == bd.(target := bd.target.(
                   health := bd.target.health - BulletDamage,
                   alive := bd.target.health - BulletDamage > 0))
  {
  }

  /** A kill is worth exactly 10 points, uses up the bullet, and is the only
      way a zombie leaves the list; no dead zombie stays in it. */
  lemma ResolveAccounts(b: Bullet, bd: Board, w: real, h: real)
    ensures var r := Resolve(b, bd, w, h);
            && r.board.score - bd.score == KillReward * (r.board.killed - bd.killed)
            && 0 <= r.board.killed - bd.killed <= 1 - |r.bullets|
            && |r.board.zombies| + r.board.killed == |bd.zombies| + bd.killed
    ensures AllAlive(bd.zombies) ==> AllAlive(Resolve(b, bd, w, h).board.zombies)
  {
    var m := Advance(b);
    if !Outside(m, w, h) && !InsideBox(m, bd.target) {
      var j := LastTouched(bd.zombies, m);
      if 0 <= j && bd.zombies[j].hp - BulletDamage <= 0 {
        var zs := bd.zombies;
        var rest := zs[..j] + zs[j + 1..];
        assert forall k :: 0 <= k < |rest| ==> rest[k] == (if k < j then zs[k] else zs[k + 1]);
      }
    }
  }

  /** Only the last zombie the bullet touches is struck: it loses 20 hit
      points and flashes for 8 ticks, and is spliced out at zero or below. */
  lemma ResolveStrikesLast(b: Bullet, bd: Board, w: real, h: real)
    ensures var r := Resolve(b, bd, w, h);
            var j := LastTouched(bd.zombies, Advance(b));
            r.board.zombies != bd.zombies ==>
              && 0 <= j
              && r.board.target == bd.target
              && (bd.zombies[j].hp <= BulletDamage ==> r.board.zombies == bd.zombies[..j] + bd.zombies[j + 1..])
              && (bd.zombies[j].hp > BulletDamage ==>
                    r.board.zombies == bd.zombies[j := bd.zombies[j].(hp := bd.zombies[j].hp - BulletDamage,
                                                                      flashT := FlashTicks)])
  {
    var m := Advance(b);
    if !Outside(m, w, h) && !InsideBox(m, bd.target) {
      var j := LastTouched(bd.zombies, m);
      if 0 <= j && bd.zombies[j].hp - BulletDamage <= 0 {
        assert Resolve(b, bd, w, h).board.zombies == bd.zombies[..j] + bd.zombies[j + 1..];
      }
    }
  }

  /** Conversely, a moved bullet that stays on the playfield, misses the live
      target and touches a zombie always strikes the last one it touches:
      the bullet is used up, and that zombie either dies (spliced out, one
      more kill, 10 more points) or loses 20 hit points and flashes. */
  lemma ResolveStrikesTouched(b: Bullet, bd: Board, w: real, h: real)
    ensures var m := Advance(b);
            var j := LastTouched(bd.zombies, m);
            var zs := bd.zombies;
            var r := Resolve(b, bd, w, h);
            !Outside(m, w, h) && !InsideBox(m, bd.target) && 0 <= j ==>
              && r.bullets == []
              && (zs[j].hp <= BulletDamage ==>
                    r.board == bd.(zombies := zs[..j] + zs[j + 1..], killed := bd.killed + 1,
                                   score := bd.score + KillReward))
              && (zs[j].hp > BulletDamage ==>
                    r.board == bd.(zombies := zs[j := zs[j].(hp := zs[j].hp - BulletDamage,
                                                             flashT := FlashTicks)]))
  {
  }

  /** A bullet that kills nobody leaves every zombie but the one it struck
      as it was. */
  lemma ResolveSparesOthers(b: Bullet, bd: Board, w: real, h: real)
    ensures var r := Resolve(b, bd, w, h);
            var j := LastTouched(bd.zombies, Advance(b));
            |r.board.zombies| == |bd.zombies| ==>
              forall k :: 0 <= k < |bd.zombies| && k != j ==> r.board.zombies[k] == bd.zombies[k]
  {
    ResolveStrikesLast(b, bd, w, h);
    var r := Resolve(b, bd, w, h);
    var zs := bd.zombies;
    var j := LastTouched(zs, Advance(b));
    if r.board.zombies != zs && zs[j].hp <= BulletDamage {
      assert |r.board.zombies| == |zs| - 1;
    }
  }

  /** The whole bullet pass: the last bullet first, then the ones before it.
      Survivors keep their relative order. */
  function Volley(bs: seq<Bullet>, bd: Board, w: real, h: real): Sweep
    decreases |bs|
  {
    if |bs| == 0 then Sweep([], bd)
    else
      var first := Resolve(bs[|bs| - 1], bd, w, h);
      var rest := Volley(bs[..|bs| - 1], first.board, w, h);
      Sweep(rest.bullets + first.bullets, rest.board)
  }

  /** The pass still to run over `prefix`, followed by bullets already kept. */
  function Finish(prefix: seq<Bullet>, bd: Board, kept: seq<Bullet>, w: real, h: real): Sweep {
    var r := Volley(prefix, bd, w, h);
    Sweep(r.bullets + kept, r.board)
  }

  /** Finishing the pass up to index `i` resolves bullet `i` first; the
      bullets after it are already settled. */
  lemma FinishStep(bs: seq<Bullet>, i: int, bd: Board, w: real, h: real)
    requires 0 <= i < |bs|
    ensures var r := Resolve(bs[i], bd, w, h);
            Finish(bs[..i + 1], bd, bs[i + 1..], w, h) == Finish(bs[..i], r.board, r.bullets + bs[i + 1..], w, h)
  {
    var r := Resolve(bs[i], bd, w, h);
    assert bs[..i + 1][i] == bs[i] && bs[..i + 1][..i] == bs[..i];
    var rest := Volley(bs[..i], r.board, w, h);
    assert rest.bullets + r.bullets + bs[i + 1..] == rest.bullets + (r.bullets + bs[i + 1..]);
  }

  lemma FinishDone(bs: seq<Bullet>, bd: Board, w: real, h: real)
    ensures Finish(bs[..0], bd, bs[0..], w, h) == Sweep(bs, bd)
  {
    assert bs[..0] == [] && bs[0..] == bs;
  }

  lemma FinishStart(bs: seq<Bullet>, bd: Board, w: real, h: real)
    ensures Finish(bs[..|bs|], bd, bs[|bs|..], w, h) == Volley(bs, bd, w, h)
  {
    assert bs[..|bs|] == bs && bs[|bs|..] == [];
  }

  /** Score rises by exactly 10 per kill; kills never outnumber the bullets
      used up; zombies leave the list only as kills; nothing left in flight is
      outside the playfield. */
  lemma {:induction false} VolleyAccounts(bs: seq<Bullet>, bd: Board, w: real, h: real)
    ensures Volley(bs, bd, w, h).board.score - bd.score
         == KillReward * (Volley(bs, bd, w, h).board.killed - bd.killed)
    ensures 0 <= Volley(bs, bd, w, h).board.killed - bd.killed
              <= |bs| - |Volley(bs, bd, w, h).bullets|
    ensures |Volley(bs, bd, w, h).board.zombies| + Volley(bs, bd, w, h).board.killed
         == |bd.zombies| + bd.killed
    ensures AllAlive(bd.zombies) ==> AllAlive(Volley(bs, bd, w, h).board.zombies)
    ensures forall k :: 0 <= k < |Volley(bs, bd, w, h).bullets| ==>
              !Outside(Volley(bs, bd, w, h).bullets[k], w, h)
    decreases |bs|
  {
    if |bs| > 0 {
      var first := Resolve(bs[|bs| - 1], bd, w, h);
      ResolveFate(bs[|bs| - 1], bd, w, h);
      ResolveAccounts(bs[|bs| - 1], bd, w, h);
      VolleyAccounts(bs[..|bs| - 1], first.board, w, h);
    }
  }

  /** `a` is `b` with some elements dropped, the rest in order. */
  ghost predicate Subsequence<T>(a: seq<T>, b: seq<T>)
    decreases |b|
  {
    if |a| == 0 then true
    else if |b| == 0 then false
    else (a[|a| - 1] == b[|b| - 1] && Subsequence(a[..|a| - 1], b[..|b| - 1]))
         || Subsequence(a, b[..|b| - 1])
  }

  function Advanced(bs: seq<Bullet>): (r: seq<Bullet>)
    ensures |r| == |bs| && forall k :: 0 <= k < |bs| ==> r[k] == Advance(bs[k])
  {
    seq(|bs|, k requires 0 <= k < |bs| => Advance(bs[k]))
  }

  /** The bullets left in flight are the moved bullets minus the removed
      ones, in their original order. */
  lemma {:induction false} VolleyKeepsOrder(bs: seq<Bullet>, bd: Board, w: real, h: real)
    ensures Subsequence(Volley(bs, bd, w, h).bullets, Advanced(bs))
    decreases |bs|
  {
    if |bs| > 0 {
      var n := |bs| - 1;
      var first := Resolve(bs[n], bd, w, h);
      ResolveFate(bs[n], bd, w, h);
      var rest := Volley(bs[..n], first.board, w, h);
      VolleyKeepsOrder(bs[..n], first.board, w, h);
      var all := Advanced(bs);
      assert all[..n] == Advanced(bs[..n]);
      var a := rest.bullets + first.bullets;
      if first.bullets == [] {
        assert a == rest.bullets;
      } else {
        assert a[|a| - 1] == all[n];
        assert a[..|a| - 1] == rest.bullets;
      }
    }
  }
}
