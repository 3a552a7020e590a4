/** Properties of the cannon's pool and timer. */
module CannonProperties {
  import opened Wrappers
  import Fifo
  import opened CannonPool

  /** The consecutive identifiers `lo`, `lo + 1`, ..., `hi - 1`. */
  function Range(lo: nat, hi: nat): seq<BallId>
    requires lo <= hi
  {
    seq(hi - lo, i requires 0 <= i < hi - lo => lo + i)
  }

  /** `n` frames of the same duration `dt`. */
  function Repeat(dt: real, n: nat): seq<real>
  {
    seq(n, _ => dt)
  }

  /** Every spawn keeps the cannon valid: the pool stays within capacity,
      holds each instantiated ball exactly once, and the spawned ball is in it. */
  lemma SpawnPreservesValid(c: Cannon)
    requires Valid(c)
    ensures Spawn(c).Ok? ==> Valid(Spawn(c).value.cannon)
    ensures Spawn(c).Ok? ==> Spawn(c).value.ball in Spawn(c).value.cannon.balls
    ensures c.maxBalls >= 0 ==> Spawn(c).Ok? ==> |Spawn(c).value.cannon.balls| <= c.maxBalls
  {
    if |c.balls| < c.maxBalls {
      SpawnBelowCapacityAppends(c);
      var c' := Spawn(c).value.cannon;
      assert c'.balls[|c.balls|] == c.nextId;
    } else if |c.balls| > 0 {
      SpawnAtCapacityRotates(c);
      Fifo.RotatePreserves(c.balls);
      var c' := Spawn(c).value.cannon;
      forall i | 0 <= i < |c'.balls|
        ensures c'.balls[i] < c'.nextId
      {
        assert c'.balls[i] in multiset(c.balls);
      }
    }
  }

  /** Below capacity a spawn instantiates a new ball and enqueues it at the
      back: the pool becomes the old pool plus that ball. */
  lemma SpawnBelowCapacityAppends(c: Cannon)
    requires |c.balls| < c.maxBalls
    ensures Spawn(c) == Ok(Spawned(c.(balls := c.balls + [c.nextId], nextId := c.nextId + 1), c.nextId))
  {
  }

  /** Below capacity, on a valid cannon, the spawned ball was not pooled before. */
  lemma SpawnBelowCapacityIsFresh(c: Cannon)
    requires Valid(c) && |c.balls| < c.maxBalls
    ensures Spawn(c).Ok? && Spawn(c).value.ball !in c.balls
  {
  }

  /** At capacity a spawn returns the oldest ball and moves it to the back. */
  lemma SpawnAtCapacityRotates(c: Cannon)
    requires c.maxBalls <= |c.balls| && |c.balls| > 0
    ensures Spawn(c) == Ok(Spawned(c.(balls := c.balls[1..] + [c.balls[0]]), c.balls[0]))
  {
  }

  /** At capacity the other balls keep their order, and the count and the
      set of pooled balls do not change. */
  lemma SpawnAtCapacityKeepsPool(c: Cannon)
    requires c.maxBalls <= |c.balls| && |c.balls| > 0
    ensures Spawn(c).Ok?
    ensures var c' := Spawn(c).value.cannon;
      && c'.balls[..|c.balls| - 1] == c.balls[1..]
      && multiset(c'.balls) == multiset(c.balls)
      && (set b | b in c'.balls) == (set b | b in c.balls)
      && |c'.balls| == |c.balls|
  {
    SpawnAtCapacityRotates(c);
    Fifo.RotatePreserves(c.balls);
    var c' := Spawn(c).value.cannon;
    assert forall b :: b in c'.balls <==> b in multiset(c'.balls);
  }

  /** On a valid cannon a spawn fails exactly when the capacity is not
      positive: then the pool is empty and there is no ball to dequeue. */
  lemma SpawnFailsExactlyWithoutCapacity(c: Cannon)
    requires Valid(c)
    ensures c.maxBalls >= 1 ==> Spawn(c).Ok?
    ensures c.maxBalls <= 0 ==> Spawn(c) == Err(DequeueFromEmptyPool)
  {
  }

  /** The first spawn after a start fails exactly when the capacity is not
      positive. */
  lemma FirstSpawnFails(maxBalls: int, interval: real)
    ensures maxBalls <= 0 <==> Spawn(Start(maxBalls, interval)).Err?
  {
  }

  /** At capacity, `k` spawns (up to the pool size) hand out the `k` oldest
      balls in queue order and rotate them, in order, to the back. */
  lemma {:induction false} SpawnManyRotates(c: Cannon, k: nat)
    requires c.maxBalls <= |c.balls| && k <= |c.balls|
    ensures SpawnMany(c, k) == Ok(Volley(c.(balls := c.balls[k..] + c.balls[..k]), c.balls[..k]))
    decreases k
  {
    var b := c.balls;
    if k > 0 {
      var c1 := c.(balls := b[1..] + [b[0]]);
      SpawnAtCapacityRotates(c);
      SpawnManyRotates(c1, k - 1);
      RotateOnceMore(b, k);
      var rotated := b[k..] + b[..k];
      var w := SpawnMany(c1, k - 1).value;
      assert w == Volley(c1.(balls := rotated), c1.balls[..k - 1]);
      assert c1.(balls := rotated) == c.(balls := rotated);
      StepSpawnMany(c, k, Spawned(c1, b[0]), w);
    } else {
      assert b[k..] + b[..k] == b;
    }
  }

  /** Rotating the front to the back and then the next `k - 1` elements is
      rotating the first `k` elements. */
  lemma RotateOnceMore(b: seq<BallId>, k: nat)
    requires 0 < k <= |b|
    ensures var b1 := b[1..] + [b[0]];
      && b1[k - 1..] + b1[..k - 1] == b[k..] + b[..k]
      && [b[0]] + b1[..k - 1] == b[..k]
  {
    var b1 := b[1..] + [b[0]];
    assert b1[k - 1..] == b[k..] + [b[0]];
    assert b1[..k - 1] == b[1..k];
    assert b[..k] == [b[0]] + b[1..k];
  }

  /** Unfolds `SpawnMany` by one successful spawn. */
  lemma StepSpawnMany(c: Cannon, k: nat, s: Spawned, v: Volley)
    requires k > 0 && Spawn(c) == Ok(s) && SpawnMany(s.cannon, k - 1) == Ok(v)
    ensures SpawnMany(c, k) == Ok(Volley(v.cannon, [s.ball] + v.balls))
  {
  }

  /** At capacity, a full cycle of spawns hands out every pooled ball
      exactly once, oldest first, and leaves the pool as it was. */
  lemma FullCycleRestoresPool(c: Cannon, k: nat)
    requires k == |c.balls| == c.maxBalls && k >= 1
    ensures SpawnMany(c, k) == Ok(Volley(c, c.balls))
  {
    SpawnManyRotates(c, k);
    assert c.balls[k..] + c.balls[..k] == c.balls;
    assert c.balls[..k] == c.balls;
  }

  /** Below capacity, `k` spawns instantiate `k` new balls with consecutive
      identifiers and append them, in order, behind the pooled ones. */
  lemma {:induction false} SpawnManyFills(c: Cannon, k: nat)
    requires |c.balls| + k <= c.maxBalls
    ensures SpawnMany(c, k) == Ok(Volley(
      c.(balls := c.balls + Range(c.nextId, c.nextId + k), nextId := c.nextId + k),
      Range(c.nextId, c.nextId + k)))
    decreases k
  {
    if k > 0 {
      var c1 := c.(balls := c.balls + [c.nextId], nextId := c.nextId + 1);
      var added := Range(c.nextId, c.nextId + k);
      var tail := Range(c.nextId + 1, c.nextId + k);
      var filled := c.(balls := c.balls + added, nextId := c.nextId + k);
      assert Spawn(c) == Ok(Spawned(c1, c.nextId)) by {
        SpawnBelowCapacityAppends(c);
      }
      assert SpawnMany(c1, k - 1) == Ok(Volley(filled, tail)) by {
        SpawnManyFills(c1, k - 1);
        RangeStep(c.balls, c.nextId, k);
        assert c1.(balls := c1.balls + tail, nextId := c1.nextId + (k - 1)) == filled;
      }
      assert [c.nextId] + tail == added by {
        RangeStep(c.balls, c.nextId, k);
      }
      StepSpawnMany(c, k, Spawned(c1, c.nextId), Volley(filled, tail));
    } else {
      assert c.balls + Range(c.nextId, c.nextId) == c.balls;
    }
  }

  /** Appending identifier `lo` and then the next `k - 1` identifiers is
      appending the `k` identifiers from `lo`. */
  lemma RangeStep(b: seq<BallId>, lo: nat, k: nat)
    requires k > 0
    ensures [lo] + Range(lo + 1, lo + k) == Range(lo, lo + k)
    ensures b + [lo] + Range(lo + 1, lo + k) == b + Range(lo, lo + k)
  {
    assert [lo] + Range(lo + 1, lo + k) == Range(lo, lo + k);
  }

  /** From a fresh start, the first `maxBalls` spawns instantiate balls
      0 .. maxBalls-1 in that order and leave the pool full with them. */
  lemma StartFillsPool(maxBalls: nat, interval: real)
    ensures SpawnMany(Start(maxBalls, interval), maxBalls) ==
      Ok(Volley(Start(maxBalls, interval).(balls := Range(0, maxBalls), nextId := maxBalls),
                Range(0, maxBalls)))
  {
    SpawnManyFills(Start(maxBalls, interval), maxBalls);
    assert [] + Range(0, maxBalls) == Range(0, maxBalls);
  }

  /** Every frame keeps the cannon valid; frames that do not fire leave the
      pool alone; a non-negative timer stays non-negative. */
  lemma UpdatePreservesValid(c: Cannon, dt: real)
    requires Valid(c)
    ensures Update(c, dt).Ok? ==> Valid(Update(c, dt).value.cannon)
    ensures Update(c, dt).Ok? && Update(c, dt).value.fired.None? ==>
      Update(c, dt).value.cannon.balls == c.balls
    ensures c.timer >= 0.0 && dt >= 0.0 && Update(c, dt).Ok? ==>
      Update(c, dt).value.cannon.timer >= 0.0
  {
    SpawnPreservesValid(c);
  }

  /** Any sequence of frames keeps the cannon valid, so the pool never
      exceeds its capacity and no more than `maxBalls` balls are ever
      instantiated. */
  lemma {:induction false} RunPreservesValid(c: Cannon, dts: seq<real>)
    requires Valid(c)
    ensures Run(c, dts).Ok? ==> Valid(Run(c, dts).value.cannon)
    ensures Run(c, dts).Ok? && c.maxBalls >= 0 ==>
      Run(c, dts).value.cannon.nextId <= c.maxBalls
    decreases |dts|
  {
    if |dts| > 0 && Update(c, dts[0]).Ok? {
      UpdatePreservesValid(c, dts[0]);
      RunPreservesValid(Update(c, dts[0]).value.cannon, dts[1..]);
    }
  }

  /** With a positive capacity no sequence of frames ever fails. */
  lemma {:induction false} RunNeverFails(c: Cannon, dts: seq<real>)
    requires c.maxBalls >= 1
    ensures Run(c, dts).Ok?
    decreases |dts|
  {
    if |dts| > 0 {
      assert Update(c, dts[0]).Ok?;
      RunNeverFails(Update(c, dts[0]).value.cannon, dts[1..]);
    }
  }

  /** The time `n` frames of length `dt` add to the timer. */
  function Elapsed(dt: real, n: nat): (r: real)
    ensures dt >= 0.0 ==> r >= 0.0
    decreases n
  {
    if n == 0 then 0.0 else dt + Elapsed(dt, n - 1)
  }

  /** `n` frames of length `dt` take `n * dt`. */
  lemma {:induction false} ElapsedIsProduct(dt: real, n: nat)
    ensures Elapsed(dt, n) == (n as real) * dt
    decreases n
  {
    if n > 0 {
      ElapsedIsProduct(dt, n - 1);
      assert (n as real) * dt == ((n - 1) as real) * dt + dt;
    }
  }

  /** While the timer stays below the interval the frames only accumulate
      time: after `n` quiet frames of length `dt` the timer has grown by
      the elapsed time and nothing has been fired. */
  lemma {:induction false} QuietFrames(c: Cannon, dt: real, n: nat)
    requires dt >= 0.0
    requires n == 0 || c.timer + Elapsed(dt, n - 1) < c.interval
    ensures Run(c, Repeat(dt, n)) == Ok(Volley(c.(timer := c.timer + Elapsed(dt, n)), []))
    ensures Run(c, Repeat(dt, n)).value.cannon.timer == c.timer + (n as real) * dt
    decreases n
  {
    if n > 0 {
      var c1 := c.(timer := c.timer + dt);
      assert c.timer < c.interval;
      assert Repeat(dt, n)[1..] == Repeat(dt, n - 1);
      QuietStep(c, Repeat(dt, n));
      QuietFrames(c1, dt, n - 1);
      assert c1.(timer := c1.timer + Elapsed(dt, n - 1)) == c.(timer := c.timer + Elapsed(dt, n));
    }
    assert c.timer + Elapsed(dt, n) == c.timer + (n as real) * dt by {
      ElapsedIsProduct(dt, n);
    }
  }

  /** A frame below the interval fires nothing: the run continues from the
      cannon with the frame time added to its timer. */
  lemma QuietStep(c: Cannon, dts: seq<real>)
    requires |dts| > 0 && c.timer < c.interval
    ensures Run(c, dts) == Run(c.(timer := c.timer + dts[0]), dts[1..])
  {
    match Run(c.(timer := c.timer + dts[0]), dts[1..])
    case Err(e) =>
    case Ok(v) => assert [] + v.balls == v.balls;
  }

  /** The firing cadence: if `n` frames of length `dt` bring the timer up to
      the interval (and `n - 1` do not), then the next frame fires exactly
      one ball and resets the timer, so `n + 1` frames fire once. */
  lemma FiresAfterQuietFrames(c: Cannon, dt: real, n: nat)
    requires c.maxBalls >= 1
    requires dt >= 0.0
    requires n == 0 || c.timer + ((n - 1) as real) * dt < c.interval
    requires c.timer + (n as real) * dt >= c.interval
    ensures Run(c, Repeat(dt, n + 1)).Ok?
    ensures |Run(c, Repeat(dt, n + 1)).value.balls| == 1
    ensures Run(c, Repeat(dt, n + 1)).value.cannon.timer == 0.0
  {
    ElapsedIsProduct(dt, n);
    if n > 0 {
      ElapsedIsProduct(dt, n - 1);
    }
    QuietFrames(c, dt, n);
    RunAppend(c, Repeat(dt, n), Repeat(dt, 1));
    assert Repeat(dt, n) + Repeat(dt, 1) == Repeat(dt, n + 1);
    var cn := c.(timer := c.timer + Elapsed(dt, n));
    assert Spawn(cn).Ok?;
    assert Repeat(dt, 1)[1..] == [];
  }

  /** Running two sequences of frames one after the other is running their
      concatenation; the fired balls concatenate too. */
  lemma {:induction false} RunAppend(c: Cannon, xs: seq<real>, ys: seq<real>)
    ensures Run(c, xs + ys) ==
      match Run(c, xs)
      case Err(e) => Err(e)
      case Ok(v) =>
        match Run(v.cannon, ys)
        case Err(e) => Err(e)
        case Ok(w) => Ok(Volley(w.cannon, v.balls + w.balls))
    decreases |xs|
  {
    if |xs| == 0 {
      assert xs + ys == ys;
      match Run(c, ys)
      case Err(e) =>
      case Ok(w) => assert [] + w.balls == w.balls;
    } else {
      assert (xs + ys)[0] == xs[0];
      assert (xs + ys)[1..] == xs[1..] + ys;
      match Update(c, xs[0])
      case Err(e) =>
      case Ok(f) =>
        RunAppend(f.cannon, xs[1..], ys);
        var pre: seq<BallId> := if f.fired.Some? then [f.fired.value] else [];
        match Run(f.cannon, xs[1..])
        case Err(e) =>
        case Ok(v) =>
          match Run(v.cannon, ys)
          case Err(e) =>
          case Ok(w) =>
            assert pre + (v.balls + w.balls) == (pre + v.balls) + w.balls;
    }
  }
}
