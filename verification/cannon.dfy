/** The cannon: a bounded round-robin pool of cannon balls and the interval
    timer that fires one ball from it. */
module CannonPool {
  import opened Wrappers
  import Fifo

  /** A cannon ball, identified by the order in which it was instantiated. */
  type BallId = nat

  /** The cannon's state. `nextId` is the identifier the next instantiated
      ball receives; `maxBalls` and `interval` are the serialized settings
      (`_maxCannonBalls`, `_timeInterval`). */
  datatype Cannon = Cannon(
    balls: Fifo.Queue<BallId>,
    nextId: nat,
    timer: real,
    maxBalls: int,
    interval: real)

  /** Raised by the queue when a ball is requested from an empty pool. */
  datatype CannonError = DequeueFromEmptyPool

  /** A spawn's outcome: the cannon afterwards and the ball it handed out. */
  datatype Spawned = Spawned(cannon: Cannon, ball: BallId)

  /** One frame's outcome: the cannon afterwards and the ball fired, if any. */
  datatype Frame = Frame(cannon: Cannon, fired: Option<BallId>)

  /** Several spawns or frames: the cannon afterwards and the balls handed
      out, in order. */
  datatype Volley = Volley(cannon: Cannon, balls: seq<BallId>)

  /** The state every reachable cannon is in: the pool never exceeds its
      capacity (and stays empty when the capacity is not positive), every
      ball ever instantiated is still pooled, and none is pooled twice. */
  ghost predicate Valid(c: Cannon) {
    && (|c.balls| <= c.maxBalls || |c.balls| == 0)
    && |c.balls| == c.nextId
    && (forall i :: 0 <= i < |c.balls| ==> c.balls[i] < c.nextId)
    && Fifo.Distinct(c.balls)
  }

  /** A freshly started cannon: empty pool, timer at zero. */
  function Start(maxBalls: int, interval: real): (c: Cannon)
    ensures Valid(c)
    ensures |c.balls| == 0 && c.timer == 0.0
    ensures c.maxBalls == maxBalls && c.interval == interval
  {
    Cannon([], 0, 0.0, maxBalls, interval)
  }

  /** Hands out a ball. Below capacity a new ball is instantiated and
      enqueued; at capacity the oldest ball is dequeued and enqueued again.
      A pool that is at capacity while empty has no ball to dequeue. */
  function Spawn(c: Cannon): (r: Result<Spawned, CannonError>)
    ensures r.Err? <==> c.maxBalls <= |c.balls| == 0
    ensures r.Ok? ==>
      var c' := r.value.cannon;
      && |c'.balls| > 0
      && c'.balls[|c'.balls| - 1] == r.value.ball
      && c'.timer == c.timer && c'.maxBalls == c.maxBalls && c'.interval == c.interval
    // the pool grows by one exactly when it was below capacity
    ensures r.Ok? ==>
      |r.value.cannon.balls| == if |c.balls| < c.maxBalls then |c.balls| + 1 else |c.balls|
  {
    if |c.balls| < c.maxBalls then
      var ball := c.nextId;
      Ok(Spawned(c.(balls := Fifo.Enqueue(c.balls, ball), nextId := c.nextId + 1), ball))
    else
      match Fifo.Dequeue(c.balls)
      case None => Err(DequeueFromEmptyPool)
      case Some((ball, rest)) =>
        Ok(Spawned(c.(balls := Fifo.Enqueue(rest, ball)), ball))
  }

  /** One frame of the cannon: below the interval the timer accumulates the
      frame time and nothing is fired; otherwise one ball is spawned and the
      timer resets. A failing spawn aborts the frame before anything changes. */
  function Update(c: Cannon, dt: real): (r: Result<Frame, CannonError>)
    ensures c.timer < c.interval ==>
      && r.Ok?
      && r.value.fired == None
      && r.value.cannon.timer == c.timer + dt
      && r.value.cannon.balls == c.balls
      && r.value.cannon.nextId == c.nextId
    ensures c.timer >= c.interval ==>
      match Spawn(c)
      case Err(e) => r == Err(e)
      case Ok(s) =>
        && r.Ok?
        && r.value.fired == Some(s.ball)
        && r.value.cannon.timer == 0.0
        && r.value.cannon.balls == s.cannon.balls
        && r.value.cannon.nextId == s.cannon.nextId
    ensures r.Ok? ==>
      r.value.cannon.maxBalls == c.maxBalls && r.value.cannon.interval == c.interval
  {
    if c.timer < c.interval then
      Ok(Frame(c.(timer := c.timer + dt), None))
    else
      match Spawn(c)
      case Err(e) => Err(e)
      case Ok(s) => Ok(Frame(s.cannon.(timer := 0.0), Some(s.ball)))
  }

  /** `k` spawns in a row. */
  function SpawnMany(c: Cannon, k: nat): (r: Result<Volley, CannonError>)
    ensures r.Ok? ==> |r.value.balls| == k
    ensures c.maxBalls >= 1 ==> r.Ok?
    decreases k
  {
    if k == 0 then Ok(Volley(c, []))
    else
      match Spawn(c)
      case Err(e) => Err(e)
      case Ok(s) =>
        match SpawnMany(s.cannon, k - 1)
        case Err(e) => Err(e)
        case Ok(v) => Ok(Volley(v.cannon, [s.ball] + v.balls))
  }

  /** Consecutive frames with the given frame times; the balls fired, in order. */
  function Run(c: Cannon, dts: seq<real>): (r: Result<Volley, CannonError>)
    ensures r.Ok? ==> |r.value.balls| <= |dts|
    ensures r.Ok? ==> r.value.cannon.maxBalls == c.maxBalls && r.value.cannon.interval == c.interval
    decreases |dts|
  {
    if |dts| == 0 then Ok(Volley(c, []))
    else
      match Update(c, dts[0])
      case Err(e) => Err(e)
      case Ok(f) =>
        match Run(f.cannon, dts[1..])
        case Err(e) => Err(e)
        case Ok(v) =>
          Ok(Volley(v.cannon, (if f.fired.Some? then [f.fired.value] else []) + v.balls))
  }
}
