# Cannon ball pool and firing timer

A Dafny model of the cannon in the active-ragdolls demo scene
(`active-ragdolls/Assets/Cannon.cs`). The cannon fires a ball on the first
frame after its timer has reached `_timeInterval`, so consecutive shots are
at least `_timeInterval` plus one frame apart. It never holds more than
`_maxCannonBalls` balls, and none when the capacity is not positive:
it keeps them in a first-in first-out queue that works as a round-robin
object pool. Below capacity, a spawn instantiates a new ball and enqueues
it. At capacity, the oldest ball is dequeued, enqueued again at the back
and fired once more.

The model is functional. A `Cannon` value holds the queue (front first),
the identifier the next instantiated ball will get, the timer, and the two
settings. `Spawn` and `Update` are pure functions from one such value to the
next. A spawn that would raise an exception in the cannon (dequeueing from an
empty queue) returns `Err` instead.

- `wrappers.dfy`: `Option` and `Result`.
- `fifo.dfy`: the queue the cannon uses (`Enqueue`, `Dequeue`, and one rotation of the front to the back).
- `cannon.dfy`: the cannon state, `Start`, `Spawn`, `Update`, and the folds `SpawnMany` (repeated spawns) and `Run` (repeated frames).
- `cannon_properties.dfy`: the invariant `Valid` and the lemmas about pool bound, freshness, rotation, full cycles and firing cadence.

Unity's `Instantiate` is modelled as handing out the next identifier from a
counter, so a new ball is one that was never handed out before. Balls are
never destroyed, so `Valid` records that the pool holds every ball ever
instantiated, each exactly once. Frame time (`Time.deltaTime`) is a
parameter of `Update`. The timer is a `real`.

## Model

| member | source | states |
|---|---|---|
| Fifo.Enqueue | active-ragdolls/Assets/Cannon.cs:45 | the queue grows by one; earlier elements keep their places; the new element is at the back; the multiset gains exactly that element |
| Fifo.Dequeue | active-ragdolls/Assets/Cannon.cs:49 | fails exactly on an empty queue; otherwise the front followed by the rest rebuilds the queue |
| Fifo.RotatePreserves | active-ragdolls/Assets/Cannon.cs:49-50 | dequeue-then-enqueue moves the front to the back; it keeps the multiset of elements and keeps them pairwise distinct |
| CannonPool.Start | active-ragdolls/Assets/Cannon.cs:17-23 | a started cannon has an empty pool and a zero timer, and satisfies the invariant |
| CannonPool.Spawn | active-ragdolls/Assets/Cannon.cs:40-53 | fails exactly when the pool is empty and not below capacity; the returned ball is always last in the queue; the pool grows by one exactly when it was below capacity and keeps its size otherwise; timer and settings are untouched |
| CannonPool.Update | active-ragdolls/Assets/Cannon.cs:26-38 | below the interval, the frame time is added to the timer, nothing is fired and the pool is unchanged. Otherwise exactly the ball a spawn hands out is fired, the pool is the one that spawn leaves, and the timer becomes 0. A failing spawn fails the frame |
| CannonPool.SpawnMany | active-ragdolls/Assets/Cannon.cs:40-53 | k successful spawns hand out k balls; with a positive capacity they never fail |
| CannonPool.Run | active-ragdolls/Assets/Cannon.cs:26-38 | n frames fire at most n balls and leave the settings unchanged |
| CannonProperties.SpawnPreservesValid | active-ragdolls/Assets/Cannon.cs:41-51 | every spawn keeps the pool within capacity, duplicate-free and holding every instantiated ball, and the spawned ball is in the pool |
| CannonProperties.SpawnBelowCapacityAppends | active-ragdolls/Assets/Cannon.cs:41-46 | below capacity a spawn instantiates the next identifier, appends it at the back and returns it; the rest of the pool is untouched |
| CannonProperties.SpawnBelowCapacityIsFresh | active-ragdolls/Assets/Cannon.cs:41-46 | below capacity, on a valid cannon, the returned ball was not pooled before |
| CannonProperties.SpawnAtCapacityRotates | active-ragdolls/Assets/Cannon.cs:48-51 | at capacity a spawn returns the former front and moves it to the back; no ball is instantiated |
| CannonProperties.SpawnAtCapacityKeepsPool | active-ragdolls/Assets/Cannon.cs:48-51 | at capacity the other balls keep their relative order, and the count, multiset and set of pooled balls are unchanged |
| CannonProperties.SpawnFailsExactlyWithoutCapacity | active-ragdolls/Assets/Cannon.cs:41-49 | on a valid cannon a spawn never fails when the capacity is at least 1, and always fails with the empty-queue error when it is 0 or less |
| CannonProperties.FirstSpawnFails | active-ragdolls/Assets/Cannon.cs:21-49 | the first spawn after Start fails exactly when the capacity is not positive |
| CannonProperties.SpawnManyRotates | active-ragdolls/Assets/Cannon.cs:48-51 | at capacity, k spawns (k up to the pool size) return the k oldest balls in queue order and move them, in order, to the back |
| CannonProperties.FullCycleRestoresPool | active-ragdolls/Assets/Cannon.cs:49-50 | at capacity, maxBalls consecutive spawns return every pooled ball exactly once, in queue order, and leave the cannon exactly as it was |
| CannonProperties.SpawnManyFills | active-ragdolls/Assets/Cannon.cs:41-46 | below capacity, k spawns instantiate k balls with consecutive new identifiers and append them in order |
| CannonProperties.StartFillsPool | active-ragdolls/Assets/Cannon.cs:21-46 | from a fresh start, the first maxBalls spawns return balls 0..maxBalls-1 in order and leave the pool full with exactly them |
| CannonProperties.UpdatePreservesValid | active-ragdolls/Assets/Cannon.cs:26-37 | every frame keeps the invariant; a frame that fires nothing leaves the pool unchanged; with non-negative frame time the timer stays non-negative |
| CannonProperties.RunPreservesValid | active-ragdolls/Assets/Cannon.cs:26-53 | any sequence of frames keeps the invariant, so the pool never exceeds maxBalls and at most maxBalls balls are ever instantiated |
| CannonProperties.RunNeverFails | active-ragdolls/Assets/Cannon.cs:26-53 | with a capacity of at least 1, every sequence of frames runs without the empty-queue error |
| CannonProperties.ElapsedIsProduct | active-ragdolls/Assets/Cannon.cs:28 | the time n accumulating frames of length dt add to the timer is n*dt |
| CannonProperties.QuietFrames | active-ragdolls/Assets/Cannon.cs:28 | while the timer stays below the interval, n frames of length dt fire nothing and end with the timer at its start value plus n*dt |
| CannonProperties.FiresAfterQuietFrames | active-ragdolls/Assets/Cannon.cs:28-36 | for any cannon with capacity at least 1: if timer + n*dt reaches the interval and timer + (n-1)*dt does not, then n+1 frames of length dt fire exactly one ball and end with the timer at 0 |
| CannonProperties.RunAppend | active-ragdolls/Assets/Cannon.cs:26-38 | running two frame sequences one after the other equals running their concatenation; the fired balls concatenate too |

## Left out

- `active-ragdolls/Assets/Scripts/Camera.cs` is not part of this model. It is camera placement built on floating-point transforms, raycasts and input callbacks.
- The physics side effects of a shot are not modelled: the velocity reset, `MovePosition`, `MoveRotation` and the launch impulse (`Cannon.cs:31-34`). `_launchForce` and `_spawnPoint` therefore do not appear.
- The solver-iteration settings given to a new ball are not modelled (`Cannon.cs:43-44`). They are engine parameters and do not affect the pool.
- `Instantiate` is reduced to handing out a fresh identifier; the prefab copy itself is not modelled.
- The timer is a `real`, so single-precision rounding of the accumulated `Time.deltaTime` is not modelled.
- `_maxCannonBalls` and `_timeInterval` are fixed for the cannon's lifetime. Editing them in the inspector while running, which could leave more balls pooled than the new capacity, is not modelled.
- What Unity does with an exception thrown from `Update` (it logs it and keeps calling `Update` every frame) is outside the model. A failing frame returns `Err` and changes nothing, because the empty `Dequeue` throws before the timer is reset.
