# NPC state-machine game: a Dafny model of its gameplay core

The game is a small 2D action demo. A player sprite moves with the arrow keys
and swings a sword with SPACE. A single NPC patrols, chases, attacks and dies,
depending on its health and its distance to the player. Every gameplay quantity
is an integer: positions, health, the attack cooldown and the patrol direction.
This project models that integer state machine, stepped once per tick, and
proves what it promises.

Files and modules:

- `geometry.dfy` (`Geometry`): the rectangle operations the game relies on:
  centre, centre setter, overlap, point hit test and squared centre distance.
- `player.dfy` (`PlayerEntity`): the class `Player` with its mutable rectangles
  and sword angle, and the pure functions `Moved` and `SwordPlaced` that
  specify its two methods.
- `npc.dfy` (`NpcController`): the class `NPC` and its `Update` method. Also the
  pure transition rule `NextState`, the exact chase step `ChaseDelta` and the
  specification function `Updated`.
- `npc_properties.dfy` (`NpcProperties`): lemmas about one NPC. They tie the
  integer model to the Euclidean distance and to the real-valued chase formula.
  They state what each state's action changes, the invariants, the patrol band
  and the attack rhythm.
- `game.dfy` (`GameLoop`): input events, combat (`Struck`), replay, and
  `Step`, which is one tick in the source's order: events, then `move`, then
  `update_sword`, then the NPC `update`. The class `Game` holds the two
  entities. Its `Tick` method loops over the events and replaces both entities
  with fresh objects on replay.
- `game_properties.dfy` (`GameProperties`): lemmas about combat, replay and
  whole runs of ticks.

Each mutating method states its whole new state as a pure function of the old
one (for example `View() == Updated(old(View()), player.rect)`). The lemmas are
stated about those functions.

Assumptions about the rectangle library, whose code is not part of this model:

- Overlap is half-open: `a.x < b.x + b.w && b.x < a.x + a.w`, and the same for y.
- A point hits a rectangle when `x <= px < x + w`, and the same for y.
- `centerx` is `x + w / 2`.
- The centre setter gives `x = cx - w / 2`.
- Every size is positive.

Distances use exact integer squared distance. `NextStateByDistance` proves that
this is the same rule as comparing the real distance `dist` with 50 and 200.
`ChaseDeltaTruncates` proves that `ChaseDelta` equals `int(2 * d / max(dist, 1))`
computed exactly over the reals.

Three behaviours of the code differ from what the game intends. The model
follows the code:

- The patrol is meant to turn once per crossing of a bound. The code turns
  whenever the x reached is `<= 500` or `>= 700`, on every tick. On an even x
  in [500, 700], heading inward when at a bound, this still gives exactly one
  turn at each bound (`PatrolKeepsBand`). Other positions are reached only
  after a chase; at a bound heading outward, for example, a chase can leave it
  (`ChaseOntoBoundHeadingOutward`). At a bound heading outward, at least 2
  outside the band, or 1 outside heading outward, the NPC steps back and forth
  between two points (`PatrolOutsideRangeOscillates`). If it is 1 outside and
  heading inward, it walks back into the band (`PatrolReentersFromOnePixelOut`).
- The sword is meant to sit beside the player. It is centred there only by
  `update_sword`. A new player, at the start or after replay, has its sword at
  (0, 0, 30, 60) until the end of its first tick. A SPACE event handled after a
  replay in the same tick is tested against that rectangle.
- A lethal hit is meant to make the NPC `Dead` on the tick after the hit. The
  code makes it `Dead` in the `update` of the same tick (`FourHitsThenDead`),
  because a tick handles its events before it calls the NPC's `update`.

## Model

| member | source | states |
|---|---|---|
| Geometry.WithCenter | npc_game.py:57 | the centre setter keeps the size and puts the centre exactly at the given point |
| Geometry.CentreDistanceSquared | npc_game.py:80-83 | squared distance between centres is non-negative and zero exactly when the centres coincide |
| Geometry.DistanceSymmetric | npc_game.py:81-82 | the distance is the same measured NPC-to-player (state rule) or player-to-NPC (chase) |
| PlayerEntity.Moved | npc_game.py:45-53 | x changes by 5 * (RIGHT - LEFT) and y by 5 * (DOWN - UP); size, sword and angle stay |
| PlayerEntity.OppositeKeysCancel | npc_game.py:45-53 | holding both keys of an axis leaves the player where it was |
| PlayerEntity.SwordPlaced | npc_game.py:55-57 | after placing, the sword centre is (x + 50, y + 40); its size and the player stay |
| PlayerEntity.SwordCorner | npc_game.py:33 | with a 30 by 60 sword, placing it puts its corner at (x + 35, y + 10) |
| PlayerEntity.Player.constructor | npc_game.py:37-43 | a new player is at (100, 300), 50 by 100, sword rectangle (0, 0, 30, 60), angle 0 |
| PlayerEntity.Player.Move | npc_game.py:45-53 | the new player state is `Moved` of the old one |
| PlayerEntity.Player.UpdateSword | npc_game.py:55-57 | the new player state is `SwordPlaced` of the old one |
| NpcController.NextState | npc_game.py:86-93 | Dead iff health <= 0; otherwise Attacking iff d2 < 2500, Chasing iff 2500 <= d2 < 40000, Patrolling iff d2 >= 40000 |
| NpcController.ChaseDelta | npc_game.py:100-105 | the step is at most 2 in size and never points away from the player; it is 0 when the difference is 0; its size k is the truncated quotient, k*k*s <= 4*d*d < (k+1)^2*s |
| NpcController.Patrol | npc_game.py:95-98 | the patrol action; specified by `NpcProperties.PatrolAction`, `PatrolKeepsBand`, `PatrolOutsideRangeOscillates` and `PatrolReentersFromOnePixelOut` |
| NpcController.Chase | npc_game.py:100-105 | the chase action; specified by `NpcProperties.ChaseAction`, `ChaseApproaches` and, per axis, `ChaseDeltaTruncates` |
| NpcController.Attack | npc_game.py:107-112 | the attack action; specified by `NpcProperties.AttackAction`, `CountsDown` and `AttackPeriod` |
| NpcController.Updated | npc_game.py:85-112 | one `update`: state from `NextState`, then that state's action; specified by the four `NpcProperties` action lemmas and `UpdatePreservesInv` |
| NpcController.Fires | npc_game.py:107-109 | the attack message is printed; specified by `NpcProperties.AttackAction`, `DeadAction` and `CooldownOnlyWhileAttacking`: only when Attacking with cooldown 0 |
| NpcController.NPC.constructor | npc_game.py:69-78 | a new NPC is at (600, 300), Patrolling, direction 1, health 100, cooldown 0, and keeps the invariant |
| NpcController.NPC.Update | npc_game.py:85-112 | the new NPC state is `Updated` of the old one; `fired` holds exactly when an attack fires; the invariant is kept |
| NpcProperties.NextStateByDistance | npc_game.py:80-93 | with dist the exact Euclidean distance, the rule is Dead, else dist < 50 Attacking, else dist < 200 Chasing, else Patrolling |
| NpcProperties.ChaseDeltaTruncates | npc_game.py:100-105 | the integer step equals `int(2 * d / max(dist, 1))` evaluated exactly, including the floor of 1 when the centres coincide |
| NpcProperties.ChaseApproaches | npc_game.py:100-105 | a chasing NPC ends its tick strictly closer to the player's centre |
| NpcProperties.PatrolAction | npc_game.py:95-98 | patrolling moves only x, by exactly patrol_dir * 2, and negates the direction exactly when the new x <= 500 or >= 700 |
| NpcProperties.ChaseVectorBound | npc_game.py:101-105 | the two axis steps together form a vector at most 2 long: sx * sx + sy * sy <= 4 |
| NpcProperties.ChaseAction | npc_game.py:100-105 | the chase step vector is at most 2 long and no axis moves away from the player; direction, health and cooldown stay |
| NpcProperties.AttackAction | npc_game.py:107-112 | attacking leaves the position unchanged; cooldown 0 fires and becomes 60, otherwise the cooldown drops by 1 |
| NpcProperties.DeadAction | npc_game.py:86-87 | with no health the NPC becomes Dead and nothing else changes; no attack fires |
| NpcProperties.CooldownOnlyWhileAttacking | npc_game.py:107-112 | the cooldown changes only on an Attacking tick; a firing tick reloads it to 60 |
| NpcProperties.UpdatePreservesInv | npc_game.py:75-78 | every update keeps direction in {-1, 1}, cooldown in [0, 60] and Dead only with health <= 0 |
| NpcProperties.PatrolKeepsBand | npc_game.py:95-98 | patrolling stays on even x in [500, 700] and turns exactly when it reaches a bound |
| NpcProperties.InitialInPatrolBand | npc_game.py:71-78 | the initial NPC is in the patrol band and keeps the invariant |
| NpcProperties.PatrolOutsideRangeOscillates | npc_game.py:96-98 | at a bound heading outward, at least 2 outside the range, or 1 outside heading outward, each patrol step moves and two steps return to the same x and direction |
| NpcProperties.PatrolReentersFromOnePixelOut | npc_game.py:96-98 | 1 outside the range heading inward, the first step lands strictly inside without a turn and the second moves on inward |
| NpcProperties.ChaseOntoBoundHeadingOutward | npc_game.py:100-105 | a chasing NPC at 502 heading left, with the player 100 to its left, lands on the bound 500 with its direction still -1 |
| NpcProperties.CountsDown | npc_game.py:107-112 | alive and within attack range of a still player, each tick keeps the position and lowers the cooldown by one |
| NpcProperties.AttackPeriod | npc_game.py:107-112 | against a still player in range, after an attack the next 60 updates fire none and the 61st fires |
| GameLoop.Struck | npc_game.py:166-172 | a SPACE press takes exactly 25 health on overlap with a living NPC and none otherwise; it never changes the state; the angle becomes 90 only against a living NPC |
| GameLoop.OnEvent | npc_game.py:162-183 | one event; specified by `GameLoop.Struck`, `GameProperties.KeyUpExactly`, `ReplayExactly`, `StateChangesOnlyByReplay`, `SwordAngleFlag` and `StrikeOnDeadIsNoOp` |
| GameLoop.OnEvents | npc_game.py:162 | the tick's queued events handled in order; specified by `GameLoop.OnEventsPreservesInv`, `GameProperties.EventsOnlyWound` and `FourHitsThenDead` |
| GameLoop.AfterInput | npc_game.py:162-186 | the events, then `move`, then `update_sword`; specified by `GameProperties.SwordFollowsPlayer` |
| GameLoop.OnEventsPreservesInv | npc_game.py:162-183 | handling any sequence of events keeps the NPC invariant |
| GameLoop.StepPreservesInv | npc_game.py:185-187 | a whole tick keeps the invariant |
| GameLoop.Step | npc_game.py:160-187 | one tick in the order events, move, sword, update; specified by `GameLoop.StepPreservesInv` and `GameProperties.SwordFollowsPlayer` |
| GameLoop.Game.constructor | npc_game.py:155-156 | the loop starts from the initial player and NPC |
| GameLoop.Game.Strike | npc_game.py:166-172 | the new state is `Struck` of the old one, and the invariant is kept |
| GameLoop.Game.ProcessEvent | npc_game.py:162-183 | the new state is `OnEvent` of the old one, the invariant is kept, and the entities are the old ones or fresh ones |
| GameLoop.Game.Tick | npc_game.py:158-187 | the new state is `Step` of the old one, `fired` is `StepFires`, and the invariant is kept |
| GameProperties.Run | npc_game.py:158-187 | the unbounded loop cut to a finite run of ticks; specified by `GameProperties.RunPreservesInv`, `ReachableInv` and `DeadStaysDead` |
| GameProperties.OneHit | npc_game.py:169-170 | one successful hit on 100 health leaves exactly 75 and the same state |
| GameProperties.FourHitsThenDead | npc_game.py:166-171 | four hits from 100 leave health 0 with the state untouched; the update that follows makes the NPC Dead |
| GameProperties.StrikeOnDeadIsNoOp | npc_game.py:167 | a SPACE press against a Dead NPC changes nothing |
| GameProperties.KeyUpExactly | npc_game.py:166-174 | releasing SPACE sets the angle to 0 and changes nothing else; other keys, pressed or released, and other events change nothing |
| GameProperties.SwordAngleFlag | npc_game.py:172-174 | the angle changes only to 90 on a press against a living NPC, to 0 on release, or by replay |
| GameProperties.InitialValues | npc_game.py:37-78 | the entities that replay builds: player (100, 300) with sword (0, 0, 30, 60) and angle 0; NPC (600, 300), Patrolling, direction 1, health 100, cooldown 0 |
| GameProperties.ReplayExactly | npc_game.py:176-183 | a mouse press rebuilds both entities iff it is button 1, inside [340, 460) x [20, 60), and the NPC is Dead; otherwise nothing changes |
| GameProperties.StateChangesOnlyByReplay | npc_game.py:162-183 | events change the NPC state only by a replay out of Dead |
| GameProperties.EventsOnlyWound | npc_game.py:162-183 | without a replay click, events only lower health and change nothing else about the NPC |
| GameProperties.SwordFollowsPlayer | npc_game.py:185-186 | after every tick the sword centre is at (x + 50, y + 40) of the player |
| GameProperties.DeadStaysDead | npc_game.py:86-87 | once Dead, the NPC stays exactly as it is over any run without a replay click |
| GameProperties.RunPreservesInv | npc_game.py:158-187 | over any run the invariant holds: cooldown in [0, 60], direction in {-1, 1} |
| GameProperties.ReachableInv | npc_game.py:155-156 | every state reachable from the start keeps the invariant |
| GameProperties.QuietWhileCooling | npc_game.py:107-112 | with c ticks of cooldown left and no replay, none of the next c ticks fires |
| GameProperties.QuietAfterAttack | npc_game.py:107-112 | after a firing tick, none of the next 60 ticks without replay fires |

## Left out

- Window, fonts, clock and image loading (npc_game.py:5-34): this is library set-up. Only the sprite sizes are kept: player and NPC 50 by 100, sword 30 by 60.
- All drawing: `Player.draw`, `NPC.draw`, the instructions, the game-over text, the rendering part of the replay button, and the screen update. These are presentation only. The button's call while handling a click returns the fixed rectangle, kept as `ReplayButton`.
- The close-window event, `pygame.quit` and `sys.exit`: they end the process, so a tick containing them has no successor state.
- The frame-rate cap and the unbounded loop itself: the loop is `Tick`, and `Run` for any finite sequence of ticks.
- The console messages: the attack message is the `fired` result. The health message is not modelled, because the health value itself is part of the state.
- Floating-point rounding of `math.hypot` and of the chase division: the model evaluates both exactly over the reals.
- The rectangle library's internals: half-open overlap, point test and centre arithmetic are assumed as written above. Its zero-size special case for overlap is not modelled, because every rectangle here has a positive size.
- The library's 32-bit coordinate storage: positions are unbounded integers, so no coordinate overflow is modelled.
- NpcController.ChaseDelta: the step is worked out for the NPC's fixed speed of 2. Other speeds are not covered, because the speed never changes.
- Key presses other than SPACE and mouse buttons other than button 1 are accepted as events and change nothing.
