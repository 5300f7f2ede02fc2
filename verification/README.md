# Top-down shooter tick, modelled in Dafny

This project models the game-world core of a small browser shooter. The
world holds a player, a list of enemies that chase the player, and the
player's two weapon slots: a ranged slot that fires bullets and a melee slot
that makes sword swings. Sixty times a second, `updateGameState` in
`src/components/Game.tsx` advances the world by one tick, in five phases:

1. The player moves by the held direction keys and is clamped to the
   3000 × 3000 map.
2. Each weapon slot fires if its key is held and its cooldown has passed.
3. Each bullet flies, damages and knocks back every enemy within 10 units,
   and is dropped once its range budget is spent.
4. Each sword swing ticks down, and hits every enemy within its radius.
5. Each enemy steps toward the player and, on contact, hurts the player
   and pushes the player back. Dead enemies are then dropped and counted.

The project has four files:

- `types.dfy` (module `Types`): the records of `src/types.ts` as datatypes.
  It also defines `Trig`, which bundles the floating-point functions the
  tick calls (`cos`, `sin`, `atan2`, and the normalised direction vector)
  and is passed in as a parameter.
- `pruning.dfy` (module `Pruning`): `Array.prototype.filter` as `Filter`,
  with its order and membership facts.
- `rules.dfy` (module `Rules`): each phase as a function on `GameState`
  values, composed into `Tick`, with the lemmas about them. These
  functions are the specification.
- `game.dfy` (module `Game`): the imperative form. `Player` and `World`
  are classes whose fields the tick updates in place. Each phase is a
  method proved to leave the world equal to the matching `Rules`
  function, and `World.Step` runs the five phases in the source's order.

The key set, the clock reading `now` and the random enemy positions are
parameters.

Distances: the source compares `Math.sqrt(dx*dx + dy*dy)` against a
radius. The model compares the squared distance against the squared
radius (`Near`), which is exact for reals.

Two details of the code decide what the model says:

- **A bullet hits every enemy in range.** The loop over the enemies does not
  stop at a hit (`src/components/Game.tsx:126-138`). Every enemy within 10
  units of the moved bullet is damaged and knocked back in that tick, and
  the bullet is then dropped. `BulletTickFacts` states this.
- **Contact uses the distance from before the enemy moves.** The distance
  compared with 20 is measured before the enemy steps
  (`src/components/Game.tsx:167-177`). Only the knockback direction uses
  the moved position. `EnemyTickFacts` states this.

## Model

| member | source | states |
|---|---|---|
| Rules.CreateEnemy | src/components/Game.tsx:30-36 | a new enemy stands at the given position, is alive and at full health |
| Rules.Spawn | src/components/Game.tsx:41-47 | one fresh enemy per drawn position, in drawing order |
| Rules.InitialState | src/components/Game.tsx:11-28 | the start-up world: the initial player, no bullets or swings, and one living enemy at each drawn position, counted in `remainingEnemies` |
| Rules.Clamp | src/components/Game.tsx:91-92 | `max(0, min(hi, v))` lies in `[0, hi]` and leaves a value already inside unchanged |
| Rules.ClampToMap | src/components/Game.tsx:183-184 | the clamped point is on the map, and a point already on the map is unchanged |
| Rules.MovePlayer | src/components/Game.tsx:79-94 | with no net direction key the player is unchanged, facing included (facing is sticky); otherwise the player ends on the map and only position and facing change |
| Rules.MovePhase | src/components/Game.tsx:79-94 | only the player changes, and a player on the map stays on it |
| Rules.OppositeKeysCancel | src/components/Game.tsx:81-84 | holding up and down together, with no sideways key, leaves the player exactly as it was |
| Rules.FirePhase | src/components/Game.tsx:96-118 | every bullet and swing already present is kept in place, and at most one of each is added |
| Rules.FireSlots | src/components/Game.tsx:97-118 | each slot fires iff its key is held and `now - last >= fireRate`; a shot appends exactly one projectile and stamps that slot's clock; otherwise the list and clock are unchanged; the two slots decide independently; nothing else changes |
| Rules.FiredShapes | src/components/Game.tsx:99-116 | a bullet copies the player's position and facing, has speed 5, and takes the ranged weapon's range and damage; a sword copies position and facing, lasts 10 ticks, and takes the melee weapon's damage and radius |
| Rules.FireCooldown | src/components/Game.tsx:98-107 | after a shot at `now`, the ranged slot is ready at `later` exactly when its key is held and `later - now >= fireRate`; the melee slot's readiness is unaffected |
| Rules.Advance | src/components/Game.tsx:122-124 | a flying bullet changes only its position and spends exactly its speed from its range |
| Rules.Strike | src/components/Game.tsx:132-136 | a hit enemy loses exactly the damage, is moved, and keeps everything else |
| Rules.StrikeAll | src/components/Game.tsx:126-138 | each enemy within the radius loses the damage and is knocked back; every other enemy is untouched; the list length is kept |
| Rules.HitAnyMeans | src/components/Game.tsx:126-137 | the scan reports a hit iff some enemy is within the radius |
| Rules.BulletTick | src/components/Game.tsx:121-141 | the bullet flies one step and its range is either reduced by its speed or zeroed; nothing else about it changes; the enemy list keeps its length |
| Rules.BulletTickFacts | src/components/Game.tsx:121-141 | a bullet moves one step; its range drops by exactly its speed, or becomes 0 if any enemy is within 10; every enemy within 10 loses the bullet's damage (the scan does not stop at the first hit); all other enemies are unchanged |
| Rules.BulletsPass | src/components/Game.tsx:121-141 | the callbacks over all bullets give one result per bullet and keep the number of enemies |
| Rules.BulletsPassInOrder | src/components/Game.tsx:121-141 | each bullet's result is its own callback run against the enemies as the earlier bullets left them |
| Rules.BulletsPassEach | src/components/Game.tsx:121-142 | each bullet's result is its own callback run against the enemies as the earlier bullets left them; so every bullet flies one step and keeps its reduced range or has it zeroed; with no enemies, each simply flies |
| Rules.BulletsPassHits | src/components/Game.tsx:121-141 | bullet `i` has its range zeroed when an enemy, as the earlier bullets left the enemies, is within 10 of its new position; otherwise its range drops by exactly its speed |
| Rules.BulletPhase | src/components/Game.tsx:120-142 | the bullet phase changes only the bullets and the enemies |
| Rules.BulletPhaseFacts | src/components/Game.tsx:121-142 | after the bullet phase every remaining bullet has range > 0; no bullet is added; no enemy is added or removed; the player and swords are untouched |
| Rules.FlightRange | src/components/Game.tsx:121-124 | after `k` steps a bullet's range is `range - k * speed` |
| Rules.FlightSpeed | src/components/Game.tsx:121-124 | flying never changes a bullet's speed |
| Rules.LoneBulletFlies | src/components/Game.tsx:121-142 | with no enemies, a lone bullet is still present after `k` ticks, flown `k` steps, iff its range is still positive; otherwise it is gone |
| Rules.PistolBulletLasts40Ticks | src/components/Game.tsx:99-105 | a pistol bullet (range 200, speed 5) that meets no enemy is present through ticks 1-39 and gone after tick 40 |
| Rules.SwordTick | src/components/Game.tsx:145-160 | a swing loses time and changes nothing else; the enemy list keeps its length |
| Rules.SwordTickFacts | src/components/Game.tsx:145-160 | every enemy within the swing's radius loses the sword's damage; all others are unchanged |
| Rules.SwordsPass | src/components/Game.tsx:145-161 | the callbacks over all swings give one result per swing and keep the number of enemies |
| Rules.SwordPhase | src/components/Game.tsx:144-163 | the sword phase changes only the swings and the enemies, keeps the number of enemies, and never adds a swing |
| Rules.SwordsPassEach | src/components/Game.tsx:145-163 | each swing loses exactly one tick and nothing else, whatever it hits: swings are never consumed |
| Rules.LoneSwordSwings | src/components/Game.tsx:145-163 | a lone swing is present after `k` ticks, with `duration - k` left, iff that is positive |
| Rules.SwordLasts10Ticks | src/components/Game.tsx:110-116 | a new swing is processed on ticks 1-10 and is gone after the 10th |
| Rules.Seek | src/components/Game.tsx:167-174 | a chasing enemy changes only its position |
| Rules.Bump | src/components/Game.tsx:177-185 | after contact the player is on the map, with hp at least 0 and no higher than before |
| Rules.EnemyTick | src/components/Game.tsx:166-186 | the enemy changes only its position; without contact the player is left as it was |
| Rules.EnemyTickFacts | src/components/Game.tsx:166-187 | contact happens iff the enemy stood within 20 units before it moved; the enemy's own health plays no part in its move or in what it does to the player, so a dead enemy still bites; contact sets the player's hp to `max(0, hp - 10)` and leaves the player on the map |
| Rules.EnemiesPass | src/components/Game.tsx:166-187 | the callbacks over all enemies give one moved enemy per enemy, and count at most one contact per enemy |
| Rules.EnemiesPassFacts | src/components/Game.tsx:166-188 | over the whole pass, enemies change only their position; a player on the map stays on it; a player with hp >= 0 ends with `max(0, hp - 10 * contacts)` |
| Rules.EnemyPhase | src/components/Game.tsx:165-190 | the enemy phase changes only the player, the enemies and their count; only living enemies remain; `remainingEnemies` is their number, never more than before |
| Rules.EnemyPhaseFacts | src/components/Game.tsx:166-190 | afterwards only living enemies remain, as many as were alive before the phase; `remainingEnemies` is their count; bullets and swords are untouched |
| Rules.EnemyPhasePlayer | src/components/Game.tsx:166-188 | in the enemy phase the player stays on the map; hp stays between 0 and its old value; nothing else about the player changes |
| Rules.DeadEnemyStillBites | src/components/Game.tsx:166-188 | an enemy already at hp <= 0 within 20 units still costs the player 10 hp in the tick it is removed |
| Rules.InitialWellFormed | src/components/Game.tsx:11-28 | the start-up world is well formed |
| Rules.Tick | src/components/Game.tsx:73-194 | a tick never changes the stage, the map size, the player's weapons, maximum health or speed |
| Rules.TickFacts | src/components/Game.tsx:73-194 | one tick: a player on the map stays on it; hp never rises and never drops below 0; no enemy is added; with no direction key the facing is kept; at most one bullet and one swing are added; every remaining enemy is alive, every bullet in range and every swing unfinished; `remainingEnemies` counts the enemies |
| Rules.TickPreservesWellFormed | src/components/Game.tsx:73-194 | well-formedness is an invariant of the game loop |
| Pruning.Filter | src/components/Game.tsx:121-187 | the `.filter` calls that drop spent bullets, finished swings and dead enemies: every kept element passes the test, and nothing is added |
| Pruning.FilterMembers | src/components/Game.tsx:121-187 | every element the `.filter` calls keep comes from the input, and every element of the input that passes the test is kept |
| Pruning.FilterConcat | src/components/Game.tsx:166-188 | the enemy filter keeps order: filtering distributes over concatenation |
| Game.Player.constructor | src/components/Game.tsx:12-21 | the new player is `initialGameState.player` |
| Game.World.constructor | src/components/Game.tsx:39-49 | the start-up world: the initial player, one fresh enemy per drawn position (30 in all), no bullets or swings, stage 1 |
| Game.World.Move | src/components/Game.tsx:79-94 | updates the player in place to the result of `MovePhase` |
| Game.World.Fire | src/components/Game.tsx:97-118 | appends the shots and stamps the clocks in place, as `FirePhase` does |
| Game.FlyBullet | src/components/Game.tsx:121-141 | the bullet callback's loop over the enemies computes the bullet and enemies of `BulletTick` |
| Game.SwingSword | src/components/Game.tsx:145-162 | the sword callback's loop over the enemies computes the swing and enemies of `SwordTick` |
| Game.FlyBullets | src/components/Game.tsx:121-142 | the bullet filter's loop keeps exactly the in-range bullets of the pass; the enemies end as the pass leaves them |
| Game.SwingSwords | src/components/Game.tsx:145-163 | the sword filter's loop keeps exactly the unfinished swings of the pass; the enemies end as the pass leaves them |
| Game.ChaseAll | src/components/Game.tsx:166-188 | the enemy filter's loop keeps exactly the living moved enemies; the player's position and hp end as the pass leaves them |
| Game.World.AdvanceBullets | src/components/Game.tsx:121-142 | replaces bullets and enemies in place, giving `BulletPhase` of the old world |
| Game.World.AdvanceSwords | src/components/Game.tsx:145-163 | replaces swings and enemies in place, giving `SwordPhase` of the old world |
| Game.World.AdvanceEnemies | src/components/Game.tsx:166-190 | updates the player's hp and position, the enemies and `remainingEnemies` in place, giving `EnemyPhase` of the old world |
| Game.World.Step | src/components/Game.tsx:73-194 | one tick in place equals `Tick` of the old world, and a well-formed world stays well formed |

## Left out

- React plumbing is not modelled: `useState`, `useEffect`, `useCallback`, and the keydown/keyup listeners that build the pressed-key set (`src/components/Game.tsx:39-71`). The key set is a parameter of `Step`.
- The `setInterval` loop (`src/components/Game.tsx:196-199`) that calls the tick 60 times a second is not modelled. Each call is one `Step`.
- `Date.now()` is the `now` parameter. `Math.random()` enemy placement is the `spawn` parameter of the `World` constructor.
- Floating point is not modelled. Positions, health and damage are unbounded reals, and IEEE rounding is ignored.
- `Math.cos`, `Math.sin`, `Math.atan2` and the normalised direction vector are opaque functions supplied in `Trig`. No property depends on their values.
- Diagonal movement at the same speed as straight movement is not proved. It depends on the real square root, which the opaque unit vector hides.
- The claim that holding a fire key for `t` ms yields `floor(t / fireRate) + 1` shots is not proved. It depends on when the ticks arrive. `FireCooldown` proves the per-tick gate it rests on.
- `src/components/Map.tsx` and `src/components/HUD.tsx` are not part of this model. They only read the world for display.
- `VISION_WIDTH` and `VISION_HEIGHT` (`src/components/Game.tsx:8-9`) are not modelled. They size the on-screen view only and the tick does not read them.
- The `stage` field and the enemy `type` tag (`kind` in the model) are carried but never read. No behaviour depends on them.
- Sharing between the previous and the next world is not modelled. The source's `{ ...prevState }` and `{ ...initialGameState }` are shallow copies, so the source also changes the objects the previous world holds. The start-up code also pushes its enemies into the module-level `initialGameState.enemies` array. The model gives each world its own values, so any effect of running the tick or the initialiser twice on shared objects is not captured.
- Bullets, swings and enemies are values in `seq` fields rather than objects. Each is reachable only through its list, so an in-place field update and a replaced element are the same here.
- `Game.World.AdvanceEnemies` carries the player's position and hp through the enemy pass as a value, and stores them once the pass is over. The source writes them after each enemy, but nothing else reads them during the pass.
- Rules.PistolBulletLasts40Ticks: stated for a world with no enemies, rather than one whose enemies merely never come within 10 units of the bullet. This avoids following enemies that move and are knocked back.
