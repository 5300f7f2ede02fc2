/** The records of the game world (src/types.ts), as values.
    Every `number` of the source that can carry a fraction is a `real`;
    timestamps, fire rates and sword durations only ever hold whole
    numbers and are `int`. */
module Types {

  /** A point or a displacement on the map. */
  datatype Vec = Vec(x: real, y: real) {
    function Plus(d: Vec): Vec { Vec(x + d.x, y + d.y) }
    function Scale(k: real): Vec { Vec(x * k, y * k) }
  }

  /** Squared Euclidean distance; the source compares `sqrt` of this
      against a radius, which the model compares squared instead. */
  function Dist2(a: Vec, b: Vec): real
  {
    (a.x - b.x) * (a.x - b.x) + (a.y - b.y) * (a.y - b.y)
  }

  /** An immutable weapon description; `fireRate` is the least number of
      milliseconds between two shots of the slot. */
  datatype Weapon = Weapon(name: string, damage: real, range: real, fireRate: int)

  /** When each weapon slot last fired, in milliseconds. */
  datatype FireTimes = FireTimes(long: int, short: int)

  /** The value of the player record at one instant. */
  datatype PlayerState = PlayerState(
    position: Vec,
    hp: real,
    maxHp: real,
    speed: real,
    direction: real,
    longWeapon: Weapon,
    shortWeapon: Weapon,
    lastFireTime: FireTimes)

  /** `kind` is the source's `type` tag (a reserved word here). */
  datatype Enemy = Enemy(position: Vec, hp: real, maxHp: real, speed: real, kind: string)

  /** A ranged projectile; `range` is the distance it may still travel. */
  datatype Bullet = Bullet(position: Vec, direction: real, speed: real, range: real, damage: real)

  /** A melee swing; `duration` is the number of ticks it still lives and
      `range` its hit radius. */
  datatype Sword = Sword(position: Vec, direction: real, duration: int, damage: real, range: real)

  /** The map record (`map` in the source, a reserved word here). */
  datatype MapSize = MapSize(width: real, height: real)

  /** The whole world, as handed from one tick to the next. */
  datatype GameState = GameState(
    player: PlayerState,
    enemies: seq<Enemy>,
    mapSize: MapSize,
    stage: int,
    remainingEnemies: int,
    bullets: seq<Bullet>,
    swords: seq<Sword>)

  /** The floating-point geometry the tick consults, taken as given:
      `cos`, `sin` and `atan2` are `Math.cos`, `Math.sin` and `Math.atan2`,
      and `unit(dx, dy)` is the normalised vector
      `(dx / sqrt(dx*dx + dy*dy), dy / sqrt(dx*dx + dy*dy))`, which the
      tick only asks for when `(dx, dy)` is not zero. No property proved
      here depends on what these functions return. */
  datatype Trig = Trig(
    cos: real -> real,
    sin: real -> real,
    atan2: (real, real) -> real,
    unit: (real, real) -> Vec)
}
