/** What one tick of `updateGameState` (src/components/Game.tsx) does to
    the world, phase by phase, as functions on values, and what the tick
    guarantees. The methods of module Game perform the same tick in place
    and are proved equal to these functions. */
module Rules {
  import opened Types
  import opened Pruning

  const MAP_WIDTH: real := 3000.0
  const MAP_HEIGHT: real := 3000.0
  const INITIAL_ENEMIES: nat := 30
  const BULLET_SPEED: real := 5.0
  const SWORD_DURATION: int := 10
  const BULLET_HIT_RADIUS: real := 10.0
  /** Knockback distance per point of weapon damage. */
  const KNOCKBACK_PER_DAMAGE: real := 0.5
  const CONTACT_RADIUS: real := 20.0
  const CONTACT_DAMAGE: real := 10.0
  const CONTACT_KNOCKBACK: real := 15.0

  const PISTOL: Weapon := Weapon("Pistol", 20.0, 200.0, 1000)
  const DAGGER: Weapon := Weapon("Dagger", 0.75, 50.0, 1000)

  const INITIAL_PLAYER: PlayerState :=
    PlayerState(Vec(MAP_WIDTH / 2.0, MAP_HEIGHT / 2.0), 100.0, 100.0, 2.0, 0.0,
                PISTOL, DAGGER, FireTimes(0, 0))

  predicate Alive(e: Enemy) { e.hp > 0.0 }
  predicate Flying(b: Bullet) { b.range > 0.0 }
  predicate Swinging(s: Sword) { s.duration > 0 }

  // ---------------------------------------------------------------- setup

  /** A fresh basic enemy at `position`: alive and at full health. */
  function CreateEnemy(position: Vec): (e: Enemy)
    ensures e.position == position && Alive(e) && e.hp == e.maxHp
  {
    Enemy(position, 50.0, 50.0, 0.5, "basic")
  }

  /** One enemy per drawn position, in drawing order. */
  function Spawn(spawn: seq<Vec>): (es: seq<Enemy>)
    ensures |es| == |spawn|
    ensures forall i :: 0 <= i < |spawn| ==> es[i] == CreateEnemy(spawn[i])
    decreases |spawn|
  {
    if spawn == [] then []
    else Spawn(spawn[..|spawn| - 1]) + [CreateEnemy(spawn[|spawn| - 1])]
  }

  /** The world at start-up; `spawn` stands for the random positions drawn
      for the enemies. */
  function InitialState(spawn: seq<Vec>): (r: GameState)
    requires |spawn| == INITIAL_ENEMIES
    ensures r.player == INITIAL_PLAYER && r.bullets == [] && r.swords == []
    ensures |r.enemies| == |spawn| == r.remainingEnemies
    ensures forall i :: 0 <= i < |spawn| ==> r.enemies[i].position == spawn[i] && Alive(r.enemies[i])
  {
    GameState(INITIAL_PLAYER, Spawn(spawn), MapSize(MAP_WIDTH, MAP_HEIGHT), 1,
              INITIAL_ENEMIES, [], [])
  }

  // ------------------------------------------------------------- geometry

  function Max(a: real, b: real): real { if a >= b then a else b }
  function Min(a: real, b: real): real { if a <= b then a else b }

  /** `Math.max(0, Math.min(hi, v))`. */
  function Clamp(v: real, hi: real): (r: real)
    ensures 0.0 <= hi ==> 0.0 <= r <= hi
    ensures 0.0 <= v <= hi ==> r == v
  {
    Max(0.0, Min(hi, v))
  }

  predicate InBounds(p: Vec)
  {
    0.0 <= p.x <= MAP_WIDTH && 0.0 <= p.y <= MAP_HEIGHT
  }

  /** Both axes clamped to the map. */
  function ClampToMap(p: Vec): (r: Vec)
    ensures InBounds(r)
    ensures InBounds(p) ==> r == p
  {
    Vec(Clamp(p.x, MAP_WIDTH), Clamp(p.y, MAP_HEIGHT))
  }

  /** `sqrt(Dist2(a, b)) < radius`, stated without the square root. */
  predicate Near(a: Vec, b: Vec, radius: real)
  {
    0.0 < radius && Dist2(a, b) < radius * radius
  }

  // ------------------------------------------------------ phase 1: moving

  predicate Held(keys: set<string>, arrow: string, letter: string)
  {
    arrow in keys || letter in keys
  }

  /** The raw movement vector, each axis in {-1, 0, 1}. */
  function Heading(keys: set<string>): Vec
  {
    Vec((if Held(keys, "arrowright", "d") then 1.0 else 0.0) - (if Held(keys, "arrowleft", "a") then 1.0 else 0.0),
        (if Held(keys, "arrowdown", "s") then 1.0 else 0.0) - (if Held(keys, "arrowup", "w") then 1.0 else 0.0))
  }

  /** With no net movement key the player is untouched, facing included;
      otherwise the player ends inside the map and only its position and
      facing have changed. */
  function MovePlayer(p: PlayerState, keys: set<string>, trig: Trig): (r: PlayerState)
    ensures Heading(keys) == Vec(0.0, 0.0) ==> r == p
    ensures Heading(keys) != Vec(0.0, 0.0) ==>
      InBounds(r.position) && r == p.(position := r.position, direction := r.direction)
  {
    var h := Heading(keys);
    if h.x != 0.0 || h.y != 0.0 then
      var step := trig.unit(h.x, h.y).Scale(p.speed);
      p.(position := Vec(Clamp(p.position.x + step.x, MAP_WIDTH), Clamp(p.position.y + step.y, MAP_HEIGHT)),
         direction := trig.atan2(step.y, step.x))
    else p
  }

  /** Only the player moves, and a player on the map stays on it. */
  function MovePhase(s: GameState, keys: set<string>, trig: Trig): (r: GameState)
    ensures r == s.(player := r.player)
    ensures InBounds(s.player.position) ==> InBounds(r.player.position)
  {
    s.(player := MovePlayer(s.player, keys, trig))
  }

  /** Holding two opposite keys and nothing else is the same as holding none. */
  lemma OppositeKeysCancel(p: PlayerState, keys: set<string>, trig: Trig)
    requires Held(keys, "arrowup", "w") && Held(keys, "arrowdown", "s")
    requires !Held(keys, "arrowleft", "a") && !Held(keys, "arrowright", "d")
    ensures MovePlayer(p, keys, trig) == p
  {
  }

  // ------------------------------------------------------ phase 2: firing

  predicate LongReady(p: PlayerState, keys: set<string>, now: int)
  {
    "z" in keys && now - p.lastFireTime.long >= p.longWeapon.fireRate
  }

  predicate ShortReady(p: PlayerState, keys: set<string>, now: int)
  {
    "x" in keys && now - p.lastFireTime.short >= p.shortWeapon.fireRate
  }

  function NewBullet(p: PlayerState): Bullet
  {
    Bullet(p.position, p.direction, BULLET_SPEED, p.longWeapon.range, p.longWeapon.damage)
  }

  function NewSword(p: PlayerState): Sword
  {
    Sword(p.position, p.direction, SWORD_DURATION, p.shortWeapon.damage, p.shortWeapon.range)
  }

  /** Firing keeps every projectile already in flight and adds at most one
      per slot. */
  function FirePhase(s: GameState, keys: set<string>, now: int): (r: GameState)
    ensures |s.bullets| <= |r.bullets| <= |s.bullets| + 1 && r.bullets[..|s.bullets|] == s.bullets
    ensures |s.swords| <= |r.swords| <= |s.swords| + 1 && r.swords[..|s.swords|] == s.swords
  {
    var p := s.player;
    var long := LongReady(p, keys, now);
    var p1 := if long then p.(lastFireTime := p.lastFireTime.(long := now)) else p;
    var short := ShortReady(p1, keys, now);
    var p2 := if short then p1.(lastFireTime := p1.lastFireTime.(short := now)) else p1;
    s.(player := p2,
       bullets := if long then s.bullets + [NewBullet(p)] else s.bullets,
       swords := if short then s.swords + [NewSword(p1)] else s.swords)
  }

  /** Each slot fires on its own key and its own cooldown: a shot appends
      exactly one projectile made from the player and stamps that slot's
      clock; otherwise the slot's list and clock are as they were. Nothing
      else about the world changes. */
  lemma FireSlots(s: GameState, keys: set<string>, now: int)
    ensures var r := FirePhase(s, keys, now);
      && (LongReady(s.player, keys, now) ==>
            r.bullets == s.bullets + [NewBullet(s.player)] && r.player.lastFireTime.long == now)
      && (!LongReady(s.player, keys, now) ==>
            r.bullets == s.bullets && r.player.lastFireTime.long == s.player.lastFireTime.long)
      && (ShortReady(s.player, keys, now) ==>
            r.swords == s.swords + [NewSword(s.player)] && r.player.lastFireTime.short == now)
      && (!ShortReady(s.player, keys, now) ==>
            r.swords == s.swords && r.player.lastFireTime.short == s.player.lastFireTime.short)
      && r.player == s.player.(lastFireTime := r.player.lastFireTime)
      && r.enemies == s.enemies && r.remainingEnemies == s.remainingEnemies
  {
  }

  /** A fired bullet starts where the player stands, facing the player's
      way, at speed 5 with the ranged weapon's range and damage; a fired
      sword lives 10 ticks with the melee weapon's damage and radius. */
  lemma FiredShapes(p: PlayerState)
    ensures NewBullet(p).position == p.position && NewBullet(p).direction == p.direction
    ensures NewBullet(p).speed == 5.0 && NewBullet(p).range == p.longWeapon.range
    ensures NewBullet(p).damage == p.longWeapon.damage
    ensures NewSword(p).position == p.position && NewSword(p).direction == p.direction
    ensures NewSword(p).duration == 10 && NewSword(p).damage == p.shortWeapon.damage
    ensures NewSword(p).range == p.shortWeapon.range
  {
  }

  /** After a slot fires at `now`, it is ready again at `later` exactly when
      its key is held and a full `fireRate` has passed since `now`; the other
      slot's readiness is not affected by the shot. */
  lemma FireCooldown(s: GameState, keys: set<string>, now: int, keys': set<string>, later: int)
    requires LongReady(s.player, keys, now)
    ensures var p := FirePhase(s, keys, now).player;
      && (LongReady(p, keys', later) <==> "z" in keys' && later - now >= s.player.longWeapon.fireRate)
      && (!ShortReady(s.player, keys, now) ==> (ShortReady(p, keys', later) <==> ShortReady(s.player, keys', later)))
  {
  }

  // ----------------------------------------------------- phase 3: bullets

  /** The bullet after one step of flight: moved by `speed` along its
      direction, with `speed` taken off its range. */
  function Advance(b: Bullet, trig: Trig): (r: Bullet)
    ensures r == b.(position := r.position, range := b.range - b.speed)
  {
    b.(position := b.position.Plus(Vec(trig.cos(b.direction), trig.sin(b.direction)).Scale(b.speed)),
       range := b.range - b.speed)
  }

  /** `e` hit for `damage`, knocked back by half the damage along `direction`. */
  function Strike(e: Enemy, direction: real, damage: real, trig: Trig): (r: Enemy)
    ensures r == e.(position := r.position, hp := e.hp - damage)
  {
    var push := damage * KNOCKBACK_PER_DAMAGE;
    e.(hp := e.hp - damage,
       position := e.position.Plus(Vec(trig.cos(direction), trig.sin(direction)).Scale(push)))
  }

  /** One pass over the enemies with a hit zone: every enemy within `radius`
      of `center` is struck once, every other enemy is left as it was. */
  function StrikeAll(es: seq<Enemy>, center: Vec, radius: real, direction: real, damage: real, trig: Trig): (r: seq<Enemy>)
    ensures |r| == |es|
    ensures forall i :: 0 <= i < |es| ==>
      r[i] == if Near(center, es[i].position, radius) then Strike(es[i], direction, damage, trig) else es[i]
    decreases |es|
  {
    if es == [] then []
    else
      var e := es[|es| - 1];
      StrikeAll(es[..|es| - 1], center, radius, direction, damage, trig)
        + [if Near(center, e.position, radius) then Strike(e, direction, damage, trig) else e]
  }

  lemma StrikeAllStep(es: seq<Enemy>, j: nat, center: Vec, radius: real, direction: real, damage: real, trig: Trig)
    requires j < |es|
    ensures StrikeAll(es[..j + 1], center, radius, direction, damage, trig)
      == StrikeAll(es[..j], center, radius, direction, damage, trig)
         + [if Near(center, es[j].position, radius) then Strike(es[j], direction, damage, trig) else es[j]]
  {
    assert es[..j + 1][..j] == es[..j];
  }

  /** Whether any enemy is within `radius` of `center`, scanning in order. */
  predicate HitAny(es: seq<Enemy>, center: Vec, radius: real)
    decreases |es|
  {
    es != [] && (HitAny(es[..|es| - 1], center, radius) || Near(center, es[|es| - 1].position, radius))
  }

  lemma HitAnyStep(es: seq<Enemy>, j: nat, center: Vec, radius: real)
    requires j < |es|
    ensures HitAny(es[..j + 1], center, radius) == (HitAny(es[..j], center, radius) || Near(center, es[j].position, radius))
  {
    assert es[..j + 1][..j] == es[..j];
  }

  lemma {:induction false} HitAnyMeans(es: seq<Enemy>, center: Vec, radius: real)
    ensures HitAny(es, center, radius) <==> exists i :: 0 <= i < |es| && Near(center, es[i].position, radius)
    decreases |es|
  {
    if es != [] {
      var init := es[..|es| - 1];
      HitAnyMeans(init, center, radius);
      if HitAny(init, center, radius) {
        var i :| 0 <= i < |init| && Near(center, init[i].position, radius);
        assert es[i] == init[i];
      }
      if exists i :: 0 <= i < |es| && Near(center, es[i].position, radius) {
        var i :| 0 <= i < |es| && Near(center, es[i].position, radius);
        if i < |init| {
          assert init[i] == es[i];
        }
      }
    }
  }

  /** The body of the bullet filter callback: the bullet flies, then every
      enemy within 10 units of it is hit, and the bullet is spent if any was. */
  function BulletTick(b: Bullet, es: seq<Enemy>, trig: Trig): (r: (Bullet, seq<Enemy>))
    ensures r.0 == Advance(b, trig).(range := r.0.range)
    ensures r.0.range == b.range - b.speed || r.0.range == 0.0
    ensures |r.1| == |es|
  {
    var moved := Advance(b, trig);
    (if HitAny(es, moved.position, BULLET_HIT_RADIUS) then moved.(range := 0.0) else moved,
     StrikeAll(es, moved.position, BULLET_HIT_RADIUS, b.direction, b.damage, trig))
  }

  /** A bullet's range drops by exactly its speed, or to 0 when it hits;
      the loop over the enemies does not stop at the first hit, so every
      enemy within 10 units of the moved bullet loses the bullet's damage,
      and a bullet that hit anything is gone from the filter's output. */
  lemma BulletTickFacts(b: Bullet, es: seq<Enemy>, trig: Trig)
    ensures var (nb, after) := BulletTick(b, es, trig);
      && nb.position == Advance(b, trig).position
      && nb.direction == b.direction && nb.speed == b.speed && nb.damage == b.damage
      && ((exists i :: 0 <= i < |es| && Near(nb.position, es[i].position, BULLET_HIT_RADIUS)) ==>
            nb.range == 0.0 && !Flying(nb))
      && (!(exists i :: 0 <= i < |es| && Near(nb.position, es[i].position, BULLET_HIT_RADIUS)) ==>
            nb.range == b.range - b.speed)
      && |after| == |es|
      && (forall i :: 0 <= i < |es| && Near(nb.position, es[i].position, BULLET_HIT_RADIUS) ==>
            after[i].hp == es[i].hp - b.damage)
      && (forall i :: 0 <= i < |es| && !Near(nb.position, es[i].position, BULLET_HIT_RADIUS) ==>
            after[i] == es[i])
  {
    HitAnyMeans(es, Advance(b, trig).position, BULLET_HIT_RADIUS);
  }

  /** The bullets after the filter callback (before pruning), and the
      enemies after all those callbacks, each bullet seeing the enemies
      as the bullets before it left them. */
  function BulletsPass(bs: seq<Bullet>, es: seq<Enemy>, trig: Trig): (r: (seq<Bullet>, seq<Enemy>))
    ensures |r.0| == |bs| && |r.1| == |es|
    decreases |bs|
  {
    if bs == [] then ([], es)
    else
      var (done, mid) := BulletsPass(bs[..|bs| - 1], es, trig);
      var (b, after) := BulletTick(bs[|bs| - 1], mid, trig);
      (done + [b], after)
  }

  /** The pass over one more bullet. */
  lemma BulletsPassStep(bs: seq<Bullet>, i: nat, es: seq<Enemy>, trig: Trig,
                        done: seq<Bullet>, mid: seq<Enemy>, b: Bullet, after: seq<Enemy>)
    requires i < |bs|
    requires BulletsPass(bs[..i], es, trig) == (done, mid)
    requires BulletTick(bs[i], mid, trig) == (b, after)
    ensures BulletsPass(bs[..i + 1], es, trig) == (done + [b], after)
  {
    assert bs[..i + 1][..i] == bs[..i];
  }

  /** A prefix of a prefix is a prefix. */
  lemma PrefixOfPrefix<T>(s: seq<T>, n: nat, i: nat)
    requires i <= n <= |s|
    ensures s[..n][..i] == s[..i]
  {
  }

  /** Each bullet's outcome is its own callback run against the enemies as
      the bullets before it left them. */
  lemma {:induction false} BulletsPassInOrder(bs: seq<Bullet>, es: seq<Enemy>, trig: Trig)
    ensures forall i :: 0 <= i < |bs| ==>
      BulletsPass(bs, es, trig).0[i] == BulletTick(bs[i], BulletsPass(bs[..i], es, trig).1, trig).0
    decreases |bs|
  {
    if bs != [] {
      var init := bs[..|bs| - 1];
      BulletsPassInOrder(init, es, trig);
      var r := BulletsPass(bs, es, trig);
      var (done, mid) := BulletsPass(init, es, trig);
      assert r.0 == done + [BulletTick(bs[|bs| - 1], mid, trig).0];
      forall i | 0 <= i < |bs|
        ensures r.0[i] == BulletTick(bs[i], BulletsPass(bs[..i], es, trig).1, trig).0
      {
        if i < |init| {
          PrefixOfPrefix(bs, |bs| - 1, i);
          assert done[i] == BulletTick(init[i], BulletsPass(init[..i], es, trig).1, trig).0;
          assert r.0[i] == done[i] && bs[i] == init[i];
        } else {
          assert bs[..i] == init;
        }
      }
    }
  }

  /** Each bullet's outcome is its own callback run against the enemies as
      the bullets before it left them; so every bullet flies one step, and
      the only other outcome is being spent by a hit. With no enemies at
      all, every bullet simply flies. */
  lemma BulletsPassEach(bs: seq<Bullet>, es: seq<Enemy>, trig: Trig)
    ensures forall i :: 0 <= i < |bs| ==>
      BulletsPass(bs, es, trig).0[i] == BulletTick(bs[i], BulletsPass(bs[..i], es, trig).1, trig).0
    ensures forall i :: 0 <= i < |bs| ==>
      BulletsPass(bs, es, trig).0[i] in {Advance(bs[i], trig), Advance(bs[i], trig).(range := 0.0)}
    ensures es == [] ==> (BulletsPass(bs, es, trig).1 == [] &&
      forall i :: 0 <= i < |bs| ==> BulletsPass(bs, es, trig).0[i] == Advance(bs[i], trig))
  {
    BulletsPassInOrder(bs, es, trig);
    forall i | 0 <= i < |bs|
      ensures BulletsPass(bs, es, trig).0[i] in {Advance(bs[i], trig), Advance(bs[i], trig).(range := 0.0)}
      ensures es == [] ==> BulletsPass(bs, es, trig).0[i] == Advance(bs[i], trig)
    {
      var seen := BulletsPass(bs[..i], es, trig).1;
      BulletVerdict(bs[i], seen, BulletsPass(bs, es, trig).0[i], trig);
    }
  }

  /** Bullet `i` of the pass is spent exactly when some enemy, as the bullets
      before it left the enemies, stands within 10 units of its new
      position; otherwise its range drops by exactly its speed. */
  lemma BulletsPassHits(bs: seq<Bullet>, es: seq<Enemy>, trig: Trig, i: nat)
    requires i < |bs|
    ensures var seen := BulletsPass(bs[..i], es, trig).1;
      var nb := BulletsPass(bs, es, trig).0[i];
      && nb.position == Advance(bs[i], trig).position
      && ((exists j :: 0 <= j < |seen| && Near(nb.position, seen[j].position, BULLET_HIT_RADIUS)) ==>
            nb.range == 0.0)
      && (!(exists j :: 0 <= j < |seen| && Near(nb.position, seen[j].position, BULLET_HIT_RADIUS)) ==>
            nb.range == bs[i].range - bs[i].speed)
  {
    BulletsPassAt(bs, es, trig, i);
    BulletVerdict(bs[i], BulletsPass(bs[..i], es, trig).1, BulletsPass(bs, es, trig).0[i], trig);
  }

  /** `BulletsPassInOrder` at one index. */
  lemma BulletsPassAt(bs: seq<Bullet>, es: seq<Enemy>, trig: Trig, i: nat)
    requires i < |bs|
    ensures BulletsPass(bs, es, trig).0[i] == BulletTick(bs[i], BulletsPass(bs[..i], es, trig).1, trig).0
  {
    BulletsPassInOrder(bs, es, trig);
  }

  /** The verdict of one callback on the bullet it returns. */
  lemma BulletVerdict(b: Bullet, seen: seq<Enemy>, nb: Bullet, trig: Trig)
    requires nb == BulletTick(b, seen, trig).0
    ensures nb.position == Advance(b, trig).position
    ensures (exists j :: 0 <= j < |seen| && Near(nb.position, seen[j].position, BULLET_HIT_RADIUS)) ==>
      nb.range == 0.0
    ensures !(exists j :: 0 <= j < |seen| && Near(nb.position, seen[j].position, BULLET_HIT_RADIUS)) ==>
      nb.range == b.range - b.speed
  {
    BulletTickFacts(b, seen, trig);
  }

  /** The bullet phase touches only the bullets and the enemies. */
  function BulletPhase(s: GameState, trig: Trig): (r: GameState)
    ensures r == s.(bullets := r.bullets, enemies := r.enemies)
  {
    var (processed, es) := BulletsPass(s.bullets, s.enemies, trig);
    s.(bullets := Filter(processed, Flying), enemies := es)
  }

  /** The bullet phase leaves only flying bullets, never more than it was
      given, and does not add or remove enemies. */
  lemma BulletPhaseFacts(s: GameState, trig: Trig)
    ensures var r := BulletPhase(s, trig);
      && (forall i :: 0 <= i < |r.bullets| ==> Flying(r.bullets[i]))
      && |r.bullets| <= |s.bullets|
      && |r.enemies| == |s.enemies|
      && r.player == s.player && r.swords == s.swords
  {
  }

  /** A bullet flown `k` steps without hitting anything. */
  function Flight(b: Bullet, k: nat, trig: Trig): Bullet
  {
    if k == 0 then b else Advance(Flight(b, k - 1, trig), trig)
  }

  /** Flying never changes a bullet's speed ... */
  lemma {:induction false} FlightSpeed(b: Bullet, k: nat, trig: Trig)
    ensures Flight(b, k, trig).speed == b.speed
  {
    if k > 0 {
      FlightSpeed(b, k - 1, trig);
    }
  }

  /** ... so each step spends exactly that speed from the range. */
  lemma {:induction false} FlightRange(b: Bullet, k: nat, trig: Trig)
    ensures Flight(b, k, trig).range == b.range - (k as real) * b.speed
  {
    if k > 0 {
      FlightRange(b, k - 1, trig);
      FlightSpeed(b, k - 1, trig);
    }
  }

  /** The bullet phase run `k` times. */
  function BulletPhases(s: GameState, k: nat, trig: Trig): GameState
  {
    if k == 0 then s else BulletPhase(BulletPhases(s, k - 1, trig), trig)
  }

  /** A lone bullet in a world without enemies is processed while its range
      budget lasts: after `k` ticks it is still there, flown `k` steps, iff
      its range is still positive, and gone otherwise. */
  lemma {:induction false} LoneBulletFlies(s: GameState, k: nat, trig: Trig)
    requires s.enemies == [] && |s.bullets| == 1 && s.bullets[0].speed > 0.0 && Flying(s.bullets[0])
    ensures var b := s.bullets[0];
      && BulletPhases(s, k, trig).enemies == []
      && BulletPhases(s, k, trig).bullets ==
           if Flying(Flight(b, k, trig)) then [Flight(b, k, trig)] else []
  {
    var b := s.bullets[0];
    if k > 0 {
      LoneBulletFlies(s, k - 1, trig);
      FlightSpeed(b, k - 1, trig);
      LoneBulletStep(BulletPhases(s, k - 1, trig), Flight(b, k - 1, trig), trig);
    } else {
      assert s.bullets == [b];
    }
  }

  /** One tick of a lone bullet that has already left its range behind
      stays gone, and one that has not flies one more step. */
  lemma LoneBulletStep(prev: GameState, last: Bullet, trig: Trig)
    requires prev.enemies == [] && last.speed > 0.0
    requires prev.bullets == if Flying(last) then [last] else []
    ensures BulletPhase(prev, trig).enemies == []
    ensures BulletPhase(prev, trig).bullets ==
      if Flying(Advance(last, trig)) then [Advance(last, trig)] else []
  {
    BulletStepAlone(prev, trig);
  }

  /** One bullet phase in a world without enemies, on at most one bullet. */
  lemma BulletStepAlone(s: GameState, trig: Trig)
    requires s.enemies == [] && |s.bullets| <= 1
    ensures BulletPhase(s, trig).enemies == []
    ensures BulletPhase(s, trig).bullets ==
      if s.bullets == [] then []
      else if Flying(Advance(s.bullets[0], trig)) then [Advance(s.bullets[0], trig)] else []
  {
    BulletsPassEach(s.bullets, s.enemies, trig);
    if s.bullets != [] {
      FilterSingle(Advance(s.bullets[0], trig), Flying);
      assert BulletsPass(s.bullets, s.enemies, trig).0 == [Advance(s.bullets[0], trig)];
    }
  }

  /** A pistol bullet that never comes near an enemy is processed on 40
      ticks, counting the tick it is fired on, and is gone after the 40th. */
  lemma PistolBulletLasts40Ticks(s: GameState, p: PlayerState, trig: Trig)
    requires p.longWeapon == PISTOL
    requires s.enemies == [] && s.bullets == [NewBullet(p)]
    ensures forall k: nat :: 1 <= k < 40 ==> |BulletPhases(s, k, trig).bullets| == 1
    ensures BulletPhases(s, 40, trig).bullets == []
  {
    forall k: nat | 1 <= k < 40
      ensures |BulletPhases(s, k, trig).bullets| == 1
    {
      LoneBulletFlies(s, k, trig);
      FlightRange(NewBullet(p), k, trig);
    }
    LoneBulletFlies(s, 40, trig);
    FlightRange(NewBullet(p), 40, trig);
  }

  // ------------------------------------------------------ phase 4: swords

  /** The body of the sword filter callback: one tick off the swing's
      duration, then every enemy within its radius is hit. */
  function SwordTick(sw: Sword, es: seq<Enemy>, trig: Trig): (r: (Sword, seq<Enemy>))
    ensures r.0 == sw.(duration := r.0.duration) && r.0.duration < sw.duration
    ensures |r.1| == |es|
  {
    (sw.(duration := sw.duration - 1),
     StrikeAll(es, sw.position, sw.range, sw.direction, sw.damage, trig))
  }

  /** Every enemy within the swing's radius loses its damage, each tick the
      swing is processed; the others are untouched. */
  lemma SwordTickFacts(sw: Sword, es: seq<Enemy>, trig: Trig)
    ensures var (_, after) := SwordTick(sw, es, trig);
      && |after| == |es|
      && (forall i :: 0 <= i < |es| && Near(sw.position, es[i].position, sw.range) ==>
            after[i].hp == es[i].hp - sw.damage)
      && (forall i :: 0 <= i < |es| && !Near(sw.position, es[i].position, sw.range) ==>
            after[i] == es[i])
  {
  }

  function SwordsPass(ss: seq<Sword>, es: seq<Enemy>, trig: Trig): (r: (seq<Sword>, seq<Enemy>))
    ensures |r.0| == |ss| && |r.1| == |es|
    decreases |ss|
  {
    if ss == [] then ([], es)
    else
      var (done, mid) := SwordsPass(ss[..|ss| - 1], es, trig);
      var (sw, after) := SwordTick(ss[|ss| - 1], mid, trig);
      (done + [sw], after)
  }

  /** The pass over one more swing. */
  lemma SwordsPassStep(ss: seq<Sword>, i: nat, es: seq<Enemy>, trig: Trig,
                       done: seq<Sword>, mid: seq<Enemy>, sw: Sword, after: seq<Enemy>)
    requires i < |ss|
    requires SwordsPass(ss[..i], es, trig) == (done, mid)
    requires SwordTick(ss[i], mid, trig) == (sw, after)
    ensures SwordsPass(ss[..i + 1], es, trig) == (done + [sw], after)
  {
    assert ss[..i + 1][..i] == ss[..i];
  }

  /** A swing is never consumed by what it hits: whatever the enemies, each
      sword comes out of the pass with one tick less and nothing else changed. */
  lemma {:induction false} SwordsPassEach(ss: seq<Sword>, es: seq<Enemy>, trig: Trig)
    ensures forall i :: 0 <= i < |ss| ==>
      SwordsPass(ss, es, trig).0[i] == ss[i].(duration := ss[i].duration - 1)
    decreases |ss|
  {
    if ss != [] {
      var init := ss[..|ss| - 1];
      SwordsPassEach(init, es, trig);
      var r := SwordsPass(ss, es, trig);
      var (done, mid) := SwordsPass(init, es, trig);
      assert r.0 == done + [SwordTick(ss[|ss| - 1], mid, trig).0];
      forall i | 0 <= i < |ss|
        ensures r.0[i] == ss[i].(duration := ss[i].duration - 1)
      {
        if i < |init| {
          assert r.0[i] == done[i] && ss[i] == init[i];
        }
      }
    }
  }

  /** The sword phase touches only the swords and the enemies, keeps the
      number of enemies and never adds a swing (that only unfinished swings
      remain is part of `TickFacts`). */
  function SwordPhase(s: GameState, trig: Trig): (r: GameState)
    ensures r.player == s.player && r.bullets == s.bullets && r.remainingEnemies == s.remainingEnemies
    ensures r.mapSize == s.mapSize && r.stage == s.stage
    ensures |r.enemies| == |s.enemies| && |r.swords| <= |s.swords|
  {
    var pass := SwordsPass(s.swords, s.enemies, trig);
    s.(swords := Filter(pass.0, Swinging), enemies := pass.1)
  }

  /** The sword phase run `k` times. */
  function SwordPhases(s: GameState, k: nat, trig: Trig): GameState
  {
    if k == 0 then s else SwordPhase(SwordPhases(s, k - 1, trig), trig)
  }

  /** The swords list holding `sw` alone with `left` ticks to go, or
      nothing once no time is left. */
  function LoneSwing(sw: Sword, left: int): seq<Sword>
  {
    if left > 0 then [sw.(duration := left)] else []
  }

  /** A lone swing lasts while its duration does, whatever it hits: after
      `k` ticks it is there with `duration - k` left iff that is positive. */
  lemma {:induction false} LoneSwordSwings(s: GameState, sw: Sword, k: nat, trig: Trig)
    requires s.swords == [sw] && Swinging(sw)
    ensures SwordPhases(s, k, trig).swords == LoneSwing(sw, sw.duration - k)
    decreases k
  {
    if k == 0 {
      assert sw.(duration := sw.duration) == sw;
    } else {
      LoneSwordSwings(s, sw, k - 1, trig);
      var prev := SwordPhases(s, k - 1, trig);
      LoneSwordStep(prev, sw, sw.duration - (k - 1), trig);
      assert SwordPhases(s, k, trig) == SwordPhase(prev, trig);
    }
  }

  /** One more tick of a lone swing with `left` ticks to go. */
  lemma LoneSwordStep(t: GameState, sw: Sword, left: int, trig: Trig)
    requires t.swords == LoneSwing(sw, left)
    ensures SwordPhase(t, trig).swords == LoneSwing(sw, left - 1)
  {
    SwordStepAlone(t, trig);
  }

  lemma SwordStepAlone(s: GameState, trig: Trig)
    requires |s.swords| <= 1
    ensures SwordPhase(s, trig).swords ==
      if s.swords == [] then []
      else
        var worn := s.swords[0].(duration := s.swords[0].duration - 1);
        if Swinging(worn) then [worn] else []
  {
    SwordsPassEach(s.swords, s.enemies, trig);
    if s.swords != [] {
      var worn := s.swords[0].(duration := s.swords[0].duration - 1);
      FilterSingle(worn, Swinging);
      assert SwordsPass(s.swords, s.enemies, trig).0 == [worn];
    }
  }

  /** A new swing is processed on exactly 10 ticks, counting the tick it is
      made on, and is gone after the 10th. */
  lemma SwordLasts10Ticks(s: GameState, p: PlayerState, trig: Trig)
    requires s.swords == [NewSword(p)]
    ensures forall k: nat :: 1 <= k < 10 ==> |SwordPhases(s, k, trig).swords| == 1
    ensures SwordPhases(s, 10, trig).swords == []
  {
    forall k: nat | 1 <= k < 10
      ensures |SwordPhases(s, k, trig).swords| == 1
    {
      LoneSwordSwings(s, NewSword(p), k, trig);
    }
    LoneSwordSwings(s, NewSword(p), 10, trig);
  }

  // ----------------------------------------------------- phase 5: enemies

  /** The part of the player the enemy pass changes. */
  datatype Body = Body(position: Vec, hp: real)

  /** The enemies after the filter callback (before pruning), the player
      after them, and how many of them touched the player. */
  datatype Chase = Chase(enemies: seq<Enemy>, body: Body, contacts: nat)

  /** `e` takes one step of `speed` toward `target`, unless it stands on it. */
  function Seek(e: Enemy, target: Vec, trig: Trig): (r: Enemy)
    ensures r == e.(position := r.position)
  {
    if Dist2(target, e.position) > 0.0 then
      e.(position := e.position.Plus(trig.unit(target.x - e.position.x, target.y - e.position.y).Scale(e.speed)))
    else e
  }

  /** Contact: 10 damage floored at 0, a 15-unit knockback away from `from`,
      then the position clamped to the map. */
  function Bump(body: Body, from: Vec, trig: Trig): (r: Body)
    ensures InBounds(r.position)
    ensures 0.0 <= r.hp && (0.0 <= body.hp ==> r.hp <= body.hp)
  {
    var heading := trig.atan2(body.position.y - from.y, body.position.x - from.x);
    Body(ClampToMap(body.position.Plus(Vec(trig.cos(heading), trig.sin(heading)).Scale(CONTACT_KNOCKBACK))),
         Max(0.0, body.hp - CONTACT_DAMAGE))
  }

  /** The body of the enemy filter callback. The contact test uses the
      distance measured before the enemy stepped; the knockback direction
      uses the enemy's new position. */
  function EnemyTick(e: Enemy, body: Body, trig: Trig): (r: (Enemy, Body, bool))
    ensures r.0 == e.(position := r.0.position)
    ensures !r.2 ==> r.1 == body
  {
    var contact := Near(body.position, e.position, CONTACT_RADIUS);
    var moved := Seek(e, body.position, trig);
    (moved, if contact then Bump(body, moved.position, trig) else body, contact)
  }

  /** An enemy touches the player iff it stood within 20 units of the player
      before it moved. Its own health plays no part: an enemy at any `hp`,
      dead or alive, moves the same way and does the same to the player. A
      touch floors the player's health at `max(0, hp - 10)` and leaves the
      player inside the map. */
  lemma EnemyTickFacts(e: Enemy, body: Body, trig: Trig, hp: real)
    ensures var (moved, nb, contact) := EnemyTick(e, body, trig);
      && (contact <==> Dist2(body.position, e.position) < CONTACT_RADIUS * CONTACT_RADIUS)
      && EnemyTick(e.(hp := hp), body, trig) == (moved.(hp := hp), nb, contact)
      && (contact ==> nb.hp == Max(0.0, body.hp - CONTACT_DAMAGE) && InBounds(nb.position))
  {
  }

  function EnemiesPass(es: seq<Enemy>, body: Body, trig: Trig): (r: Chase)
    ensures |r.enemies| == |es| && r.contacts <= |es|
    decreases |es|
  {
    if es == [] then Chase([], body, 0)
    else
      var c := EnemiesPass(es[..|es| - 1], body, trig);
      var (e, b, contact) := EnemyTick(es[|es| - 1], c.body, trig);
      Chase(c.enemies + [e], b, c.contacts + if contact then 1 else 0)
  }

  lemma EnemiesPassStep(es: seq<Enemy>, i: nat, body: Body, trig: Trig)
    requires i < |es|
    ensures EnemiesPass(es[..i + 1], body, trig) ==
      var c := EnemiesPass(es[..i], body, trig);
      var (e, b, contact) := EnemyTick(es[i], c.body, trig);
      Chase(c.enemies + [e], b, c.contacts + if contact then 1 else 0)
  {
    assert es[..i + 1][..i] == es[..i];
  }

  /** Over the whole pass: enemies keep everything but their position, the
      player stays inside the map, and a player with health `hp >= 0` ends
      with `max(0, hp - 10 * contacts)`. */
  lemma {:induction false} EnemiesPassFacts(es: seq<Enemy>, body: Body, trig: Trig)
    ensures var r := EnemiesPass(es, body, trig);
      && (forall i :: 0 <= i < |es| ==> r.enemies[i] == es[i].(position := r.enemies[i].position))
      && (InBounds(body.position) ==> InBounds(r.body.position))
      && (0.0 <= body.hp ==> r.body.hp == Max(0.0, body.hp - CONTACT_DAMAGE * (r.contacts as real)))
    decreases |es|
  {
    if es != [] {
      var init := es[..|es| - 1];
      EnemiesPassFacts(init, body, trig);
      var c := EnemiesPass(init, body, trig);
      var r := EnemiesPass(es, body, trig);
      var (e, b, contact) := EnemyTick(es[|es| - 1], c.body, trig);
      assert r.enemies == c.enemies + [e];
      forall i | 0 <= i < |es|
        ensures r.enemies[i] == es[i].(position := r.enemies[i].position)
      {
        if i < |init| {
          assert r.enemies[i] == c.enemies[i] && es[i] == init[i];
        }
      }
    }
  }

  /** The enemy phase touches only the player, the enemies and their count,
      and leaves only living enemies, counted. */
  function EnemyPhase(s: GameState, trig: Trig): (r: GameState)
    ensures r == s.(player := r.player, enemies := r.enemies, remainingEnemies := r.remainingEnemies)
    ensures forall i :: 0 <= i < |r.enemies| ==> Alive(r.enemies[i])
    ensures r.remainingEnemies == |r.enemies| <= |s.enemies|
  {
    var c := EnemiesPass(s.enemies, Body(s.player.position, s.player.hp), trig);
    var alive := Filter(c.enemies, Alive);
    s.(player := s.player.(position := c.body.position, hp := c.body.hp),
       enemies := alive,
       remainingEnemies := |alive|)
  }

  /** After the enemy phase only living enemies remain, as many as were
      alive when the phase began, and `remainingEnemies` is their count;
      bullets and swords are not touched. */
  lemma EnemyPhaseFacts(s: GameState, trig: Trig)
    ensures var r := EnemyPhase(s, trig);
      && (forall i :: 0 <= i < |r.enemies| ==> Alive(r.enemies[i]))
      && |r.enemies| == |Filter(s.enemies, Alive)|
      && r.remainingEnemies == |r.enemies|
      && r.bullets == s.bullets && r.swords == s.swords
  {
    var body := Body(s.player.position, s.player.hp);
    var c := EnemiesPass(s.enemies, body, trig);
    EnemiesPassFacts(s.enemies, body, trig);
    FilterSameVerdicts(c.enemies, Alive, s.enemies, Alive);
  }

  /** In the enemy phase the player stays inside the map, its health stays
      between 0 and what it was, and nothing else about it changes. */
  lemma EnemyPhasePlayer(s: GameState, trig: Trig)
    ensures var r := EnemyPhase(s, trig);
      && (InBounds(s.player.position) ==> InBounds(r.player.position))
      && (0.0 <= s.player.hp ==> 0.0 <= r.player.hp <= s.player.hp)
      && r.player == s.player.(position := r.player.position, hp := r.player.hp)
  {
    var body := Body(s.player.position, s.player.hp);
    var c := EnemiesPass(s.enemies, body, trig);
    EnemiesPassFacts(s.enemies, body, trig);
    if 0.0 <= body.hp {
      assert c.body.hp == Max(0.0, body.hp - CONTACT_DAMAGE * (c.contacts as real));
      assert 0.0 <= CONTACT_DAMAGE * (c.contacts as real);
    }
  }

  /** An enemy already at `hp <= 0` still moves and still hurts the player
      on the tick it is removed. */
  lemma DeadEnemyStillBites(s: GameState, trig: Trig)
    requires |s.enemies| == 1 && !Alive(s.enemies[0])
    requires Near(s.player.position, s.enemies[0].position, CONTACT_RADIUS)
    requires s.player.hp >= CONTACT_DAMAGE
    ensures EnemyPhase(s, trig).enemies == [] && EnemyPhase(s, trig).remainingEnemies == 0
    ensures EnemyPhase(s, trig).player.hp == s.player.hp - CONTACT_DAMAGE
  {
    var body := Body(s.player.position, s.player.hp);
    assert s.enemies[..0] == [];
    assert EnemiesPass(s.enemies[..0], body, trig) == Chase([], body, 0);
    var c := EnemiesPass(s.enemies, body, trig);
    var moved := Seek(s.enemies[0], body.position, trig);
    assert c.enemies == [moved];
    assert c.body.hp == s.player.hp - CONTACT_DAMAGE;
    FilterSingle(moved, Alive);
  }

  // ------------------------------------------------------------ the tick

  /** One tick of `updateGameState`, phases in the source's order. */
  function Tick(s: GameState, keys: set<string>, now: int, trig: Trig): (r: GameState)
    ensures r.stage == s.stage && r.mapSize == s.mapSize
    ensures r.player.longWeapon == s.player.longWeapon && r.player.shortWeapon == s.player.shortWeapon
    ensures r.player.maxHp == s.player.maxHp && r.player.speed == s.player.speed
  {
    EnemyPhase(SwordPhase(BulletPhase(FirePhase(MovePhase(s, keys, trig), keys, now), trig), trig), trig)
  }

  /** What holds of the world between ticks. */
  predicate WellFormed(s: GameState)
  {
    && InBounds(s.player.position)
    && 0.0 <= s.player.hp <= s.player.maxHp
    && (forall i :: 0 <= i < |s.enemies| ==> Alive(s.enemies[i]))
    && s.remainingEnemies == |s.enemies|
    && (forall i :: 0 <= i < |s.bullets| ==> Flying(s.bullets[i]))
    && (forall i :: 0 <= i < |s.swords| ==> Swinging(s.swords[i]))
  }

  /** The start-up world is well formed. */
  lemma InitialWellFormed(spawn: seq<Vec>)
    requires |spawn| == INITIAL_ENEMIES
    ensures WellFormed(InitialState(spawn))
  {
  }

  /** What one tick guarantees whatever the keys, the clock and the geometry:
      a player inside the map stays inside it; health never rises and never
      goes below 0; no enemy is added; no movement key leaves the facing as
      it was; at most one bullet and one sword are added; and everything
      left over is alive, flying or swinging, with `remainingEnemies`
      counting the enemies. */
  lemma TickFacts(s: GameState, keys: set<string>, now: int, trig: Trig)
    ensures var r := Tick(s, keys, now, trig);
      && (InBounds(s.player.position) ==> InBounds(r.player.position))
      && (0.0 <= s.player.hp ==> 0.0 <= r.player.hp <= s.player.hp)
      && |r.enemies| <= |s.enemies|
      && (Heading(keys) == Vec(0.0, 0.0) ==> r.player.direction == s.player.direction)
      && |r.bullets| <= |s.bullets| + 1 && |r.swords| <= |s.swords| + 1
      && (forall i :: 0 <= i < |r.enemies| ==> Alive(r.enemies[i]))
      && r.remainingEnemies == |r.enemies|
      && (forall i :: 0 <= i < |r.bullets| ==> Flying(r.bullets[i]))
      && (forall i :: 0 <= i < |r.swords| ==> Swinging(r.swords[i]))
      && r.player.maxHp == s.player.maxHp
  {
    var s1 := MovePhase(s, keys, trig);
    var s2 := FirePhase(s1, keys, now);
    var s3 := BulletPhase(s2, trig);
    var s4 := SwordPhase(s3, trig);
    FireSlots(s1, keys, now);
    BulletPhaseFacts(s2, trig);
    var (worn, es4) := SwordsPass(s3.swords, s3.enemies, trig);
    EnemyPhaseFacts(s4, trig);
    EnemyPhasePlayer(s4, trig);
  }

  /** Well-formedness is an invariant of the game loop. */
  lemma TickPreservesWellFormed(s: GameState, keys: set<string>, now: int, trig: Trig)
    requires WellFormed(s)
    ensures WellFormed(Tick(s, keys, now, trig))
  {
    TickFacts(s, keys, now, trig);
  }
}
