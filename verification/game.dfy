/** The game component of src/components/Game.tsx: the world it keeps and
    the tick `updateGameState` performs on it, in place. Each phase of the
    tick is a method proved to produce the world the matching function of
    module Rules describes; `Step` runs them in the source's order. The key
    set, the clock reading and the floating-point geometry are parameters. */
module Game {
  import opened Types
  import opened Pruning
  import opened Rules

  /** The player record; the tick changes its position, health, facing and
      fire clocks in place. */
  class Player {
    var position: Vec
    var hp: real
    const maxHp: real
    const speed: real
    var direction: real
    const longWeapon: Weapon
    const shortWeapon: Weapon
    var lastFireTime: FireTimes

    function State(): PlayerState
      reads this
    {
      PlayerState(position, hp, maxHp, speed, direction, longWeapon, shortWeapon, lastFireTime)
    }

    /** The player of `initialGameState`. */
    constructor ()
      ensures State() == INITIAL_PLAYER
    {
      position := Vec(MAP_WIDTH / 2.0, MAP_HEIGHT / 2.0);
      hp := 100.0;
      maxHp := 100.0;
      speed := 2.0;
      direction := 0.0;
      longWeapon := Weapon("Pistol", 20.0, 200.0, 1000);
      shortWeapon := Weapon("Dagger", 0.75, 50.0, 1000);
      lastFireTime := FireTimes(0, 0);
    }
  }

  /** One more enemy of the scan handled: `next` is `after` with the j-th
      enemy replaced by what `StrikeAll` makes of it. */
  lemma StrikeAllExtend(es: seq<Enemy>, after: seq<Enemy>, next: seq<Enemy>, j: nat,
                        center: Vec, radius: real, direction: real, damage: real, trig: Trig)
    requires j < |es| == |after| == |next|
    requires after[..j] == StrikeAll(es[..j], center, radius, direction, damage, trig)
    requires after[j..] == es[j..]
    requires forall k :: 0 <= k < |after| && k != j ==> next[k] == after[k]
    requires next[j] == if Near(center, es[j].position, radius) then Strike(es[j], direction, damage, trig) else es[j]
    ensures next[..j + 1] == StrikeAll(es[..j + 1], center, radius, direction, damage, trig)
    ensures next[j + 1..] == es[j + 1..]
  {
    StrikeAllStep(es, j, center, radius, direction, damage, trig);
    assert next[..j + 1] == after[..j] + [next[j]];
    forall k | j + 1 <= k < |next|
      ensures next[k] == es[k]
    {
      assert after[j..][k - j] == es[j..][k - j];
    }
  }

  /** The body of the bullet filter callback: the bullet flies one step and
      spends `speed` of its range, then every enemy within 10 units of it is
      hit and knocked back, and the bullet's range is zeroed on a hit. The
      scan does not stop at the first hit. */
  method FlyBullet(b: Bullet, es: seq<Enemy>, trig: Trig) returns (nb: Bullet, after: seq<Enemy>)
    ensures (nb, after) == BulletTick(b, es, trig)
  {
    nb := Advance(b, trig);
    ghost var moved := nb;
    after := es;
    var j := 0;
    while j < |after|
      invariant 0 <= j <= |after| == |es|
      invariant after[..j] == StrikeAll(es[..j], moved.position, BULLET_HIT_RADIUS, b.direction, b.damage, trig)
      invariant after[j..] == es[j..]
      invariant nb == if HitAny(es[..j], moved.position, BULLET_HIT_RADIUS) then moved.(range := 0.0) else moved
    {
      HitAnyStep(es, j, moved.position, BULLET_HIT_RADIUS);
      ghost var before := after;
      assert after[j] == es[j];
      // distance < 10
      if Near(nb.position, after[j].position, BULLET_HIT_RADIUS) {
        after := after[j := Strike(after[j], nb.direction, nb.damage, trig)];
        nb := nb.(range := 0.0);
      }
      StrikeAllExtend(es, before, after, j, moved.position, BULLET_HIT_RADIUS, b.direction, b.damage, trig);
      j := j + 1;
    }
    assert es[..|es|] == es && after[..|after|] == after;
  }

  /** The body of the sword filter callback: one tick off the duration, then
      every enemy within the swing's radius is hit and knocked back. */
  method SwingSword(sw: Sword, es: seq<Enemy>, trig: Trig) returns (nsw: Sword, after: seq<Enemy>)
    ensures (nsw, after) == SwordTick(sw, es, trig)
  {
    nsw := sw.(duration := sw.duration - 1);
    after := es;
    var j := 0;
    while j < |after|
      invariant 0 <= j <= |after| == |es|
      invariant after[..j] == StrikeAll(es[..j], sw.position, sw.range, sw.direction, sw.damage, trig)
      invariant after[j..] == es[j..]
      invariant nsw == sw.(duration := sw.duration - 1)
    {
      ghost var before := after;
      assert after[j] == es[j];
      // distance < range
      if Near(nsw.position, after[j].position, nsw.range) {
        after := after[j := Strike(after[j], nsw.direction, nsw.damage, trig)];
      }
      StrikeAllExtend(es, before, after, j, sw.position, sw.range, sw.direction, sw.damage, trig);
      j := j + 1;
    }
    assert es[..|es|] == es && after[..|after|] == after;
  }

  /** The bullet filter: each bullet in order flies against the enemies as
      the bullets before it left them; the bullets still in range are kept. */
  method FlyBullets(bs: seq<Bullet>, es: seq<Enemy>, trig: Trig) returns (kept: seq<Bullet>, after: seq<Enemy>)
    ensures kept == Filter(BulletsPass(bs, es, trig).0, Flying)
    ensures after == BulletsPass(bs, es, trig).1
  {
    ghost var processed := [];
    kept, after := [], es;
    var i := 0;
    while i < |bs|
      invariant 0 <= i <= |bs|
      invariant BulletsPass(bs[..i], es, trig) == (processed, after)
      invariant kept == Filter(processed, Flying)
    {
      var b, hit := FlyBullet(bs[i], after, trig);
      BulletsPassStep(bs, i, es, trig, processed, after, b, hit);
      FilterSnoc(processed, b, Flying);
      // range > 0
      if b.range > 0.0 {
        kept := kept + [b];
      }
      processed := processed + [b];
      after := hit;
      i := i + 1;
    }
    assert bs[..|bs|] == bs;
  }

  /** The sword filter: each swing in order meets the enemies as the swings
      before it left them; the swings with ticks left are kept. */
  method SwingSwords(ss: seq<Sword>, es: seq<Enemy>, trig: Trig) returns (kept: seq<Sword>, after: seq<Enemy>)
    ensures kept == Filter(SwordsPass(ss, es, trig).0, Swinging)
    ensures after == SwordsPass(ss, es, trig).1
  {
    ghost var processed := [];
    kept, after := [], es;
    var i := 0;
    while i < |ss|
      invariant 0 <= i <= |ss|
      invariant SwordsPass(ss[..i], es, trig) == (processed, after)
      invariant kept == Filter(processed, Swinging)
    {
      var sw, hit := SwingSword(ss[i], after, trig);
      SwordsPassStep(ss, i, es, trig, processed, after, sw, hit);
      FilterSnoc(processed, sw, Swinging);
      // duration > 0
      if sw.duration > 0 {
        kept := kept + [sw];
      }
      processed := processed + [sw];
      after := hit;
      i := i + 1;
    }
    assert ss[..|ss|] == ss;
  }

  /** The enemy filter: each enemy in order steps toward the player and, if
      it stood within 20 units before stepping, hurts and pushes the
      player; the living enemies are kept. The source's callback writes the
      player's health and position as it goes; nothing else reads them
      during the pass, so they travel as `body` and are stored by the
      caller once the pass is over. */
  method ChaseAll(es: seq<Enemy>, body0: Body, trig: Trig) returns (alive: seq<Enemy>, body: Body)
    ensures alive == Filter(EnemiesPass(es, body0, trig).enemies, Alive)
    ensures body == EnemiesPass(es, body0, trig).body
  {
    ghost var moved := [];
    alive, body := [], body0;
    var i := 0;
    assert EnemiesPass(es[..0], body0, trig) == Chase([], body0, 0) by {
      assert es[..0] == [];
    }
    while i < |es|
      invariant 0 <= i <= |es|
      invariant EnemiesPass(es[..i], body0, trig).body == body
      invariant EnemiesPass(es[..i], body0, trig).enemies == moved
      invariant alive == Filter(moved, Alive)
    {
      EnemiesPassStep(es, i, body0, trig);
      ghost var tick := EnemyTick(es[i], body, trig);
      // the step toward the player happens only at a positive distance
      var e := Seek(es[i], body.position, trig);
      // distance < 20, compared squared; the distance is the one before the step
      if Near(body.position, es[i].position, CONTACT_RADIUS) {
        body := Bump(body, e.position, trig);
      }
      assert e == tick.0 && body == tick.1;
      FilterSnoc(moved, e, Alive);
      // hp > 0
      if e.hp > 0.0 {
        alive := alive + [e];
      }
      moved := moved + [e];
      i := i + 1;
    }
    assert es[..|es|] == es;
  }

  /** The game state the component keeps between ticks. */
  class World {
    const player: Player
    var enemies: seq<Enemy>
    const mapSize: MapSize
    const stage: int
    var remainingEnemies: int
    var bullets: seq<Bullet>
    var swords: seq<Sword>

    function State(): GameState
      reads this, player
    {
      GameState(player.State(), enemies, mapSize, stage, remainingEnemies, bullets, swords)
    }

    /** The start-up world: one fresh enemy per drawn position, as many as
        the initial enemy counter says. */
    constructor (spawn: seq<Vec>)
      requires |spawn| == INITIAL_ENEMIES
      ensures State() == InitialState(spawn)
      ensures fresh(player)
    {
      player := new Player();
      mapSize := MapSize(MAP_WIDTH, MAP_HEIGHT);
      stage := 1;
      var count := INITIAL_ENEMIES;
      var es: seq<Enemy> := [];
      var i := 0;
      while i < count
        invariant 0 <= i <= count
        invariant es == Spawn(spawn[..i])
      {
        assert spawn[..i + 1][..i] == spawn[..i];
        es := es + [CreateEnemy(spawn[i])];
        i := i + 1;
      }
      assert spawn[..count] == spawn;
      enemies := es;
      remainingEnemies := count;
      bullets := [];
      swords := [];
    }

    /** Phase 1: move the player by the held keys and clamp it to the map. */
    method Move(keys: set<string>, trig: Trig)
      modifies player
      ensures State() == MovePhase(old(State()), keys, trig)
    {
      var dx: real := 0.0;
      var dy: real := 0.0;
      if "arrowup" in keys || "w" in keys { dy := dy - 1.0; }
      if "arrowdown" in keys || "s" in keys { dy := dy + 1.0; }
      if "arrowleft" in keys || "a" in keys { dx := dx - 1.0; }
      if "arrowright" in keys || "d" in keys { dx := dx + 1.0; }
      ghost var p0 := player.State();
      assert Vec(dx, dy) == Heading(keys);
      if dx != 0.0 || dy != 0.0 {
        var u := trig.unit(dx, dy);
        ghost var step := u.Scale(p0.speed);
        dx := u.x * player.speed;
        dy := u.y * player.speed;
        assert dx == step.x && dy == step.y;
        player.position := Vec(Max(0.0, Min(MAP_WIDTH, player.position.x + dx)), player.position.y);
        player.position := player.position.(y := Max(0.0, Min(MAP_HEIGHT, player.position.y + dy)));
        player.direction := trig.atan2(dy, dx);
        assert player.position == Vec(Clamp(p0.position.x + step.x, MAP_WIDTH), Clamp(p0.position.y + step.y, MAP_HEIGHT));
        assert player.State() == MovePlayer(p0, keys, trig);
      }
    }

    /** Phase 2: fire the ranged and the melee slot, each on its own key and
        cooldown, from the player's current position and facing. */
    method Fire(keys: set<string>, now: int)
      modifies this, player
      ensures State() == FirePhase(old(State()), keys, now)
    {
      if "z" in keys && now - player.lastFireTime.long >= player.longWeapon.fireRate {
        bullets := bullets + [Bullet(player.position, player.direction, BULLET_SPEED,
                                     player.longWeapon.range, player.longWeapon.damage)];
        player.lastFireTime := player.lastFireTime.(long := now);
      }
      if "x" in keys && now - player.lastFireTime.short >= player.shortWeapon.fireRate {
        swords := swords + [Sword(player.position, player.direction, SWORD_DURATION,
                                  player.shortWeapon.damage, player.shortWeapon.range)];
        player.lastFireTime := player.lastFireTime.(short := now);
      }
    }

    /** Phase 3: fly every bullet against the enemies, in order, and keep
        the bullets whose range is still positive. */
    method AdvanceBullets(trig: Trig)
      modifies this
      ensures State() == BulletPhase(old(State()), trig)
    {
      bullets, enemies := FlyBullets(bullets, enemies, trig);
    }

    /** Phase 4: swing every sword against the enemies, in order, and keep
        the swords with ticks left. */
    method AdvanceSwords(trig: Trig)
      modifies this
      ensures State() == SwordPhase(old(State()), trig)
    {
      swords, enemies := SwingSwords(swords, enemies, trig);
    }

    /** Phase 5: every enemy steps toward the player and, if it stood within
        20 units before stepping, hurts and pushes the player; then the
        living enemies are kept and counted. */
    method AdvanceEnemies(trig: Trig)
      modifies this, player
      ensures State() == EnemyPhase(old(State()), trig)
    {
      var alive, body := ChaseAll(enemies, Body(player.position, player.hp), trig);
      player.hp := body.hp;
      player.position := body.position;
      enemies := alive;
      remainingEnemies := |alive|;
    }

    /** One tick of `updateGameState`: the five phases in the source's order,
        then the enemy counter. A well-formed world stays well formed. */
    method Step(keys: set<string>, now: int, trig: Trig)
      modifies this, player
      ensures State() == Tick(old(State()), keys, now, trig)
      ensures WellFormed(old(State())) ==> WellFormed(State())
    {
      ghost var s0 := State();
      Move(keys, trig);
      Fire(keys, now);
      AdvanceBullets(trig);
      AdvanceSwords(trig);
      AdvanceEnemies(trig);
      if WellFormed(s0) {
        TickPreservesWellFormed(s0, keys, now, trig);
      }
    }
  }
}
