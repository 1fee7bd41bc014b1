// The physics step of the salmon game: integration with the player's wall
// clamp, the all-ordered-pairs broad phase that appends collision events,
// the fish's reflection at the top and bottom walls, and the recomputation of
// the player's wall-contact flags from its world-space mesh vertices.

module PhysicsSystem {
  import opened Components
  import opened Ecs

  // ---------------------------------------------------------------------------
  // Geometry

  /** `get_bounding_box`: the scale with the facing sign stripped. */
  function BoundingBox(m: Motion): (bb: Vec2)
    ensures bb.x >= 0.0 && (bb.x == m.scale.x || bb.x == -m.scale.x)
    ensures bb.y >= 0.0 && (bb.y == m.scale.y || bb.y == -m.scale.y)
  {
    Vec2(AbsR(m.scale.x), AbsR(m.scale.y))
  }

  /** Flipping the facing sign of either scale component leaves the box alone. */
  lemma BoundingBoxIgnoresFacing(m: Motion, flipX: bool, flipY: bool)
    ensures BoundingBox(m.(scale := Vec2(if flipX then -m.scale.x else m.scale.x,
                                         if flipY then -m.scale.y else m.scale.y)))
         == BoundingBox(m)
  {
  }

  /** `dot(bb / 2, bb / 2)`: the squared radius of the circle around the box. */
  function RadiusSquared(m: Motion): (r2: real)
    ensures r2 >= 0.0
    ensures r2 == (m.scale.x * m.scale.x + m.scale.y * m.scale.y) / 4.0
  {
    var bb := BoundingBox(m);
    var half := Vec2(bb.x / 2.0, bb.y / 2.0);
    Dot(half, half)
  }

  /** `r` is `sqrt(dot(bb / 2, bb / 2))`, the circle radius the source takes a root for. */
  predicate IsRadius(r: real, m: Motion) {
    r >= 0.0 && r * r == RadiusSquared(m)
  }

  function DistanceSquared(a: Motion, b: Motion): real {
    var dp := Sub(a.position, b.position);
    Dot(dp, dp)
  }

  function Max(a: real, b: real): real { if a >= b then a else b }

  /**
   * `collides`: the squared centre distance is strictly below the larger of
   * the two squared radii, i.e. one centre lies strictly inside the other's circle.
   */
  function Collides(m1: Motion, m2: Motion): (c: bool)
    ensures c <==> DistanceSquared(m1, m2) < RadiusSquared(m1) || DistanceSquared(m1, m2) < RadiusSquared(m2)
  {
    var rSquared := Max(RadiusSquared(m1), RadiusSquared(m2));
    DistanceSquared(m1, m2) < rSquared
  }

  lemma CollidesSymmetric(m1: Motion, m2: Motion)
    ensures Collides(m1, m2) == Collides(m2, m1)
  {
    assert DistanceSquared(m1, m2) == DistanceSquared(m2, m1);
  }

  /** Exactly touching (squared distance equal to the larger squared radius) is no collision. */
  lemma TouchingIsNoCollision(m1: Motion, m2: Motion)
    requires DistanceSquared(m1, m2) == Max(RadiusSquared(m1), RadiusSquared(m2))
    ensures !Collides(m1, m2)
  {
  }

  /** Only positions and scales take part in the test. */
  lemma CollidesByShape(a: Motion, a': Motion, b: Motion, b': Motion)
    requires a.position == a'.position && a.scale == a'.scale
    requires b.position == b'.position && b.scale == b'.scale
    ensures Collides(a, b) == Collides(a', b')
  {
  }

  lemma MulPositive(x: real, y: real)
    requires x > 0.0 && y > 0.0
    ensures x * y > 0.0
  {
  }

  /** On non-negative reals, squaring keeps strict order both ways. */
  lemma SquareLess(a: real, b: real)
    requires a >= 0.0 && b >= 0.0
    ensures a < b <==> a * a < b * b
  {
    if a < b {
      MulPositive(b - a, b + a);
      assert b * b - a * a == (b - a) * (b + a);
    } else if a > b {
      MulPositive(a - b, b + a);
      assert a * a - b * b == (a - b) * (a + b);
    }
  }

  /**
   * With the square roots taken, `collides` holds exactly when the centre
   * distance is below one of the two circle radii.
   */
  lemma CollidesIffCentreInsideCircle(m1: Motion, m2: Motion, d: real, r1: real, r2: real)
    requires d >= 0.0 && d * d == DistanceSquared(m1, m2)
    requires IsRadius(r1, m1) && IsRadius(r2, m2)
    ensures Collides(m1, m2) <==> d < r1 || d < r2
  {
    SquareLess(d, r1);
    SquareLess(d, r2);
  }

  // ---------------------------------------------------------------------------
  // Integration

  /** A radius for every moving entity, standing for the source's `sqrt`. */
  predicate RadiiFor(c: Container<Motion>, radii: map<Entity, real>) {
    forall e :: e in c.components ==> e in radii && IsRadius(radii[e], c.components[e])
  }

  /** The wall flags an entity is integrated with: a non-player has none. */
  function FlagsOf(players: Container<Player>, e: Entity): Player {
    if e in players.components then players.components[e] else Player(false, false)
  }

  /**
   * One entity's integration: a player touching the top wall is pinned at
   * `y = r`, else one touching the bottom wall at `y = H - r`; everything else
   * moves by `elapsedMs / 1000` times its velocity.
   */
  function Integrate(m: Motion, flags: Player, elapsedMs: real, windowHeight: real, r: real): (n: Motion)
    ensures n.velocity == m.velocity && n.angle == m.angle && n.scale == m.scale
    ensures flags.collidesWithTopWall ==> n.position == Vec2(m.position.x, r)
    ensures !flags.collidesWithTopWall && flags.collidesWithBottomWall ==>
              n.position == Vec2(m.position.x, windowHeight - r)
    ensures !flags.collidesWithTopWall && !flags.collidesWithBottomWall ==>
              n.position == Add(m.position, Scale(elapsedMs / 1000.0, m.velocity))
  {
    if flags.collidesWithTopWall then m.(position := Vec2(m.position.x, r))
    else if flags.collidesWithBottomWall then m.(position := Vec2(m.position.x, windowHeight - r))
    else
      var stepSeconds := 1.0 * (elapsedMs / 1000.0);
      m.(position := Vec2(m.position.x + stepSeconds * m.velocity.x,
                          m.position.y + stepSeconds * m.velocity.y))
  }

  /** Free motion over two steps is free motion over their sum. */
  lemma IntegrateAdditive(m: Motion, t1: real, t2: real, h: real, r: real)
    ensures Integrate(Integrate(m, Player(false, false), t1, h, r), Player(false, false), t2, h, r)
         == Integrate(m, Player(false, false), t1 + t2, h, r)
  {
    var v := m.velocity;
    assert (t1 + t2) / 1000.0 * v.x == t1 / 1000.0 * v.x + t2 / 1000.0 * v.x;
    assert (t1 + t2) / 1000.0 * v.y == t1 / 1000.0 * v.y + t2 / 1000.0 * v.y;
  }

  /** A pinned player's circle just touches its wall, and pinning again changes nothing. */
  lemma ClampTouchesWall(m: Motion, flags: Player, t: real, h: real, r: real)
    requires flags.collidesWithTopWall || flags.collidesWithBottomWall
    ensures var n := Integrate(m, flags, t, h, r);
      && (flags.collidesWithTopWall ==> n.position.y - r == 0.0)
      && (!flags.collidesWithTopWall ==> n.position.y + r == h)
      && Integrate(n, flags, t, h, r) == n
  {
  }

  /** The integration pass over every moving entity. */
  function IntegrateAll(c: Container<Motion>, players: Container<Player>, radii: map<Entity, real>,
                        elapsedMs: real, windowHeight: real): (r: Container<Motion>)
    requires RadiiFor(c, radii)
    ensures r.entities == c.entities && r.components.Keys == c.components.Keys
    ensures RadiiFor(r, radii)
  {
    Container(c.entities, map e | e in c.components ::
      Integrate(c.components[e], FlagsOf(players, e), elapsedMs, windowHeight, radii[e]))
  }

  // ---------------------------------------------------------------------------
  // Fish at the walls

  /** The fish comes within 0.2 of the top wall with half its radius. */
  function HitsUpperWall(m: Motion, r: real): (b: bool)
    ensures b <==> m.position.y < 0.2 + r / 2.0
    ensures r >= 0.0 && m.position.y < 0.2 ==> b
  {
    m.position.y - r / 2.0 < 0.2
  }

  /** The fish comes within 0.2 of the bottom wall with half its radius. */
  function HitsLowerWall(m: Motion, r: real, windowHeight: real): (b: bool)
    ensures b <==> m.position.y >= windowHeight - 0.2 - r / 2.0
    ensures r >= 0.0 && m.position.y >= windowHeight - 0.2 ==> b
  {
    m.position.y + r / 2.0 >= windowHeight - 0.2
  }

  /**
   * A fish's vertical velocity is negated at each wall it reaches with half
   * its radius; reaching both leaves it as it was.
   */
  function Reflect(m: Motion, r: real, windowHeight: real): (n: Motion)
    ensures n.position == m.position && n.scale == m.scale && n.angle == m.angle
    ensures n.velocity.x == m.velocity.x
    ensures HitsUpperWall(m, r) != HitsLowerWall(m, r, windowHeight) ==> n.velocity.y == -m.velocity.y
    ensures HitsUpperWall(m, r) == HitsLowerWall(m, r, windowHeight) ==> n == m
  {
    var vy := if HitsUpperWall(m, r) then -m.velocity.y else m.velocity.y;
    var vy' := if HitsLowerWall(m, r, windowHeight) then -vy else vy;
    m.(velocity := Vec2(m.velocity.x, vy'))
  }

  /** Reflection does not move the fish, so applying it twice undoes it. */
  lemma ReflectInvolution(m: Motion, r: real, h: real)
    ensures Reflect(Reflect(m, r, h), r, h) == m
  {
  }

  /** The reflection pass: soft shells are reflected, every other motion is kept. */
  function ReflectAll(c: Container<Motion>, softShells: map<Entity, SoftShell>, radii: map<Entity, real>,
                      windowHeight: real): (r: Container<Motion>)
    requires RadiiFor(c, radii)
    ensures r.entities == c.entities && r.components.Keys == c.components.Keys
    ensures RadiiFor(r, radii)
  {
    Container(c.entities, map e | e in c.components ::
      if e in softShells then Reflect(c.components[e], radii[e], windowHeight) else c.components[e])
  }

  // ---------------------------------------------------------------------------
  // Broad phase

  /** Every listed entity has a motion. */
  predicate Listed(c: Container<Motion>) {
    forall k :: 0 <= k < |c.entities| ==> c.entities[k] in c.components
  }

  /** The events of the inner loop's step for the entities `x` and `y`. */
  function PairEvent(c: Container<Motion>, x: Entity, y: Entity): (e: seq<Collision>)
    requires x in c.components && y in c.components
    ensures |e| == 0 || |e| == 2
    ensures e != [] <==> x != y && Collides(c.components[y], c.components[x])
  {
    if x != y && Collides(c.components[x], c.components[y]) then [Collision(x, y), Collision(y, x)]
    else []
  }

  /** The events of the inner loop for entity `x` against each entity of `q` in turn. */
  function RowEvents(c: Container<Motion>, x: Entity, q: seq<Entity>): (e: seq<Collision>)
    requires x in c.components && forall y :: y in q ==> y in c.components
    ensures |e| <= 2 * |q|
  {
    if q == [] then [] else RowEvents(c, x, q[..|q| - 1]) + PairEvent(c, x, q[|q| - 1])
  }

  /** The events of the outer loop over the entities of `p`, each against all of `q`. */
  function PairEvents(c: Container<Motion>, p: seq<Entity>, q: seq<Entity>): (e: seq<Collision>)
    requires forall y :: y in p ==> y in c.components
    requires forall y :: y in q ==> y in c.components
    ensures q == [] ==> e == []
  {
    if p == [] then [] else PairEvents(c, p[..|p| - 1], q) + RowEvents(c, p[|p| - 1], q)
  }

  /** Each event of the inner loop joins the outer entity with a visited one, never with itself. */
  lemma {:induction false} RowEventsEnds(c: Container<Motion>, x: Entity, q: seq<Entity>)
    requires x in c.components && forall y :: y in q ==> y in c.components
    ensures forall ev :: ev in RowEvents(c, x, q) ==>
      ev.entity != ev.other && ((ev.entity == x && ev.other in q) || (ev.other == x && ev.entity in q))
  {
    if q != [] {
      var pre, y := q[..|q| - 1], q[|q| - 1];
      RowEventsEnds(c, x, pre);
      assert RowEvents(c, x, q) == RowEvents(c, x, pre) + PairEvent(c, x, y);
      forall ev | ev in RowEvents(c, x, q)
        ensures ev.entity != ev.other && ((ev.entity == x && ev.other in q) || (ev.other == x && ev.entity in q))
      {
        if ev in RowEvents(c, x, pre) {
          assert ev.entity in pre ==> ev.entity in q;
          assert ev.other in pre ==> ev.other in q;
        } else {
          assert ev in PairEvent(c, x, y);
        }
      }
    }
  }

  /** Each event of the outer loop joins an outer entity with an inner one, never an entity with itself. */
  lemma {:induction false} PairEventsEnds(c: Container<Motion>, p: seq<Entity>, q: seq<Entity>)
    requires forall y :: y in p ==> y in c.components
    requires forall y :: y in q ==> y in c.components
    ensures forall ev :: ev in PairEvents(c, p, q) ==>
      ev.entity != ev.other && ((ev.entity in p && ev.other in q) || (ev.other in p && ev.entity in q))
  {
    if p != [] {
      var pre, x := p[..|p| - 1], p[|p| - 1];
      assert forall y :: y in pre ==> y in p;
      PairEventsEnds(c, pre, q);
      RowEventsEnds(c, x, q);
      assert PairEvents(c, p, q) == PairEvents(c, pre, q) + RowEvents(c, x, q);
      forall ev | ev in PairEvents(c, p, q)
        ensures ev.entity != ev.other && ((ev.entity in p && ev.other in q) || (ev.other in p && ev.entity in q))
      {
        if ev !in PairEvents(c, pre, q) {
          assert ev in RowEvents(c, x, q);
        }
      }
    }
  }

  /** 1 for a pair of distinct entities with colliding motions, 0 otherwise. */
  function Hit(c: Container<Motion>, a: Entity, b: Entity): nat
    requires a in c.components && b in c.components
  {
    if a != b && Collides(c.components[a], c.components[b]) then 1 else 0
  }

  /** The count of `(a, b)` among the two events of one inner step. */
  lemma PairEventCount(c: Container<Motion>, x: Entity, y: Entity, a: Entity, b: Entity)
    requires x in c.components && y in c.components
    ensures multiset(PairEvent(c, x, y))[Collision(a, b)]
         == if x == a && y == b then Hit(c, a, b) else if x == b && y == a then Hit(c, b, a) else 0
  {
    CollidesSymmetric(c.components[x], c.components[y]);
  }

  lemma {:induction false} RowEventsCount(c: Container<Motion>, x: Entity, q: seq<Entity>, a: Entity, b: Entity)
    requires x in c.components && forall y :: y in q ==> y in c.components
    requires Distinct(q)
    ensures multiset(RowEvents(c, x, q))[Collision(a, b)]
         == (if x == a && b in q then Hit(c, a, b) else if x == b && a in q then Hit(c, b, a) else 0)
  {
    if q != [] {
      var pre, y := q[..|q| - 1], q[|q| - 1];
      assert q == pre + [y];
      assert Distinct(pre);
      RowEventsCount(c, x, pre, a, b);
      PairEventCount(c, x, y, a, b);
    }
  }

  lemma {:induction false} PairEventsCount(c: Container<Motion>, p: seq<Entity>, q: seq<Entity>, a: Entity, b: Entity)
    requires forall y :: y in p ==> y in c.components
    requires forall y :: y in q ==> y in c.components
    requires Distinct(p) && Distinct(q)
    ensures multiset(PairEvents(c, p, q))[Collision(a, b)]
         == (if a in p && b in q then Hit(c, a, b) else 0)
          + (if b in p && a in q && a != b then Hit(c, b, a) else 0)
  {
    if p != [] {
      var pre, x := p[..|p| - 1], p[|p| - 1];
      assert p == pre + [x];
      assert Distinct(pre);
      PairEventsCount(c, pre, q, a, b);
      RowEventsCount(c, x, q, a, b);
    }
  }

  /** All events of one pass of the pair loop. */
  function AllPairEvents(c: Container<Motion>): (e: seq<Collision>)
    requires Listed(c)
    ensures forall ev :: ev in e ==> ev.entity != ev.other && ev.entity in c.entities && ev.other in c.entities
  {
    PairEventsEnds(c, c.entities, c.entities);
    PairEvents(c, c.entities, c.entities)
  }

  /**
   * Each ordered pair of distinct colliding entities is emitted exactly twice
   * per pass, and nothing else is emitted: no self-pairs, no entity without a
   * motion, no non-colliding pair. Every colliding unordered pair therefore
   * contributes four events.
   */
  lemma EventCount(c: Container<Motion>, a: Entity, b: Entity)
    requires Listed(c) && Distinct(c.entities)
    ensures multiset(AllPairEvents(c))[Collision(a, b)]
         == if a != b && a in c.entities && b in c.entities
               && Collides(c.components[a], c.components[b]) then 2 else 0
  {
    PairEventsCount(c, c.entities, c.entities, a, b);
    if a in c.entities && b in c.entities {
      CollidesSymmetric(c.components[a], c.components[b]);
    }
  }

  // ---------------------------------------------------------------------------
  // Player at the walls

  /** A world-space vertex height that touches neither wall. */
  predicate Clear(y: real, windowHeight: real) {
    y > 0.2 && y < windowHeight - 0.2
  }

  /**
   * The vertex scan: the first vertex that touches a wall decides, the top
   * wall being checked first for each vertex.
   */
  function ScanVertices(ys: seq<real>, windowHeight: real): (p: Player)
    ensures !(p.collidesWithTopWall && p.collidesWithBottomWall)
  {
    if ys == [] then Player(false, false)
    else if ys[0] <= 0.2 then Player(true, false)
    else if ys[0] >= windowHeight - 0.2 then Player(false, true)
    else ScanVertices(ys[1..], windowHeight)
  }

  /** The first vertex that is not clear of the walls decides the flags. */
  lemma {:induction false} ScanFindsFirstHit(ys: seq<real>, h: real, k: nat)
    requires k < |ys| && !Clear(ys[k], h)
    requires forall l :: 0 <= l < k ==> Clear(ys[l], h)
    ensures ScanVertices(ys, h) == if ys[k] <= 0.2 then Player(true, false) else Player(false, true)
  {
    if k > 0 {
      assert Clear(ys[0], h);
      assert forall l :: 0 <= l < k - 1 ==> ys[1..][l] == ys[l + 1];
      ScanFindsFirstHit(ys[1..], h, k - 1);
    }
  }

  /** With every vertex clear of the walls, no flag is set. */
  lemma {:induction false} ScanAllClear(ys: seq<real>, h: real)
    requires forall l :: 0 <= l < |ys| ==> Clear(ys[l], h)
    ensures ScanVertices(ys, h) == Player(false, false)
  {
    if ys != [] {
      assert forall l :: 0 <= l < |ys| - 1 ==> ys[1..][l] == ys[l + 1];
      ScanAllClear(ys[1..], h);
    }
  }

  /** The corner pre-check: the circle around the player comes within 0.5 of a wall. */
  function NearWall(m: Motion, r: real, windowHeight: real): (b: bool)
    ensures r >= 0.0 && (m.position.y < 0.5 || m.position.y >= windowHeight - 0.5) ==> b
    ensures !b ==> 0.5 + r <= m.position.y < windowHeight - 0.5 - r
  {
    m.position.y - r < 0.5 || m.position.y + r >= windowHeight - 0.5
  }

  /** The player's new flags: none unless the pre-check passes, then the vertex scan's. */
  function WallContact(m: Motion, r: real, windowHeight: real, ys: seq<real>): (p: Player)
    ensures !(p.collidesWithTopWall && p.collidesWithBottomWall)
    ensures !NearWall(m, r, windowHeight) ==> p == Player(false, false)
  {
    if NearWall(m, r, windowHeight) then ScanVertices(ys, windowHeight) else Player(false, false)
  }

  /** The world-space heights of the mesh vertices, given the transform of a motion. */
  function WorldYs(m: Motion, mesh: seq<Vec2>, worldY: (Motion, Vec2) -> real): (ys: seq<real>)
    ensures |ys| == |mesh|
  {
    seq(|mesh|, k requires 0 <= k < |mesh| => worldY(m, mesh[k]))
  }

  /** The flag recomputation: only the first player's flags are reset and recomputed. */
  function UpdateWallFlags(s: Store, radii: map<Entity, real>, windowHeight: real,
                           mesh: seq<Vec2>, worldY: (Motion, Vec2) -> real): (r: Store)
    requires WellFormed(s) && RadiiFor(s.motions, radii)
    ensures WellFormed(r)
    ensures r == s.(players := r.players)
    ensures r.players.entities == s.players.entities
    ensures forall e :: e in s.players.components && (s.players.entities == [] || e != s.players.entities[0])
              ==> e in r.players.components && r.players.components[e] == s.players.components[e]
    ensures |s.players.entities| > 0 ==>
      var p := s.players.entities[0];
      r.players.components[p]
        == WallContact(s.motions.components[p], radii[p], windowHeight, WorldYs(s.motions.components[p], mesh, worldY))
  {
    if |s.players.entities| == 0 then s
    else
      var p := s.players.entities[0];
      var m := s.motions.components[p];
      var flags := WallContact(m, radii[p], windowHeight, WorldYs(m, mesh, worldY));
      s.(players := s.players.(components := s.players.components[p := flags]))
  }

  // ---------------------------------------------------------------------------
  // The whole step

  /** `PhysicsSystem::step` on a snapshot of the registry. */
  function PhysicsStep(s: Store, elapsedMs: real, windowHeight: real, radii: map<Entity, real>,
                       mesh: seq<Vec2>, worldY: (Motion, Vec2) -> real): (r: Store)
    requires WellFormed(s) && RadiiFor(s.motions, radii)
    ensures WellFormed(r)
  {
    var integrated := IntegrateAll(s.motions, s.players, radii, elapsedMs, windowHeight);
    var moved := s.(motions := ReflectAll(integrated, s.softShells, radii, windowHeight),
                    collisions := s.collisions + AllPairEvents(integrated));
    UpdateWallFlags(moved, radii, windowHeight, mesh, worldY)
  }

  /**
   * Over one step the collision list only grows, and it grows by exactly two
   * copies of `(a, b)` for each distinct pair whose integrated motions collide.
   */
  lemma PhysicsStepEvents(s: Store, elapsedMs: real, h: real, radii: map<Entity, real>,
                          mesh: seq<Vec2>, worldY: (Motion, Vec2) -> real, a: Entity, b: Entity)
    requires WellFormed(s) && RadiiFor(s.motions, radii)
    ensures var r := PhysicsStep(s, elapsedMs, h, radii, mesh, worldY);
      var moved := IntegrateAll(s.motions, s.players, radii, elapsedMs, h);
      && r.collisions[..|s.collisions|] == s.collisions
      && multiset(r.collisions)[Collision(a, b)]
         == multiset(s.collisions)[Collision(a, b)]
          + if a != b && a in s.motions.components && b in s.motions.components
               && Collides(moved.components[a], moved.components[b]) then 2 else 0
  {
    var moved := IntegrateAll(s.motions, s.players, radii, elapsedMs, h);
    EventCount(moved, a, b);
  }

  // ---------------------------------------------------------------------------
  // The step on the registry

  /** The motions after integrating exactly the entities of `done`. */
  ghost function PartlyIntegrated(c: Container<Motion>, done: set<Entity>, players: Container<Player>,
                                  radii: map<Entity, real>, elapsedMs: real, windowHeight: real): Container<Motion>
    requires RadiiFor(c, radii)
  {
    Container(c.entities, map e | e in c.components ::
      if e in done then Integrate(c.components[e], FlagsOf(players, e), elapsedMs, windowHeight, radii[e])
      else c.components[e])
  }

  lemma PartlyIntegratedStep(c: Container<Motion>, done: set<Entity>, e: Entity, players: Container<Player>,
                             radii: map<Entity, real>, elapsedMs: real, windowHeight: real)
    requires RadiiFor(c, radii) && e in c.components && e !in done
    ensures PartlyIntegrated(c, done + {e}, players, radii, elapsedMs, windowHeight)
         == var p := PartlyIntegrated(c, done, players, radii, elapsedMs, windowHeight);
            p.(components := p.components[e :=
              Integrate(c.components[e], FlagsOf(players, e), elapsedMs, windowHeight, radii[e])])
  {
  }

  lemma PartlyIntegratedAll(c: Container<Motion>, done: set<Entity>, players: Container<Player>,
                            radii: map<Entity, real>, elapsedMs: real, windowHeight: real)
    requires RadiiFor(c, radii) && c.components.Keys <= done
    ensures PartlyIntegrated(c, done, players, radii, elapsedMs, windowHeight)
         == IntegrateAll(c, players, radii, elapsedMs, windowHeight)
  {
  }

  /** The body of the integration loop for one motion. */
  method IntegrateOne(m: Motion, flags: Player, elapsedMs: real, windowHeight: real, r: real)
    returns (n: Motion)
    ensures n == Integrate(m, flags, elapsedMs, windowHeight, r)
  {
    n := m;
    if flags.collidesWithTopWall {
      n := n.(position := Vec2(n.position.x, r));
    } else if flags.collidesWithBottomWall {
      n := n.(position := Vec2(n.position.x, windowHeight - r));
    } else {
      var stepSeconds := 1.0 * (elapsedMs / 1000.0);
      n := n.(position := Vec2(n.position.x + stepSeconds * n.velocity.x,
                               n.position.y + stepSeconds * n.velocity.y));
    }
  }

  /**
   * The integration loop: each motion, in container order, is integrated in
   * place; the result is exactly `IntegrateAll`.
   */
  method IntegrateMotions(c: Container<Motion>, players: Container<Player>, radii: map<Entity, real>,
                          elapsedMs: real, windowHeight: real) returns (r: Container<Motion>)
    requires Indexed(c) && RadiiFor(c, radii)
    ensures r == IntegrateAll(c, players, radii, elapsedMs, windowHeight)
  {
    r := c;
    var i := 0;
    while i < |c.entities|
      invariant 0 <= i <= |c.entities|
      invariant r == PartlyIntegrated(c, Elems(c.entities[..i]), players, radii, elapsedMs, windowHeight)
    {
      var e := r.entities[i];
      PrefixStep(c.entities, i);
      assert e in Elems(c.entities);
      var m := IntegrateOne(r.components[e], FlagsOf(players, e), elapsedMs, windowHeight, radii[e]);
      PartlyIntegratedStep(c, Elems(c.entities[..i]), e, players, radii, elapsedMs, windowHeight);
      r := r.(components := r.components[e := m]);
      i := i + 1;
    }
    assert c.entities[..i] == c.entities;
    PartlyIntegratedAll(c, Elems(c.entities), players, radii, elapsedMs, windowHeight);
  }

  /** Two containers list the same entities at the same places and sizes. */
  predicate SameShapes(c: Container<Motion>, d: Container<Motion>) {
    && c.entities == d.entities && c.components.Keys == d.components.Keys
    && forall e :: e in c.components ==>
         c.components[e].position == d.components[e].position && c.components[e].scale == d.components[e].scale
  }

  /** The inner loop's events depend on positions and scales only. */
  lemma {:induction false} RowEventsByShape(c: Container<Motion>, d: Container<Motion>, x: Entity, q: seq<Entity>)
    requires SameShapes(c, d)
    requires x in c.components && forall y :: y in q ==> y in c.components
    ensures RowEvents(c, x, q) == RowEvents(d, x, q)
  {
    if q != [] {
      var y := q[|q| - 1];
      RowEventsByShape(c, d, x, q[..|q| - 1]);
      CollidesByShape(c.components[x], d.components[x], c.components[y], d.components[y]);
    }
  }

  /** The motions after reflecting the soft shells of `done`. */
  ghost function PartlyReflected(c: Container<Motion>, done: set<Entity>, softShells: map<Entity, SoftShell>,
                                 radii: map<Entity, real>, windowHeight: real): (r: Container<Motion>)
    requires RadiiFor(c, radii)
    ensures SameShapes(r, c)
  {
    Container(c.entities, map e | e in c.components ::
      if e in done && e in softShells then Reflect(c.components[e], radii[e], windowHeight)
      else c.components[e])
  }

  lemma PartlyReflectedStep(c: Container<Motion>, done: set<Entity>, e: Entity, softShells: map<Entity, SoftShell>,
                            radii: map<Entity, real>, windowHeight: real)
    requires RadiiFor(c, radii) && e in c.components && e !in done
    ensures PartlyReflected(c, done + {e}, softShells, radii, windowHeight)
         == var p := PartlyReflected(c, done, softShells, radii, windowHeight);
            if e in softShells then p.(components := p.components[e := Reflect(c.components[e], radii[e], windowHeight)])
            else p
  {
  }

  lemma PartlyReflectedAll(c: Container<Motion>, done: set<Entity>, softShells: map<Entity, SoftShell>,
                           radii: map<Entity, real>, windowHeight: real)
    requires RadiiFor(c, radii) && c.components.Keys <= done
    ensures PartlyReflected(c, done, softShells, radii, windowHeight) == ReflectAll(c, softShells, radii, windowHeight)
  {
  }

  /** The wall test of one fish: each wall it reaches negates its vertical velocity. */
  method ReflectOne(m: Motion, r: real, windowHeight: real) returns (n: Motion)
    ensures n == Reflect(m, r, windowHeight)
  {
    n := m;
    var upperEdgeY := n.position.y - r / 2.0;
    var bottomEdgeY := n.position.y + r / 2.0;
    if upperEdgeY < 0.2 {
      n := n.(velocity := Vec2(n.velocity.x, -n.velocity.y));
    }
    if bottomEdgeY >= windowHeight - 0.2 {
      n := n.(velocity := Vec2(n.velocity.x, -n.velocity.y));
    }
  }

  /** The inner loop of row `i`: two events for every other entity whose motion collides. */
  method RowCollisions(c: Container<Motion>, i: nat) returns (events: seq<Collision>)
    requires Listed(c) && Distinct(c.entities) && i < |c.entities|
    ensures events == RowEvents(c, c.entities[i], c.entities)
  {
    var x := c.entities[i];
    events := [];
    var j := 0;
    while j < |c.entities|
      invariant 0 <= j <= |c.entities|
      invariant events == RowEvents(c, x, c.entities[..j])
    {
      RowEventsStep(c, i, j);
      if i != j && Collides(c.components[x], c.components[c.entities[j]]) {
        var y := c.entities[j];
        events := events + [Collision(x, y)];
        events := events + [Collision(y, x)];
      }
      j := j + 1;
    }
    assert c.entities[..j] == c.entities;
  }

  /** One more step of the inner loop of row `i`: the events of the `j`-th entity are appended. */
  lemma RowEventsStep(c: Container<Motion>, i: nat, j: nat)
    requires Listed(c) && Distinct(c.entities) && i < |c.entities| && j < |c.entities|
    ensures var x, y := c.entities[i], c.entities[j];
      RowEvents(c, x, c.entities[..j + 1])
      == RowEvents(c, x, c.entities[..j])
         + if i != j && Collides(c.components[x], c.components[y]) then [Collision(x, y), Collision(y, x)] else []
  {
    assert c.entities[..j + 1][..j] == c.entities[..j];
  }

  lemma IndexedListed(c: Container<Motion>)
    requires Indexed(c)
    ensures Listed(c)
  {
    forall k | 0 <= k < |c.entities| ensures c.entities[k] in c.components {
      assert c.entities[k] in Elems(c.entities);
    }
  }

  lemma PairEventsStep(c: Container<Motion>, q: seq<Entity>, i: nat)
    requires forall y :: y in q ==> y in c.components
    requires i < |q|
    ensures PairEvents(c, q[..i + 1], q) == PairEvents(c, q[..i], q) + RowEvents(c, q[i], q)
  {
    assert q[..i + 1][..i] == q[..i];
  }

  /** One iteration of the collision loop: reflect the `i`-th motion if it is a fish, then test it. */
  method CollisionRow(c: Container<Motion>, softShells: map<Entity, SoftShell>, radii: map<Entity, real>,
                      windowHeight: real, i: nat, r: Container<Motion>, ghost done: set<Entity>)
    returns (r': Container<Motion>, row: seq<Collision>)
    requires Listed(c) && Distinct(c.entities) && RadiiFor(c, radii) && i < |c.entities|
    requires c.entities[i] !in done
    requires r == PartlyReflected(c, done, softShells, radii, windowHeight)
    ensures r' == PartlyReflected(c, done + {c.entities[i]}, softShells, radii, windowHeight)
    ensures row == RowEvents(c, c.entities[i], c.entities)
  {
    var e := r.entities[i];
    r' := r;
    if e in softShells {
      var m := ReflectOne(r'.components[e], radii[e], windowHeight);
      r' := r'.(components := r'.components[e := m]);
    }
    PartlyReflectedStep(c, done, e, softShells, radii, windowHeight);
    row := RowCollisions(r', i);
    RowEventsByShape(r', c, e, c.entities);
  }

  /**
   * The collision loop: for each motion in container order, a fish is first
   * reflected at the walls in place, then every other motion is checked against
   * it. The motions end up as `ReflectAll` and the events as `AllPairEvents`
   * of the motions the loop started from.
   */
  method DetectCollisions(c: Container<Motion>, softShells: map<Entity, SoftShell>, radii: map<Entity, real>,
                          windowHeight: real) returns (r: Container<Motion>, events: seq<Collision>)
    requires Indexed(c) && RadiiFor(c, radii)
    ensures Listed(c)
    ensures r == ReflectAll(c, softShells, radii, windowHeight)
    ensures events == AllPairEvents(c)
  {
    IndexedListed(c);
    r, events := c, [];
    var i := 0;
    while i < |c.entities|
      invariant 0 <= i <= |c.entities|
      invariant r == PartlyReflected(c, Elems(c.entities[..i]), softShells, radii, windowHeight)
      invariant events == PairEvents(c, c.entities[..i], c.entities)
    {
      PrefixStep(c.entities, i);
      PairEventsStep(c, c.entities, i);
      var row;
      r, row := CollisionRow(c, softShells, radii, windowHeight, i, r, Elems(c.entities[..i]));
      events := events + row;
      i := i + 1;
    }
    assert c.entities[..i] == c.entities;
    PartlyReflectedAll(c, Elems(c.entities), softShells, radii, windowHeight);
  }

  /**
   * The vertex scan over the player's mesh: each vertex is taken to world
   * space in turn, and the first one at or past a wall sets that wall's flag
   * and ends the scan.
   */
  method ScanMesh(m: Motion, mesh: seq<Vec2>, worldY: (Motion, Vec2) -> real, windowHeight: real)
    returns (p: Player)
    ensures p == ScanVertices(WorldYs(m, mesh, worldY), windowHeight)
  {
    ghost var ys := WorldYs(m, mesh, worldY);
    p := Player(false, false);
    var k := 0;
    while k < |mesh|
      invariant 0 <= k <= |mesh|
      invariant forall l :: 0 <= l < k ==> Clear(ys[l], windowHeight)
    {
      var y := worldY(m, mesh[k]);
      if y <= 0.2 {
        p := p.(collidesWithTopWall := true);
        ScanFindsFirstHit(ys, windowHeight, k);
        return;
      }
      if y >= windowHeight - 0.2 {
        p := p.(collidesWithBottomWall := true);
        ScanFindsFirstHit(ys, windowHeight, k);
        return;
      }
      k := k + 1;
    }
    ScanAllClear(ys, windowHeight);
  }

  /**
   * The wall-flag recomputation on the registry: the first player's flags are
   * cleared, and the vertex scan runs only when its circle comes near a wall.
   */
  method UpdatePlayerWallFlags(reg: Registry, radii: map<Entity, real>, windowHeight: real,
                               mesh: seq<Vec2>, worldY: (Motion, Vec2) -> real)
    requires reg.Valid() && RadiiFor(reg.motions, radii)
    modifies reg
    ensures reg.Snapshot() == UpdateWallFlags(old(reg.Snapshot()), radii, windowHeight, mesh, worldY)
  {
    if |reg.players.entities| > 0 {
      var p := reg.players.entities[0];
      assert p in Elems(reg.players.entities);
      var flags := Player(false, false);
      var m := reg.motions.components[p];
      var radius := radii[p];
      var checkNarrowPhase := false;
      if m.position.y - radius < 0.5 {
        checkNarrowPhase := true;
      }
      if m.position.y + radius >= windowHeight - 0.5 {
        checkNarrowPhase := true;
      }
      if checkNarrowPhase {
        flags := ScanMesh(m, mesh, worldY, windowHeight);
      }
      reg.players := reg.players.(components := reg.players.components[p := flags]);
    }
  }

  /** `PhysicsSystem::step` on the registry. */
  method Step(reg: Registry, elapsedMs: real, windowHeight: real, radii: map<Entity, real>,
              mesh: seq<Vec2>, worldY: (Motion, Vec2) -> real)
    requires reg.Valid() && RadiiFor(reg.motions, radii)
    modifies reg
    ensures reg.Valid()
    ensures reg.Snapshot() == PhysicsStep(old(reg.Snapshot()), elapsedMs, windowHeight, radii, mesh, worldY)
  {
    var integrated := IntegrateMotions(reg.motions, reg.players, radii, elapsedMs, windowHeight);
    reg.motions := integrated;
    var reflected, events := DetectCollisions(reg.motions, reg.softShells, radii, windowHeight);
    reg.motions := reflected;
    reg.collisions := reg.collisions + events;
    UpdatePlayerWallFlags(reg, radii, windowHeight, mesh, worldY);
  }
}
