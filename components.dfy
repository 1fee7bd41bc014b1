// Data model of the salmon game's entity-component world: 2D vectors, the
// component records the core reads and writes, and a value snapshot of the
// whole component store that the per-frame systems are specified against.

module Components {

  /** An entity is an opaque identity; all of its data lives in the containers. */
  type Entity = nat

  /** glm::vec2 with real arithmetic in place of float. */
  datatype Vec2 = Vec2(x: real, y: real)

  function Add(a: Vec2, b: Vec2): Vec2 { Vec2(a.x + b.x, a.y + b.y) }

  function Sub(a: Vec2, b: Vec2): Vec2 { Vec2(a.x - b.x, a.y - b.y) }

  function Scale(k: real, a: Vec2): Vec2 { Vec2(k * a.x, k * a.y) }

  /** glm's `vec2 * vec2`: the component-wise (Hadamard) product. */
  function Mul(a: Vec2, b: Vec2): Vec2 { Vec2(a.x * b.x, a.y * b.y) }

  function Dot(a: Vec2, b: Vec2): real { a.x * b.x + a.y * b.y }

  function AbsR(r: real): real { if r < 0.0 then -r else r }

  /** Position, velocity, facing angle and scale of a moving entity. */
  datatype Motion = Motion(position: Vec2, velocity: Vec2, angle: real, scale: Vec2)

  /** The player component with its two wall-contact flags. */
  datatype Player = Player(collidesWithTopWall: bool, collidesWithBottomWall: bool)

  /** The soft-shell (fish) component: latched once the fish came near the salmon. */
  datatype SoftShell = SoftShell(inDeltaRange: bool)

  /** The per-player mode record. */
  datatype Mode = Mode(basicMode: bool)

  datatype Color = Color(r: real, g: real, b: real)

  /** One collision event: `entity` collided with `other`. */
  datatype Collision = Collision(entity: Entity, other: Entity)

  /**
   * A component container: the entities in container order and the component
   * of each. Containers that the systems walk by index need the order.
   */
  datatype Container<T> = Container(entities: seq<Entity>, components: map<Entity, T>)

  predicate Distinct(q: seq<Entity>) {
    forall i, j :: 0 <= i < j < |q| ==> q[i] != q[j]
  }

  function Elems(q: seq<Entity>): set<Entity> { set x | x in q }

  /** Each entity of the container is listed once, and exactly those have a component. */
  predicate Indexed<T>(c: Container<T>) {
    Distinct(c.entities) && Elems(c.entities) == c.components.Keys
  }

  /** A value snapshot of the component store. */
  datatype Store = Store(
    motions: Container<Motion>,
    players: Container<Player>,
    softShells: map<Entity, SoftShell>,
    hardShells: set<Entity>,
    pits: set<Entity>,
    deathTimers: Container<real>,
    lightUpTimers: map<Entity, real>,
    colors: map<Entity, Color>,
    mode: map<Entity, Mode>,
    collisions: seq<Collision>,
    darken: real)

  /**
   * The invariants the entity factories and the removal operation keep: each
   * ordered container lists exactly its keys once, and every entity the
   * systems look a motion up for has one.
   */
  predicate WellFormed(s: Store) {
    && Indexed(s.motions) && Indexed(s.players) && Indexed(s.deathTimers)
    && s.players.components.Keys <= s.motions.components.Keys
    && s.softShells.Keys <= s.motions.components.Keys
    && s.pits <= s.motions.components.Keys
  }

  /** Drops the members of `e` from an ordered container, keeping the order of the rest. */
  function FilterOut(q: seq<Entity>, e: set<Entity>): (r: seq<Entity>)
    ensures |r| <= |q|
    ensures forall x :: x in r <==> x in q && x !in e
  {
    if q == [] then []
    else FilterOut(q[..|q| - 1], e) + (if q[|q| - 1] in e then [] else [q[|q| - 1]])
  }

  lemma {:induction false} FilterOutDistinct(q: seq<Entity>, e: set<Entity>)
    requires Distinct(q)
    ensures Distinct(FilterOut(q, e))
  {
    if q != [] {
      var p := q[..|q| - 1];
      assert Distinct(p);
      FilterOutDistinct(p, e);
    }
  }

  /** Filtering out a member of the container makes it shorter. */
  lemma {:induction false} FilterOutShrinks(q: seq<Entity>, e: set<Entity>, x: Entity)
    requires x in q && x in e
    ensures |FilterOut(q, e)| < |q|
  {
    var p := q[..|q| - 1];
    if q[|q| - 1] != x {
      assert q == p + [q[|q| - 1]];
      assert x in p;
      FilterOutShrinks(p, e, x);
    }
  }

  /** Filtering twice is filtering once by the union. */
  lemma {:induction false} FilterOutTwice(q: seq<Entity>, a: set<Entity>, b: set<Entity>)
    ensures FilterOut(FilterOut(q, a), b) == FilterOut(q, a + b)
  {
    if q != [] {
      var p := q[..|q| - 1];
      var x := q[|q| - 1];
      FilterOutTwice(p, a, b);
      var fa := FilterOut(p, a);
      if x in a {
        assert FilterOut(q, a) == fa;
      } else {
        assert FilterOut(q, a) == fa + [x];
        assert (fa + [x])[..|fa + [x]| - 1] == fa;
      }
    }
  }

  /** `ComponentContainer::remove` for every entity of `e`. */
  function Without<T>(c: Container<T>, e: set<Entity>): (r: Container<T>)
    ensures r.components.Keys == c.components.Keys - e
    ensures forall x :: x in r.components ==> r.components[x] == c.components[x]
  {
    Container(FilterOut(c.entities, e), c.components - e)
  }

  lemma WithoutIndexed<T>(c: Container<T>, e: set<Entity>)
    requires Indexed(c)
    ensures Indexed(Without(c, e))
  {
    FilterOutDistinct(c.entities, e);
  }

  lemma WithoutTwice<T>(c: Container<T>, a: set<Entity>, b: set<Entity>)
    ensures Without(Without(c, a), b) == Without(c, a + b)
  {
    FilterOutTwice(c.entities, a, b);
    assert c.components - a - b == c.components - (a + b);
  }

  /** `registry.remove_all_components_of` for every entity of `e`. */
  function RemoveSet(s: Store, e: set<Entity>): (r: Store)
    ensures r.motions.components.Keys == s.motions.components.Keys - e
    ensures forall x :: x in r.motions.components ==> r.motions.components[x] == s.motions.components[x]
    ensures r.collisions == s.collisions && r.darken == s.darken
  {
    s.(motions := Without(s.motions, e), players := Without(s.players, e),
       softShells := s.softShells - e, hardShells := s.hardShells - e, pits := s.pits - e,
       deathTimers := Without(s.deathTimers, e), lightUpTimers := s.lightUpTimers - e,
       colors := s.colors - e, mode := s.mode - e)
  }

  /** Removal keeps the store well formed and leaves no component of a removed entity. */
  lemma RemoveSetWellFormed(s: Store, e: set<Entity>)
    requires WellFormed(s)
    ensures WellFormed(RemoveSet(s, e))
    ensures forall x :: x in e ==>
      && x !in RemoveSet(s, e).motions.components && x !in RemoveSet(s, e).players.components
      && x !in RemoveSet(s, e).softShells && x !in RemoveSet(s, e).hardShells
      && x !in RemoveSet(s, e).pits && x !in RemoveSet(s, e).deathTimers.components
      && x !in RemoveSet(s, e).lightUpTimers && x !in RemoveSet(s, e).colors
      && x !in RemoveSet(s, e).mode
  {
    WithoutIndexed(s.motions, e);
    WithoutIndexed(s.players, e);
    WithoutIndexed(s.deathTimers, e);
  }

  lemma MapMinusTwice<V>(m: map<Entity, V>, a: set<Entity>, b: set<Entity>)
    ensures m - a - b == m - (a + b)
  {
  }

  /** Removing one set after another is removing their union. */
  lemma RemoveSetTwice(s: Store, a: set<Entity>, b: set<Entity>)
    ensures RemoveSet(RemoveSet(s, a), b) == RemoveSet(s, a + b)
  {
    WithoutTwice(s.motions, a, b);
    WithoutTwice(s.players, a, b);
    WithoutTwice(s.deathTimers, a, b);
    MapMinusTwice(s.softShells, a, b);
    MapMinusTwice(s.lightUpTimers, a, b);
    MapMinusTwice(s.colors, a, b);
    MapMinusTwice(s.mode, a, b);
    assert s.hardShells - a - b == s.hardShells - (a + b);
    assert s.pits - a - b == s.pits - (a + b);
  }

  /** Extending a prefix of a sequence without repetitions by its next element. */
  lemma PrefixStep(q: seq<Entity>, i: nat)
    requires Distinct(q) && i < |q|
    ensures q[..i + 1][..i] == q[..i]
    ensures Elems(q[..i + 1]) == Elems(q[..i]) + {q[i]}
    ensures q[i] !in Elems(q[..i])
  {
    assert q[..i + 1] == q[..i] + [q[i]];
  }

  /** Filtering a concatenation filters each part. */
  lemma {:induction false} FilterOutAppend(a: seq<Entity>, b: seq<Entity>, e: set<Entity>)
    ensures FilterOut(a + b, e) == FilterOut(a, e) + FilterOut(b, e)
  {
    if b != [] {
      var b' := b[..|b| - 1];
      assert (a + b)[..|a + b| - 1] == a + b';
      FilterOutAppend(a, b', e);
    } else {
      assert a + b == a;
    }
  }

  /** Filtering out what does not occur keeps the sequence. */
  lemma {:induction false} FilterOutNone(q: seq<Entity>, e: set<Entity>)
    requires forall i :: 0 <= i < |q| ==> q[i] !in e
    ensures FilterOut(q, e) == q
  {
    if q != [] {
      var p := q[..|q| - 1];
      assert forall i :: 0 <= i < |p| ==> p[i] == q[i];
      FilterOutNone(p, e);
      assert q == p + [q[|q| - 1]];
    }
  }

  /** When nothing filtered out occurs before index `i`, the prefix up to `i` is kept. */
  lemma FilterOutSplit(q: seq<Entity>, e: set<Entity>, i: nat)
    requires i <= |q| && forall x :: x in q[..i] ==> x !in e
    ensures FilterOut(q, e) == q[..i] + FilterOut(q[i..], e)
  {
    assert q == q[..i] + q[i..];
    FilterOutAppend(q[..i], q[i..], e);
    assert forall j :: 0 <= j < i ==> q[..i][j] in q[..i];
    FilterOutNone(q[..i], e);
  }

  /** Removing nothing changes nothing. */
  lemma RemoveSetEmpty(s: Store)
    ensures RemoveSet(s, {}) == s
  {
    WithoutNothing(s.motions);
    WithoutNothing(s.players);
    WithoutNothing(s.deathTimers);
    assert s.softShells - {} == s.softShells;
    assert s.lightUpTimers - {} == s.lightUpTimers;
    assert s.colors - {} == s.colors;
    assert s.mode - {} == s.mode;
  }

  lemma WithoutNothing<T>(c: Container<T>)
    ensures Without(c, {}) == c
  {
    FilterOutNone(c.entities, {});
    assert c.components - {} == c.components;
  }

  /** An element not filtered out, with nothing before it filtered out, keeps its index. */
  lemma FilterOutKeepsIndex(q: seq<Entity>, e: set<Entity>, i: nat)
    requires i < |q| && forall j :: 0 <= j <= i ==> q[j] !in e
    ensures i < |FilterOut(q, e)| && FilterOut(q, e)[i] == q[i]
  {
    FilterOutSplit(q, e, i + 1);
  }
}
