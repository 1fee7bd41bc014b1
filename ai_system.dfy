// The fish AI of the salmon game: every frame each fish close to the salmon
// is latched and dodges vertically away from it, and a latched fish that is
// no longer close swims off to the left.

module AiSystem {
  import opened Components
  import opened Ecs

  /** The distance below which a fish notices the salmon. */
  const FishDeltaDistance: real := 200.0

  /** The vertical speed of a dodging fish. */
  const DodgeSpeed: real := 180.0

  /** The velocity of a latched fish that is no longer close. */
  const Retreat: Vec2 := Vec2(-200.0, 0.0)

  /**
   * The fish is closer to the salmon than `FishDeltaDistance`, compared on
   * squares so that no square root is needed.
   */
  predicate InRange(salmon: Vec2, fish: Vec2) {
    Dot(Sub(salmon, fish), Sub(salmon, fish)) < FishDeltaDistance * FishDeltaDistance
  }

  /** Comparing the distance itself, as a non-negative root of the squared distance, agrees with `InRange`. */
  lemma DistanceThreshold(salmon: Vec2, fish: Vec2, distance: real)
    requires distance >= 0.0 && distance * distance == Dot(Sub(salmon, fish), Sub(salmon, fish))
    ensures distance < FishDeltaDistance <==> InRange(salmon, fish)
  {
    if distance < FishDeltaDistance {
      assert distance * distance <= distance * FishDeltaDistance;
      assert distance * FishDeltaDistance < FishDeltaDistance * FishDeltaDistance;
    } else {
      assert distance * distance >= distance * FishDeltaDistance;
      assert distance * FishDeltaDistance >= FishDeltaDistance * FishDeltaDistance;
    }
  }

  /**
   * The new motion of a fish: a fish in range dodges away from the salmon
   * vertically (the angle from the salmon to the fish is negative exactly when
   * the fish is above it on screen), a latched fish out of range retreats, and
   * any other fish keeps its motion.
   */
  function Steered(fish: Motion, shell: SoftShell, salmon: Vec2): (r: Motion)
    ensures r.position == fish.position && r.angle == fish.angle && r.scale == fish.scale
    ensures InRange(salmon, fish.position) ==>
      r.velocity.x == fish.velocity.x && (r.velocity.y < 0.0 <==> fish.position.y < salmon.y)
      && (r.velocity.y == DodgeSpeed || r.velocity.y == -DodgeSpeed)
    ensures !InRange(salmon, fish.position) ==> r.velocity == (if shell.inDeltaRange then Retreat else fish.velocity)
  {
    if InRange(salmon, fish.position) then
      fish.(velocity := fish.velocity.(y := if fish.position.y - salmon.y < 0.0 then -DodgeSpeed else DodgeSpeed))
    else if shell.inDeltaRange then fish.(velocity := Retreat)
    else fish
  }

  /** The latch of a fish: set once it came in range, never reset. */
  function Latched(fish: Motion, shell: SoftShell, salmon: Vec2): (r: SoftShell)
    ensures r.inDeltaRange <==> shell.inDeltaRange || InRange(salmon, fish.position)
  {
    if InRange(salmon, fish.position) then shell.(inDeltaRange := true) else shell
  }

  /** The motions with the fish of `done` steered. */
  function SteeredPartly(motions: map<Entity, Motion>, shells: map<Entity, SoftShell>, salmon: Vec2, done: set<Entity>)
    : (r: map<Entity, Motion>)
    requires done <= shells.Keys
    ensures r.Keys == motions.Keys
  {
    map e | e in motions :: if e in done then Steered(motions[e], shells[e], salmon) else motions[e]
  }

  /** The soft shells with the fish of `done` latched when in range. */
  function LatchedPartly(motions: map<Entity, Motion>, shells: map<Entity, SoftShell>, salmon: Vec2, done: set<Entity>)
    : (r: map<Entity, SoftShell>)
    requires shells.Keys <= motions.Keys
    ensures r.Keys == shells.Keys
  {
    map e | e in shells :: if e in done then Latched(motions[e], shells[e], salmon) else shells[e]
  }

  /** Some fish of `done` is in range of the salmon. */
  predicate AnyInRange(motions: map<Entity, Motion>, salmon: Vec2, done: set<Entity>)
    requires done <= motions.Keys
  {
    exists e :: e in done && InRange(salmon, motions[e].position)
  }

  /** The salmon's position: the motion of the first player. */
  function SalmonPosition(s: Store): Vec2
    requires WellFormed(s) && |s.players.entities| > 0
  {
    assert s.players.entities[0] in Elems(s.players.entities);
    s.motions.components[s.players.entities[0]].position
  }

  /** The store after the AI step: nothing happens without a player. */
  function AiStepped(s: Store): (r: Store)
    requires WellFormed(s)
    ensures r.(motions := s.motions, softShells := s.softShells) == s
    ensures r.motions.entities == s.motions.entities && r.motions.components.Keys == s.motions.components.Keys
    ensures r.softShells.Keys == s.softShells.Keys
  {
    if |s.players.entities| == 0 then s
    else
      var salmon := SalmonPosition(s);
      s.(motions := s.motions.(components := SteeredPartly(s.motions.components, s.softShells, salmon, s.softShells.Keys)),
         softShells := LatchedPartly(s.motions.components, s.softShells, salmon, s.softShells.Keys))
  }

  /** The freeze flag after the AI step: set when some fish is in range of the salmon. */
  function AiFreezes(s: Store, freeze: bool): (r: bool)
    requires WellFormed(s)
    ensures freeze ==> r
    ensures |s.players.entities| == 0 ==> r == freeze
  {
    freeze || (|s.players.entities| > 0 && AnyInRange(s.motions.components, SalmonPosition(s), s.softShells.Keys))
  }

  /** `AISystem::step` on the registry and the debugging flags. */
  method Step(reg: Registry, dbg: Debugging)
    requires reg.Valid()
    modifies reg, dbg
    ensures reg.Valid()
    ensures reg.Snapshot() == AiStepped(old(reg.Snapshot()))
    ensures dbg.inFreezeMode == AiFreezes(old(reg.Snapshot()), old(dbg.inFreezeMode))
    ensures dbg.inDebugMode == old(dbg.inDebugMode)
  {
    if |reg.players.entities| > 0 {
      assert reg.players.entities[0] in Elems(reg.players.entities);
      var salmon := reg.motions.components[reg.players.entities[0]].position;
      var motions, shells, near := SteerFish(reg.motions.components, reg.softShells, salmon);
      reg.motions := reg.motions.(components := motions);
      reg.softShells := shells;
      if near {
        dbg.inFreezeMode := true;
      }
    }
  }

  /** The loop over the soft shells, on the values of the two containers. */
  method SteerFish(motions: map<Entity, Motion>, shells: map<Entity, SoftShell>, salmon: Vec2)
    returns (motions': map<Entity, Motion>, shells': map<Entity, SoftShell>, near: bool)
    requires shells.Keys <= motions.Keys
    ensures motions' == SteeredPartly(motions, shells, salmon, shells.Keys)
    ensures shells' == LatchedPartly(motions, shells, salmon, shells.Keys)
    ensures near == AnyInRange(motions, salmon, shells.Keys)
  {
    motions', shells', near := motions, shells, false;
    var todo := shells.Keys;
    assert SteeredPartly(motions, shells, salmon, {}) == motions;
    assert LatchedPartly(motions, shells, salmon, {}) == shells;
    while todo != {}
      invariant todo <= shells.Keys
      invariant motions' == SteeredPartly(motions, shells, salmon, shells.Keys - todo)
      invariant shells' == LatchedPartly(motions, shells, salmon, shells.Keys - todo)
      invariant near == AnyInRange(motions, salmon, shells.Keys - todo)
      decreases todo
    {
      var e :| e in todo;
      SteerStep(motions, shells, salmon, shells.Keys - todo, e);
      var fish, shell := motions'[e], shells'[e];
      if InRange(salmon, fish.position) {
        shells' := shells'[e := shell.(inDeltaRange := true)];
        near := true;
        if fish.position.y - salmon.y < 0.0 {
          motions' := motions'[e := fish.(velocity := fish.velocity.(y := -DodgeSpeed))];
        } else {
          motions' := motions'[e := fish.(velocity := fish.velocity.(y := DodgeSpeed))];
        }
      } else if shell.inDeltaRange {
        motions' := motions'[e := fish.(velocity := Retreat)];
      }
      todo := todo - {e};
    }
    assert shells.Keys - todo == shells.Keys;
  }

  /** Visiting one more fish. */
  lemma SteerStep(motions: map<Entity, Motion>, shells: map<Entity, SoftShell>, salmon: Vec2, done: set<Entity>, e: Entity)
    requires shells.Keys <= motions.Keys && done <= shells.Keys && e in shells && e !in done
    ensures SteeredPartly(motions, shells, salmon, done)[e] == motions[e]
    ensures LatchedPartly(motions, shells, salmon, done)[e] == shells[e]
    ensures SteeredPartly(motions, shells, salmon, done + {e})
         == SteeredPartly(motions, shells, salmon, done)[e := Steered(motions[e], shells[e], salmon)]
    ensures LatchedPartly(motions, shells, salmon, done + {e})
         == LatchedPartly(motions, shells, salmon, done)[e := Latched(motions[e], shells[e], salmon)]
    ensures AnyInRange(motions, salmon, done + {e}) == (AnyInRange(motions, salmon, done) || InRange(salmon, motions[e].position))
  {
    if InRange(salmon, motions[e].position) {
      assert e in done + {e};
    }
  }

  // ---------------------------------------------------------------------------
  // Properties of the step

  /**
   * The AI only steers: the store stays well formed, no entity moves, no
   * container gains or loses an entity, and only velocities and latches change.
   */
  lemma AiKeepsPositions(s: Store)
    requires WellFormed(s)
    ensures var r := AiStepped(s);
      && WellFormed(r)
      && r.motions.entities == s.motions.entities && r.motions.components.Keys == s.motions.components.Keys
      && r.softShells.Keys == s.softShells.Keys
      && (forall e :: e in s.motions.components ==>
            r.motions.components[e] == s.motions.components[e].(velocity := r.motions.components[e].velocity))
      && r.(motions := s.motions, softShells := s.softShells) == s
  {
    if |s.players.entities| > 0 {
      SteeringKeepsPositions(s.motions.components, s.softShells, SalmonPosition(s));
    }
  }

  /** Steering changes velocities only. */
  lemma SteeringKeepsPositions(motions: map<Entity, Motion>, shells: map<Entity, SoftShell>, salmon: Vec2)
    requires shells.Keys <= motions.Keys
    ensures var r := SteeredPartly(motions, shells, salmon, shells.Keys);
      forall e :: e in motions ==> r[e] == motions[e].(velocity := r[e].velocity)
  {
  }

  /** A fish in range is latched and dodges vertically away from the salmon, keeping its horizontal speed. */
  lemma InRangeDodges(s: Store, e: Entity)
    requires WellFormed(s) && |s.players.entities| > 0 && e in s.softShells
    requires InRange(SalmonPosition(s), s.motions.components[e].position)
    ensures var r, m, p := AiStepped(s), s.motions.components[e], SalmonPosition(s);
      && r.softShells[e].inDeltaRange
      && r.motions.components[e].velocity
         == Vec2(m.velocity.x, if m.position.y < p.y then -DodgeSpeed else DodgeSpeed)
  {
  }

  /** A latched fish out of range retreats to the left; its latch stays set. */
  lemma LatchedRetreats(s: Store, e: Entity)
    requires WellFormed(s) && |s.players.entities| > 0 && e in s.softShells && s.softShells[e].inDeltaRange
    requires !InRange(SalmonPosition(s), s.motions.components[e].position)
    ensures AiStepped(s).motions.components[e].velocity == Retreat
    ensures AiStepped(s).softShells[e].inDeltaRange
  {
  }

  /** A fish never latched and out of range is left exactly as it was. */
  lemma UnlatchedOutOfRangeUnchanged(s: Store, e: Entity)
    requires WellFormed(s) && |s.players.entities| > 0 && e in s.softShells && !s.softShells[e].inDeltaRange
    requires !InRange(SalmonPosition(s), s.motions.components[e].position)
    ensures AiStepped(s).motions.components[e] == s.motions.components[e]
    ensures AiStepped(s).softShells[e] == s.softShells[e]
  {
  }

  /** The latch is never reset, and it is newly set exactly for the fish in range. */
  lemma LatchMonotone(s: Store, e: Entity)
    requires WellFormed(s) && |s.players.entities| > 0 && e in s.softShells
    ensures AiStepped(s).softShells[e].inDeltaRange
        <==> s.softShells[e].inDeltaRange || InRange(SalmonPosition(s), s.motions.components[e].position)
  {
  }

  /** Without a player the step changes nothing and does not freeze. */
  lemma NoPlayerNoChange(s: Store, freeze: bool)
    requires WellFormed(s) && |s.players.entities| == 0
    ensures AiStepped(s) == s && AiFreezes(s, freeze) == freeze
  {
  }

  /** The salmon's motion is left alone unless the salmon is itself a soft shell. */
  lemma SalmonUntouched(s: Store)
    requires WellFormed(s) && |s.players.entities| > 0 && s.players.entities[0] !in s.softShells
    ensures s.players.entities[0] in s.motions.components
    ensures AiStepped(s).motions.components[s.players.entities[0]] == s.motions.components[s.players.entities[0]]
  {
    assert s.players.entities[0] in Elems(s.players.entities);
  }

  /** The freeze flag is set exactly when some fish is in range, or it was set before. */
  lemma FreezeIff(s: Store, freeze: bool)
    requires WellFormed(s) && |s.players.entities| > 0
    ensures AiFreezes(s, freeze)
        <==> freeze || exists e :: e in s.softShells && InRange(SalmonPosition(s), s.motions.components[e].position)
  {
  }

  /** Running the step twice in one frame is running it once. */
  lemma AiIdempotent(s: Store)
    requires WellFormed(s)
    ensures WellFormed(AiStepped(s)) && AiStepped(AiStepped(s)) == AiStepped(s)
  {
    AiKeepsPositions(s);
    if |s.players.entities| > 0 {
      var r := AiStepped(s);
      assert r.players == s.players;
      assert SalmonPosition(r) == SalmonPosition(s);
      SteeringIdempotent(s.motions.components, s.softShells, SalmonPosition(s));
    }
  }

  /** Steering all fish a second time from the same salmon position changes nothing. */
  lemma SteeringIdempotent(motions: map<Entity, Motion>, shells: map<Entity, SoftShell>, salmon: Vec2)
    requires shells.Keys <= motions.Keys
    ensures var m, l := SteeredPartly(motions, shells, salmon, shells.Keys), LatchedPartly(motions, shells, salmon, shells.Keys);
      && SteeredPartly(m, l, salmon, l.Keys) == m
      && LatchedPartly(m, l, salmon, l.Keys) == l
  {
    var m, l := SteeredPartly(motions, shells, salmon, shells.Keys), LatchedPartly(motions, shells, salmon, shells.Keys);
    forall e | e in shells
      ensures Steered(m[e], l[e], salmon) == m[e] && Latched(m[e], l[e], salmon) == l[e]
    {
      SteerOnce(motions[e], shells[e], salmon);
    }
  }

  /** One fish steered twice is steered once. */
  lemma SteerOnce(fish: Motion, shell: SoftShell, salmon: Vec2)
    ensures var m, l := Steered(fish, shell, salmon), Latched(fish, shell, salmon);
      Steered(m, l, salmon) == m && Latched(m, l, salmon) == l
  {
  }
}
