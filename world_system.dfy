// The world system of the salmon game: the collision handler that turns the
// physics step's events into game rules, the per-frame removal of entities
// that left the screen, the vortex rotation, the death and light-up timers,
// the restart, and the speed and mode keys.

module WorldSystem {
  import opened Components
  import opened Ecs

  // ---------------------------------------------------------------------------
  // Collision handling

  /** The angle a dying salmon is turned to (the float literal 3.1415f). */
  const DyingAngle: real := 3.1415

  /** The velocity a dying salmon sinks with. */
  const SinkVelocity: Vec2 := Vec2(0.0, 80.0)

  /** The colour a dying salmon is painted. */
  const DeathColor: Color := Color(1.0, 0.0, 0.0)

  /** The parts of the world state the collision handler reads and writes. */
  datatype Game = Game(store: Store, points: nat, playerDead: bool)

  /** `ComponentContainer::emplace`: the entity is appended with its new component. */
  function Emplace<T>(c: Container<T>, e: Entity, v: T): (r: Container<T>)
    requires Indexed(c) && e !in c.components
    ensures Indexed(r) && r.components.Keys == c.components.Keys + {e}
  {
    Container(c.entities + [e], c.components[e := v])
  }

  /** A new motion for an entity that already has one; the order of the container is kept. */
  function SetMotion(c: Container<Motion>, e: Entity, m: Motion): (r: Container<Motion>)
    requires e in c.components
    ensures r.components.Keys == c.components.Keys
  {
    c.(components := c.components[e := m])
  }

  /**
   * The start of a player's death: a new death timer, the salmon turned and
   * sinking, and painted red.
   */
  function StartDying(s: Store, e: Entity, deathMs: real): (r: Store)
    requires WellFormed(s) && e in s.players.components && e !in s.deathTimers.components
    ensures WellFormed(r)
  {
    s.(deathTimers := Emplace(s.deathTimers, e, deathMs),
       motions := SetMotion(s.motions, e, s.motions.components[e].(angle := DyingAngle, velocity := SinkVelocity)),
       colors := s.colors[e := DeathColor])
  }

  /** A player event whose partner is a soft shell the player eats. */
  predicate Eats(s: Store, c: Collision) {
    && c.entity in s.players.components && c.entity !in s.deathTimers.components
    && c.other !in s.hardShells && c.other in s.softShells
  }

  /** A player eats a soft shell: the shell is removed, a point is scored and the player lights up. */
  function Eaten(g: Game, c: Collision, lightUpMs: real): (r: Game)
    requires WellFormed(g.store)
    ensures WellFormed(r.store) && r.store.collisions == g.store.collisions
  {
    RemoveSetWellFormed(g.store, {c.other});
    var s1 := RemoveSet(g.store, {c.other});
    g.(store := s1.(lightUpTimers := s1.lightUpTimers[c.entity := lightUpMs]), points := g.points + 1)
  }

  /**
   * A player falls into a vortex: it starts dying, the player is marked dead
   * and the salmon is moved onto the vortex's x.
   */
  function Swirled(g: Game, c: Collision, deathMs: real): (r: Game)
    requires WellFormed(g.store) && c.entity in g.store.players.components
    requires c.entity !in g.store.deathTimers.components && c.other in g.store.pits
    ensures WellFormed(r.store) && r.store.collisions == g.store.collisions
  {
    var s1 := StartDying(g.store, c.entity, deathMs);
    var m := s1.motions.components[c.entity];
    var x := g.store.motions.components[c.other].position.x;
    g.(store := s1.(motions := SetMotion(s1.motions, c.entity, m.(position := Vec2(x, m.position.y)))),
       playerDead := true)
  }

  /** A vortex swallows the entity it collided with; then the other entity, if a vortex, swallows this one. */
  function Swallowed(s: Store, c: Collision): (r: Store)
    requires WellFormed(s)
    ensures WellFormed(r) && r.collisions == s.collisions
  {
    RemoveSetWellFormed(s, {c.other});
    var s1 := if c.entity in s.pits then RemoveSet(s, {c.other}) else s;
    RemoveSetWellFormed(s1, {c.entity});
    if c.other in s1.pits then RemoveSet(s1, {c.entity}) else s1
  }

  /** The handling of one collision event (the body of the handler's loop). */
  function ApplyEvent(g: Game, c: Collision, deathMs: real, lightUpMs: real): (r: Game)
    requires WellFormed(g.store)
    ensures WellFormed(r.store) && r.store.collisions == g.store.collisions
  {
    var s, e, o := g.store, c.entity, c.other;
    if e in s.players.components then
      if e in s.deathTimers.components then g
      else if o in s.hardShells then g.(store := StartDying(s, e, deathMs))
      else if o in s.softShells then Eaten(g, c, lightUpMs)
      else if o in s.pits then Swirled(g, c, deathMs)
      else g
    else if |s.deathTimers.entities| == 0 then g.(store := Swallowed(s, c))
    else g
  }

  /** The events of a list handled in order, as the handler's loop does. */
  function Handled(g: Game, cs: seq<Collision>, deathMs: real, lightUpMs: real): (r: Game)
    requires WellFormed(g.store)
    ensures WellFormed(r.store) && r.store.collisions == g.store.collisions
  {
    if cs == [] then g
    else ApplyEvent(Handled(g, cs[..|cs| - 1], deathMs, lightUpMs), cs[|cs| - 1], deathMs, lightUpMs)
  }

  /** An event scores exactly when it is an eat, and then exactly one point. */
  lemma ApplyEventScores(g: Game, c: Collision, deathMs: real, lightUpMs: real)
    requires WellFormed(g.store)
    ensures ApplyEvent(g, c, deathMs, lightUpMs).points == g.points + (if Eats(g.store, c) then 1 else 0)
  {
  }

  /** Points never decrease, and a list of events scores at most one point per event. */
  lemma {:induction false} HandledScores(g: Game, cs: seq<Collision>, deathMs: real, lightUpMs: real)
    requires WellFormed(g.store)
    ensures g.points <= Handled(g, cs, deathMs, lightUpMs).points <= g.points + |cs|
  {
    if cs != [] {
      var p := cs[..|cs| - 1];
      HandledScores(g, p, deathMs, lightUpMs);
      ApplyEventScores(Handled(g, p, deathMs, lightUpMs), cs[|cs| - 1], deathMs, lightUpMs);
    }
  }

  /** A player that is already dying ignores every collision. */
  lemma DyingPlayerIgnoresEvents(g: Game, c: Collision, deathMs: real, lightUpMs: real)
    requires WellFormed(g.store) && c.entity in g.store.players.components
    requires c.entity in g.store.deathTimers.components
    ensures ApplyEvent(g, c, deathMs, lightUpMs) == g
  {
  }

  /** Events between non-players are ignored while any death timer runs. */
  lemma NonPlayerEventsWaitForDeath(g: Game, c: Collision, deathMs: real, lightUpMs: real)
    requires WellFormed(g.store) && c.entity !in g.store.players.components
    requires |g.store.deathTimers.entities| > 0
    ensures ApplyEvent(g, c, deathMs, lightUpMs) == g
  {
  }

  /**
   * A player hitting a hard shell starts dying: its death timer is appended,
   * it turns and sinks and turns red, and nothing is eaten or scored, even if
   * the shell is also soft or a vortex.
   */
  lemma HardShellKills(g: Game, c: Collision, deathMs: real, lightUpMs: real)
    requires WellFormed(g.store) && c.entity in g.store.players.components
    requires c.entity !in g.store.deathTimers.components && c.other in g.store.hardShells
    ensures var r := ApplyEvent(g, c, deathMs, lightUpMs);
      && r.store.deathTimers.entities == g.store.deathTimers.entities + [c.entity]
      && r.store.deathTimers.components[c.entity] == deathMs
      && r.store.motions.components[c.entity]
         == g.store.motions.components[c.entity].(angle := DyingAngle, velocity := SinkVelocity)
      && r.store.colors[c.entity] == DeathColor
      && r.store.motions.components.Keys == g.store.motions.components.Keys
      && r.store.softShells == g.store.softShells && r.store.pits == g.store.pits
      && r.points == g.points && r.playerDead == g.playerDead
  {
  }

  /**
   * Eating removes the shell from every container, scores one point and sets
   * the player's light-up timer.
   */
  lemma EatRemovesShell(g: Game, c: Collision, deathMs: real, lightUpMs: real)
    requires WellFormed(g.store) && Eats(g.store, c)
    ensures var r := ApplyEvent(g, c, deathMs, lightUpMs);
      && c.other !in r.store.motions.components && c.other !in r.store.softShells
      && r.store.motions.components.Keys == g.store.motions.components.Keys - {c.other}
      && r.store.lightUpTimers[c.entity] == lightUpMs
      && r.points == g.points + 1 && r.playerDead == g.playerDead
  {
    RemoveSetWellFormed(g.store, {c.other});
  }

  /**
   * A player meeting a vortex (and no shell) starts dying, is marked dead and
   * is moved onto the vortex's x, keeping its y.
   */
  lemma VortexKills(g: Game, c: Collision, deathMs: real, lightUpMs: real)
    requires WellFormed(g.store) && c.entity in g.store.players.components
    requires c.entity !in g.store.deathTimers.components
    requires c.other !in g.store.hardShells && c.other !in g.store.softShells && c.other in g.store.pits
    ensures var r := ApplyEvent(g, c, deathMs, lightUpMs);
      && r.playerDead && r.points == g.points
      && r.store.deathTimers.entities == g.store.deathTimers.entities + [c.entity]
      && r.store.motions.components[c.entity]
         == Motion(Vec2(g.store.motions.components[c.other].position.x, g.store.motions.components[c.entity].position.y),
                   SinkVelocity, DyingAngle, g.store.motions.components[c.entity].scale)
      && r.store.colors[c.entity] == DeathColor
  {
  }

  /**
   * Between non-players while nobody is dying, a vortex removes the entity it
   * collided with; if both are vortices only the partner of the first goes.
   */
  lemma VortexSwallows(g: Game, c: Collision, deathMs: real, lightUpMs: real)
    requires WellFormed(g.store) && c.entity !in g.store.players.components
    requires |g.store.deathTimers.entities| == 0
    ensures ApplyEvent(g, c, deathMs, lightUpMs).store
         == if c.entity in g.store.pits then RemoveSet(g.store, {c.other})
            else if c.other in g.store.pits then RemoveSet(g.store, {c.entity})
            else g.store
    ensures ApplyEvent(g, c, deathMs, lightUpMs).points == g.points
  {
  }

  /**
   * The physics step reports every colliding pair twice; the repeated event
   * finds the shell gone and scores nothing.
   */
  lemma RepeatedEatScoresOnce(g: Game, c: Collision, deathMs: real, lightUpMs: real)
    requires WellFormed(g.store) && Eats(g.store, c)
    ensures ApplyEvent(ApplyEvent(g, c, deathMs, lightUpMs), c, deathMs, lightUpMs).points == g.points + 1
  {
    var g1 := ApplyEvent(g, c, deathMs, lightUpMs);
    EatRemovesShell(g, c, deathMs, lightUpMs);
    ApplyEventScores(g1, c, deathMs, lightUpMs);
  }

  /** `StartDying` carried out on the registry. */
  method StartDeath(reg: Registry, e: Entity, deathMs: real)
    requires reg.Valid() && e in reg.players.components && e !in reg.deathTimers.components
    modifies reg
    ensures reg.Valid()
    ensures reg.Snapshot() == StartDying(old(reg.Snapshot()), e, deathMs)
  {
    reg.deathTimers := Emplace(reg.deathTimers, e, deathMs);
    var m := reg.motions.components[e];
    reg.motions := SetMotion(reg.motions, e, m.(angle := DyingAngle, velocity := SinkVelocity));
    reg.colors := reg.colors[e := DeathColor];
  }

  /** The world system's own state besides the registry. */
  class World {
    var points: nat
    var currentSpeed: real
    var playerDead: bool
    var playerSalmon: Entity

    /** The state the collision handler works on, as a value. */
    function GameOf(reg: Registry): Game
      reads this, reg
    {
      Game(reg.Snapshot(), points, playerDead)
    }

    /** One iteration of `handle_collisions`. */
    method HandleEvent(reg: Registry, c: Collision, deathMs: real, lightUpMs: real)
      requires reg.Valid()
      modifies this, reg
      ensures reg.Valid()
      ensures GameOf(reg) == ApplyEvent(old(GameOf(reg)), c, deathMs, lightUpMs)
      ensures currentSpeed == old(currentSpeed) && playerSalmon == old(playerSalmon)
    {
      var e, o := c.entity, c.other;
      if e in reg.players.components {
        if o in reg.hardShells {
          if e !in reg.deathTimers.components {
            StartDeath(reg, e, deathMs);
          }
        } else if o in reg.softShells {
          if e !in reg.deathTimers.components {
            Eat(reg, c, lightUpMs);
          }
        } else if o in reg.pits {
          if e !in reg.deathTimers.components {
            FallIntoPit(reg, c, deathMs);
          }
        }
      } else if |reg.deathTimers.entities| == 0 {
        PitSwallows(reg, c);
      }
    }

    /** A player that is not dying eats the soft shell it collided with. */
    method Eat(reg: Registry, c: Collision, lightUpMs: real)
      requires reg.Valid()
      modifies this, reg
      ensures reg.Valid()
      ensures GameOf(reg) == Eaten(old(GameOf(reg)), c, lightUpMs)
      ensures currentSpeed == old(currentSpeed) && playerSalmon == old(playerSalmon)
    {
      reg.RemoveAllComponentsOf(c.other);
      points := points + 1;
      reg.lightUpTimers := reg.lightUpTimers[c.entity := lightUpMs];
    }

    /** A player that is not dying falls into the vortex it collided with. */
    method FallIntoPit(reg: Registry, c: Collision, deathMs: real)
      requires reg.Valid() && c.entity in reg.players.components && c.entity !in reg.deathTimers.components
      requires c.other in reg.pits
      modifies this, reg
      ensures reg.Valid()
      ensures GameOf(reg) == Swirled(old(GameOf(reg)), c, deathMs)
      ensures currentSpeed == old(currentSpeed) && playerSalmon == old(playerSalmon)
    {
      var x := reg.motions.components[c.other].position.x;
      StartDeath(reg, c.entity, deathMs);
      playerDead := true;
      var m := reg.motions.components[c.entity];
      reg.motions := SetMotion(reg.motions, c.entity, m.(position := Vec2(x, m.position.y)));
    }

    /** An event of two non-players while nobody is dying: a vortex swallows its partner. */
    method PitSwallows(reg: Registry, c: Collision)
      requires reg.Valid()
      modifies reg
      ensures reg.Valid()
      ensures reg.Snapshot() == Swallowed(old(reg.Snapshot()), c)
    {
      ghost var s := reg.Snapshot();
      if c.entity in reg.pits {
        reg.RemoveAllComponentsOf(c.other);
      }
      assert reg.Snapshot() == if c.entity in s.pits then RemoveSet(s, {c.other}) else s;
      if c.other in reg.pits {
        reg.RemoveAllComponentsOf(c.entity);
      }
    }

    /**
     * `handle_collisions`: every event of the list, in order, then the list is
     * cleared.
     */
    method HandleCollisions(reg: Registry, deathMs: real, lightUpMs: real)
      requires reg.Valid()
      modifies this, reg
      ensures reg.Valid() && reg.collisions == []
      ensures var h := Handled(old(GameOf(reg)), old(reg.collisions), deathMs, lightUpMs);
              reg.Snapshot() == h.store.(collisions := []) && points == h.points && playerDead == h.playerDead
      ensures currentSpeed == old(currentSpeed) && playerSalmon == old(playerSalmon)
    {
      var events := reg.collisions;
      ghost var g0 := GameOf(reg);
      var i := 0;
      while i < |events|
        invariant 0 <= i <= |events|
        invariant reg.Valid()
        invariant GameOf(reg) == Handled(g0, events[..i], deathMs, lightUpMs)
        invariant currentSpeed == old(currentSpeed) && playerSalmon == old(playerSalmon)
      {
        HandleEvent(reg, events[i], deathMs, lightUpMs);
        assert events[..i + 1][..i] == events[..i];
        i := i + 1;
      }
      assert events[..i] == events;
      reg.collisions := [];
    }

    /**
     * `restart_game`, apart from creating the new salmon: the speed is reset
     * and every entity with a motion loses all its components, last first.
     */
    method RestartGame(reg: Registry)
      requires reg.Valid()
      modifies this, reg
      ensures reg.Valid() && currentSpeed == RestartSpeed
      ensures reg.Snapshot() == Restarted(old(reg.Snapshot()))
      ensures points == old(points) && playerDead == old(playerDead) && playerSalmon == old(playerSalmon)
    {
      currentSpeed := RestartSpeed;
      ghost var s0 := reg.Snapshot();
      ghost var removed: set<Entity> := {};
      RemoveSetEmpty(s0);
      while |reg.motions.entities| > 0
        invariant reg.Valid()
        invariant removed <= s0.motions.components.Keys
        invariant reg.Snapshot() == RemoveSet(s0, removed)
        modifies reg
        decreases |reg.motions.entities|
      {
        var e := RemoveLastMover(reg);
        RemoveSetTwice(s0, removed, {e});
        removed := removed + {e};
      }
      assert removed == s0.motions.components.Keys;
    }

    /** The death-timer loop of `step` on the registry; tells whether the game restarted. */
    method UpdateDeathTimers(reg: Registry, elapsed: real) returns (restarted: bool)
      requires reg.Valid()
      modifies this, reg
      ensures reg.Valid()
      ensures restarted == FirstExpired(old(reg.deathTimers.entities), old(reg.deathTimers.components), elapsed).Some?
      ensures reg.Snapshot() == DeathTimersStepped(old(reg.Snapshot()), elapsed)
      ensures currentSpeed == (if restarted then RestartSpeed else old(currentSpeed))
      ensures points == old(points) && playerDead == old(playerDead) && playerSalmon == old(playerSalmon)
    {
      var t', expired, minMs := CountDown(reg.deathTimers, elapsed);
      if expired.Some? {
        ExpireDeathTimer(reg, elapsed, t', expired.value);
        restarted := true;
      } else {
        KeepDeathTimers(reg, elapsed, t', minMs);
        restarted := false;
      }
    }

    /** A death timer expired: it is removed, the darkening reset, and the game restarted. */
    method ExpireDeathTimer(reg: Registry, elapsed: real, t': Container<real>, k: nat)
      requires reg.Valid() && k < |reg.deathTimers.entities|
      requires t' == CountedDown(reg.deathTimers, Elems(reg.deathTimers.entities[..k + 1]), elapsed)
      modifies this, reg
      ensures reg.Valid() && currentSpeed == RestartSpeed
      ensures reg.Snapshot() == DeathTimerExpired(old(reg.Snapshot()), elapsed, k)
      ensures points == old(points) && playerDead == old(playerDead) && playerSalmon == old(playerSalmon)
    {
      CountedDownIndexed(reg.deathTimers, Elems(reg.deathTimers.entities[..k + 1]), elapsed);
      WithoutIndexed(t', {t'.entities[k]});
      reg.deathTimers := Without(t', {t'.entities[k]});
      reg.darken := 0.0;
      RestartGame(reg);
    }

    /** No death timer expired: every counter is decremented and the screen darkened. */
    method KeepDeathTimers(reg: Registry, elapsed: real, t': Container<real>, minMs: real)
      requires reg.Valid()
      requires t' == CountedDown(reg.deathTimers, Elems(reg.deathTimers.entities), elapsed)
      requires minMs == MinCounter(reg.deathTimers.entities, reg.deathTimers.components, elapsed)
      modifies reg
      ensures reg.Valid()
      ensures reg.Snapshot() == DeathTimersCounted(old(reg.Snapshot()), elapsed)
    {
      CountedDownIndexed(reg.deathTimers, Elems(reg.deathTimers.entities), elapsed);
      reg.deathTimers := t';
      reg.darken := Darken(minMs);
    }

    /** The timers of `step`: death timers first, then, unless the game restarted, the light-up timers. */
    method UpdateTimers(reg: Registry, elapsed: real) returns (restarted: bool)
      requires reg.Valid()
      modifies this, reg
      ensures reg.Valid()
      ensures restarted == FirstExpired(old(reg.deathTimers.entities), old(reg.deathTimers.components), elapsed).Some?
      ensures reg.Snapshot() == TimersStepped(old(reg.Snapshot()), elapsed)
      ensures currentSpeed == (if restarted then RestartSpeed else old(currentSpeed))
      ensures points == old(points) && playerDead == old(playerDead) && playerSalmon == old(playerSalmon)
    {
      restarted := UpdateDeathTimers(reg, elapsed);
      if !restarted {
        var m := TickLightUps(reg.lightUpTimers, elapsed);
        reg.lightUpTimers := m;
      }
    }

    /**
     * The vortex rotation of `step`: outside basic mode every vortex turns by
     * half a radian, and back to zero once a full turn is reached.
     */
    method RotateVortices(reg: Registry)
      requires reg.Valid()
      modifies reg
      ensures reg.Valid()
      ensures reg.Snapshot() == VorticesSpun(old(reg.Snapshot()), playerSalmon)
    {
      if playerSalmon in reg.mode && !reg.mode[playerSalmon].basicMode {
        var c := SpinVortices(reg.motions.components, reg.pits);
        reg.motions := reg.motions.(components := c);
      }
    }

    /**
     * The key callback: R released restarts, D switches the debug view, shift
     * with `<` or `>` released changes the speed, which never goes below zero;
     * while the salmon is not dying the arrow keys move it, A switches to the
     * advanced mode at speed 3 and B to the basic mode at speed 1.
     */
    method OnKey(reg: Registry, dbg: Debugging, key: Key, action: Action, shift: bool, heading: Vec2)
      requires reg.Valid()
      modifies this, reg, dbg
      ensures reg.Valid()
      ensures reg.Snapshot() == KeyHandled(old(reg.Snapshot()), playerSalmon, key, action, heading)
      ensures currentSpeed == KeySpeed(old(currentSpeed), key, action, shift,
                                       playerSalmon in AfterRestartKey(old(reg.Snapshot()), key, action).deathTimers.components)
      ensures dbg.inDebugMode == (if key == KeyD then action != Release else old(dbg.inDebugMode))
      ensures dbg.inFreezeMode == old(dbg.inFreezeMode)
      ensures points == old(points) && playerDead == old(playerDead) && playerSalmon == old(playerSalmon)
    {
      RestartKey(reg, key, action);
      DebugKey(dbg, key, action);
      ChangeSpeed(key, action, shift);
      SalmonKey(reg, key, action, heading);
    }

    /** R released restarts the game. */
    method RestartKey(reg: Registry, key: Key, action: Action)
      requires reg.Valid()
      modifies this, reg
      ensures reg.Valid()
      ensures reg.Snapshot() == AfterRestartKey(old(reg.Snapshot()), key, action)
      ensures currentSpeed == (if action == Release && key == KeyR then RestartSpeed else old(currentSpeed))
      ensures points == old(points) && playerDead == old(playerDead) && playerSalmon == old(playerSalmon)
    {
      if action == Release && key == KeyR {
        RestartGame(reg);
      }
    }

    /** The keys that act only while the salmon is not dying. */
    method SalmonKey(reg: Registry, key: Key, action: Action, heading: Vec2)
      requires reg.Valid()
      modifies this, reg
      ensures reg.Valid()
      ensures reg.Snapshot() == (if playerSalmon in old(reg.deathTimers.components) then old(reg.Snapshot())
                                 else SalmonKeyed(old(reg.Snapshot()), playerSalmon, key, action, heading))
      ensures currentSpeed == (if playerSalmon in old(reg.deathTimers.components) then old(currentSpeed)
                               else if action == Press && key == KeyA then 3.0
                               else if action == Press && key == KeyB then 1.0
                               else old(currentSpeed))
      ensures points == old(points) && playerDead == old(playerDead) && playerSalmon == old(playerSalmon)
    {
      if playerSalmon !in reg.deathTimers.components {
        SteerSalmon(reg, key, action, heading);
        if action == Press && key == KeyA {
          currentSpeed := 3.0;
        }
        if action == Press && key == KeyB {
          currentSpeed := 1.0;
        }
      }
    }

    /** The `<` and `>` keys, and the clamp at zero. */
    method ChangeSpeed(key: Key, action: Action, shift: bool)
      modifies this
      ensures currentSpeed == SpeedChanged(old(currentSpeed), key, action, shift)
      ensures points == old(points) && playerDead == old(playerDead) && playerSalmon == old(playerSalmon)
    {
      if action == Release && shift && key == KeyComma {
        currentSpeed := currentSpeed - SpeedStep;
      }
      if action == Release && shift && key == KeyPeriod {
        currentSpeed := currentSpeed + SpeedStep;
      }
      if currentSpeed < 0.0 {
        currentSpeed := 0.0;
      }
    }

    /** The part of the key callback that needs a salmon that is not dying: movement and mode. */
    method SteerSalmon(reg: Registry, key: Key, action: Action, heading: Vec2)
      requires reg.Valid()
      modifies reg
      ensures reg.Valid()
      ensures reg.Snapshot() == SalmonKeyed(old(reg.Snapshot()), playerSalmon, key, action, heading)
    {
      MoveSalmon(reg, playerSalmon, key, action, heading);
      SetMode(reg, playerSalmon, key, action);
    }
  }

  /** The arrow keys move the salmon, when it has a motion. */
  method MoveSalmon(reg: Registry, salmon: Entity, key: Key, action: Action, heading: Vec2)
    requires reg.Valid()
    modifies reg
    ensures reg.Valid()
    ensures reg.Snapshot() == SalmonMoved(old(reg.Snapshot()), salmon, key, action, heading)
  {
    if salmon in reg.motions.components {
      var m := reg.motions.components[salmon];
      reg.motions := SetMotion(reg.motions, salmon, Moved(m, key, action, heading));
    }
  }

  /** The A and B keys switch the salmon's mode, when it has one. */
  method SetMode(reg: Registry, salmon: Entity, key: Key, action: Action)
    modifies reg
    ensures reg.Snapshot() == old(reg.Snapshot()).(mode := ModeKeyed(old(reg.mode), salmon, key, action))
  {
    if action == Press && key == KeyA && salmon in reg.mode {
      reg.mode := reg.mode[salmon := reg.mode[salmon].(basicMode := false)];
    }
    if action == Press && key == KeyB && salmon in reg.mode {
      reg.mode := reg.mode[salmon := reg.mode[salmon].(basicMode := true)];
    }
  }

  /** The D key shows the debug view while it is held. */
  method DebugKey(dbg: Debugging, key: Key, action: Action)
    modifies dbg
    ensures dbg.inDebugMode == (if key == KeyD then action != Release else old(dbg.inDebugMode))
    ensures dbg.inFreezeMode == old(dbg.inFreezeMode)
  {
    if key == KeyD {
      dbg.inDebugMode := action != Release;
    }
  }

  /** The vortex loop of `step`, on the motions: every vortex turns, and back to zero after a full turn. */
  method SpinVortices(c: map<Entity, Motion>, pits: set<Entity>) returns (r: map<Entity, Motion>)
    requires pits <= c.Keys
    ensures r == SpinPits(c, pits)
  {
    r := c;
    var todo := pits;
    assert SpinPits(c, {}) == c;
    while todo != {}
      invariant todo <= pits
      invariant r == SpinPits(c, pits - todo)
      decreases todo
    {
      var e :| e in todo;
      SpinPitsStep(c, pits - todo, e);
      var m := r[e];
      var angle := m.angle + VortexSpin;
      if angle >= TwoPi {
        angle := 0.0;
      }
      r := r[e := m.(angle := angle)];
      todo := todo - {e};
    }
    assert pits - todo == pits;
  }

  // ---------------------------------------------------------------------------
  // Restart

  /** The speed `restart_game` sets. */
  const RestartSpeed: real := 0.4

  /** The store after `restart_game` removed every entity with a motion. */
  function Restarted(s: Store): (r: Store)
    ensures r.motions.components == map[]
    ensures r.collisions == s.collisions && r.darken == s.darken
  {
    RemoveSet(s, s.motions.components.Keys)
  }

  /** The loop body of `restart_game`: the last entity with a motion loses all its components. */
  method RemoveLastMover(reg: Registry) returns (e: Entity)
    requires reg.Valid() && |reg.motions.entities| > 0
    modifies reg
    ensures reg.Valid() && e in old(reg.motions.components)
    ensures reg.Snapshot() == RemoveSet(old(reg.Snapshot()), {e})
    ensures |reg.motions.entities| < old(|reg.motions.entities|)
  {
    e := reg.motions.entities[|reg.motions.entities| - 1];
    FilterOutShrinks(reg.motions.entities, {e}, e);
    reg.RemoveAllComponentsOf(e);
  }

  /** After a restart nothing moves, and no player, fish, vortex or death timer of a player is left. */
  lemma RestartClears(s: Store)
    requires WellFormed(s)
    ensures WellFormed(Restarted(s))
    ensures Restarted(s).motions.components == map[] && Restarted(s).players.components == map[]
    ensures Restarted(s).softShells == map[] && Restarted(s).pits == {}
    ensures forall e :: e in s.players.components ==> e !in Restarted(s).deathTimers.components
  {
    RemoveSetWellFormed(s, s.motions.components.Keys);
  }

  /** Restarting twice is restarting once. */
  lemma RestartIdempotent(s: Store)
    ensures Restarted(Restarted(s)) == Restarted(s)
  {
    assert Restarted(s).motions.components.Keys == {};
    RemoveSetEmpty(Restarted(s));
  }

  // ---------------------------------------------------------------------------
  // Entities that left the screen

  /** An entity has left the screen on the left side. */
  function OffScreen(m: Motion): (r: bool)
    ensures r <==> m.position.x + m.scale.x < 0.0 && m.position.x - m.scale.x < 0.0
    ensures r ==> m.position.x < 0.0
  {
    m.position.x + AbsR(m.scale.x) < 0.0
  }

  /** The entities with a motion that have left the screen. */
  function OffScreenSet(s: Store): (r: set<Entity>)
    ensures r <= s.motions.components.Keys
    ensures forall e :: e in r ==> s.motions.components[e].position.x < 0.0
  {
    set e | e in s.motions.components && OffScreen(s.motions.components[e])
  }

  /** The off-screen entities among the motions from index `i` on. */
  ghost function OffScreenFrom(s: Store, i: nat): set<Entity>
    requires i <= |s.motions.entities|
  {
    OffScreenSet(s) * Elems(s.motions.entities[i..])
  }

  /**
   * The removal of off-screen entities in `step`: the motions are visited from
   * the last index down to the first, and every entity found off screen loses
   * all its components.
   */
  method RemoveOffScreen(reg: Registry)
    requires reg.Valid()
    modifies reg
    ensures reg.Valid()
    ensures reg.Snapshot() == RemoveSet(old(reg.Snapshot()), OffScreenSet(old(reg.Snapshot())))
  {
    ghost var s0 := reg.Snapshot();
    var i := |reg.motions.entities|;
    RemoveSetEmpty(s0);
    assert OffScreenFrom(s0, i) == {};
    while i > 0
      invariant 0 <= i <= |s0.motions.entities|
      invariant reg.Valid()
      invariant reg.Snapshot() == RemoveSet(s0, OffScreenFrom(s0, i))
    {
      i := i - 1;
      VisitOffScreen(reg, i, s0);
    }
    assert s0.motions.entities[0..] == s0.motions.entities;
    assert OffScreenFrom(s0, 0) == OffScreenSet(s0);
  }

  /** The loop body of `RemoveOffScreen`: the motion at index `i` is checked and, if off screen, removed. */
  method VisitOffScreen(reg: Registry, i: nat, ghost s0: Store)
    requires WellFormed(s0) && i < |s0.motions.entities|
    requires reg.Valid() && reg.Snapshot() == RemoveSet(s0, OffScreenFrom(s0, i + 1))
    modifies reg
    ensures reg.Valid() && reg.Snapshot() == RemoveSet(s0, OffScreenFrom(s0, i))
  {
    ghost var done := OffScreenFrom(s0, i + 1);
    OffScreenStep(s0, i);
    assert reg.motions.entities == FilterOut(s0.motions.entities, done);
    var e := reg.motions.entities[i];
    assert e !in done && reg.motions.components[e] == s0.motions.components[e];
    if OffScreen(reg.motions.components[e]) {
      reg.RemoveAllComponentsOf(e);
      RemoveSetTwice(s0, done, {e});
      assert OffScreenFrom(s0, i) == done + {e};
    } else {
      assert OffScreenFrom(s0, i) == done;
    }
  }

  /**
   * One more index visited: the motion at that index is still in place, and
   * its entity joins the removed set when off screen.
   */
  lemma OffScreenStep(s: Store, i: nat)
    requires WellFormed(s) && i < |s.motions.entities|
    ensures var q, e := s.motions.entities, s.motions.entities[i];
      && i < |FilterOut(q, OffScreenFrom(s, i + 1))| && FilterOut(q, OffScreenFrom(s, i + 1))[i] == e
      && OffScreenFrom(s, i) == OffScreenFrom(s, i + 1) + (if OffScreen(s.motions.components[e]) then {e} else {})
  {
    var q := s.motions.entities;
    assert q[i..] == [q[i]] + q[i + 1..];
    assert Elems(q[i..]) == {q[i]} + Elems(q[i + 1..]);
    forall j | 0 <= j <= i
      ensures q[j] !in Elems(q[i + 1..])
    {
    }
    FilterOutKeepsIndex(q, OffScreenFrom(s, i + 1), i);
  }

  /** After the removal no entity is off screen, so a second removal changes nothing. */
  lemma OffScreenRemovalIdempotent(s: Store)
    ensures OffScreenSet(RemoveSet(s, OffScreenSet(s))) == {}
  {
  }

  /** Exactly the entities on screen keep their motion. */
  lemma OffScreenRemovalExact(s: Store, e: Entity)
    requires e in s.motions.components
    ensures e in RemoveSet(s, OffScreenSet(s)).motions.components <==> !OffScreen(s.motions.components[e])
  {
  }

  // ---------------------------------------------------------------------------
  // Timers

  datatype Option<T> = None | Some(value: T)

  /** The value the darkening minimum starts from, and the length of the darkening. */
  const DarkenMs: real := 3000.0

  /** The index of the first death timer that goes below zero once decremented. */
  function FirstExpired(q: seq<Entity>, c: map<Entity, real>, elapsed: real): (r: Option<nat>)
    requires forall j :: 0 <= j < |q| ==> q[j] in c
    ensures r.Some? ==> r.value < |q| && c[q[r.value]] - elapsed < 0.0
    ensures forall j :: 0 <= j < |q| && (r.None? || j < r.value) ==> c[q[j]] - elapsed >= 0.0
  {
    if q == [] then None
    else if c[q[0]] - elapsed < 0.0 then Some(0)
    else match FirstExpired(q[1..], c, elapsed)
      case None => None
      case Some(k) => Some(k + 1)
  }

  function Min(a: real, b: real): real { if b < a then b else a }

  /** The darkening minimum: the smallest decremented counter, and at most 3000. */
  function MinCounter(q: seq<Entity>, c: map<Entity, real>, elapsed: real): (r: real)
    requires forall j :: 0 <= j < |q| ==> q[j] in c
    ensures r <= DarkenMs && forall j :: 0 <= j < |q| ==> r <= c[q[j]] - elapsed
    ensures r == DarkenMs || exists j :: 0 <= j < |q| && r == c[q[j]] - elapsed
  {
    if q == [] then DarkenMs
    else
      var p := q[..|q| - 1];
      assert forall j :: 0 <= j < |p| ==> p[j] == q[j];
      Min(MinCounter(p, c, elapsed), c[q[|q| - 1]] - elapsed)
  }

  /** The death timers with the counters of the entities of `done` decremented. */
  function CountedDown(t: Container<real>, done: set<Entity>, elapsed: real): Container<real> {
    t.(components := map e | e in t.components :: if e in done then Tick(t.components[e], elapsed) else t.components[e])
  }

  /** A counter after `elapsed` milliseconds. */
  function Tick(counter: real, elapsed: real): real { counter - elapsed }

  /** Counting down keeps the container's entities, order and keys. */
  lemma CountedDownIndexed(t: Container<real>, done: set<Entity>, elapsed: real)
    requires Indexed(t)
    ensures Indexed(CountedDown(t, done, elapsed))
    ensures CountedDown(t, done, elapsed).entities == t.entities
  {
    assert CountedDown(t, done, elapsed).components.Keys == t.components.Keys;
  }

  /** The screen darkening while no death timer expired. */
  function Darken(minMs: real): real { 1.0 - minMs / DarkenMs }

  /** While no timer expired, the darkening lies between 0 and 1. */
  lemma DarkenInRange(q: seq<Entity>, c: map<Entity, real>, elapsed: real)
    requires forall j :: 0 <= j < |q| ==> q[j] in c
    requires FirstExpired(q, c, elapsed).None?
    ensures 0.0 <= Darken(MinCounter(q, c, elapsed)) <= 1.0
  {
    if q != [] {
      assert 0.0 <= c[q[0]] - elapsed;
    }
  }

  /** Without death timers the screen is not darkened. */
  lemma NoTimersNoDarkening(c: map<Entity, real>, elapsed: real)
    ensures Darken(MinCounter([], c, elapsed)) == 0.0
  {
  }

  /**
   * The death-timer loop of `step`, on the container's value: counters are
   * decremented in order until one goes below zero.
   */
  method CountDown(t: Container<real>, elapsed: real) returns (t': Container<real>, expired: Option<nat>, minMs: real)
    requires Indexed(t)
    ensures CountedDownTo(t, elapsed, t', expired, minMs)
  {
    t', expired, minMs := t, None, DarkenMs;
    var i := 0;
    CountingDownStart(t, elapsed);
    while i < |t.entities|
      invariant CountingDown(t, elapsed, i, t', minMs)
      decreases |t.entities| - i
    {
      var stop;
      t', minMs, stop := CountDownOne(t, elapsed, i, t', minMs);
      if stop {
        expired := Some(i);
        return;
      }
      i := i + 1;
    }
    CountingDownDone(t, elapsed, t', minMs);
  }

  /** One round of the death-timer loop: decrement the `i`-th counter, lower the minimum, stop when it expired. */
  method CountDownOne(t: Container<real>, elapsed: real, i: nat, t': Container<real>, minMs: real)
    returns (t2: Container<real>, min2: real, stop: bool)
    requires Indexed(t) && CountingDown(t, elapsed, i, t', minMs) && i < |t.entities|
    ensures stop ==> FirstExpired(t.entities, t.components, elapsed) == Some(i)
                     && t2 == CountedDown(t, Elems(t.entities[..i + 1]), elapsed)
    ensures !stop ==> CountingDown(t, elapsed, i + 1, t2, min2)
  {
    var e := t.entities[i];
    CountingDownStep(t, elapsed, i, t', minMs);
    var v := Tick(t'.components[e], elapsed);
    t2 := t'.(components := t'.components[e := v]);
    min2 := minMs;
    if v < min2 {
      min2 := v;
    }
    stop := v < 0.0;
  }

  /** What the death-timer loop leaves: the first expired timer, the counters decremented up to it, the minimum. */
  predicate CountedDownTo(t: Container<real>, elapsed: real, t': Container<real>, expired: Option<nat>, minMs: real)
    requires Indexed(t)
  {
    && expired == FirstExpired(t.entities, t.components, elapsed)
    && (expired.Some? ==> t' == CountedDown(t, Elems(t.entities[..expired.value + 1]), elapsed))
    && (expired.None? ==> t' == CountedDown(t, Elems(t.entities), elapsed)
                          && minMs == MinCounter(t.entities, t.components, elapsed))
  }

  /** The invariant of the death-timer loop after the first `i` timers. */
  predicate CountingDown(t: Container<real>, elapsed: real, i: nat, t': Container<real>, minMs: real)
    requires Indexed(t)
  {
    && i <= |t.entities|
    && t' == CountedDown(t, Elems(t.entities[..i]), elapsed)
    && minMs == MinCounter(t.entities[..i], t.components, elapsed)
    && forall j :: 0 <= j < i ==> t.components[t.entities[j]] - elapsed >= 0.0
  }

  lemma CountingDownStart(t: Container<real>, elapsed: real)
    requires Indexed(t)
    ensures CountingDown(t, elapsed, 0, t, DarkenMs)
  {
    assert t.entities[..0] == [];
    assert CountedDown(t, {}, elapsed) == t;
  }

  /** One round of the death-timer loop: the loop either stops at the first expired timer or goes on. */
  lemma CountingDownStep(t: Container<real>, elapsed: real, i: nat, t': Container<real>, minMs: real)
    requires Indexed(t) && CountingDown(t, elapsed, i, t', minMs) && i < |t.entities|
    ensures t.entities[i] in t'.components && t'.components[t.entities[i]] == t.components[t.entities[i]]
    ensures var e := t.entities[i];
      var v := Tick(t'.components[e], elapsed);
      var t2 := t'.(components := t'.components[e := v]);
      && (v < 0.0 ==> FirstExpired(t.entities, t.components, elapsed) == Some(i)
                      && t2 == CountedDown(t, Elems(t.entities[..i + 1]), elapsed))
      && (v >= 0.0 ==> CountingDown(t, elapsed, i + 1, t2, if v < minMs then v else minMs))
  {
    var e := t.entities[i];
    CountedDownNext(t, elapsed, i, t');
    MinCounterStep(t.entities, t.components, elapsed, i);
    if t.components[e] - elapsed < 0.0 {
      FirstExpiredAt(t.entities, t.components, elapsed, i);
    }
  }

  /** The counters decremented up to index `i`, and one more. */
  lemma CountedDownNext(t: Container<real>, elapsed: real, i: nat, t': Container<real>)
    requires Indexed(t) && i < |t.entities| && t' == CountedDown(t, Elems(t.entities[..i]), elapsed)
    ensures t.entities[i] in t'.components && t'.components[t.entities[i]] == t.components[t.entities[i]]
    ensures var e := t.entities[i];
      t'.(components := t'.components[e := Tick(t.components[e], elapsed)])
      == CountedDown(t, Elems(t.entities[..i + 1]), elapsed)
  {
    var e := t.entities[i];
    PrefixStep(t.entities, i);
    assert e in t.components;
    CountedDownStep(t, Elems(t.entities[..i]), e, elapsed);
  }

  /** The loop ran through: no timer expired and all were decremented. */
  lemma CountingDownDone(t: Container<real>, elapsed: real, t': Container<real>, minMs: real)
    requires Indexed(t) && CountingDown(t, elapsed, |t.entities|, t', minMs)
    ensures FirstExpired(t.entities, t.components, elapsed) == None
    ensures t' == CountedDown(t, Elems(t.entities), elapsed)
    ensures minMs == MinCounter(t.entities, t.components, elapsed)
  {
    assert t.entities[..|t.entities|] == t.entities;
    FirstExpiredNone(t.entities, t.components, elapsed);
  }

  /** Decrementing one more counter. */
  lemma CountedDownStep(t: Container<real>, done: set<Entity>, e: Entity, elapsed: real)
    requires e in t.components && e !in done
    ensures CountedDown(t, done, elapsed).components[e] == t.components[e]
    ensures CountedDown(t, done + {e}, elapsed)
         == var p := CountedDown(t, done, elapsed); p.(components := p.components[e := Tick(t.components[e], elapsed)])
  {
  }

  /** Taking one more counter into the minimum. */
  lemma MinCounterStep(q: seq<Entity>, c: map<Entity, real>, elapsed: real, i: nat)
    requires forall j :: 0 <= j < |q| ==> q[j] in c
    requires i < |q|
    ensures MinCounter(q[..i + 1], c, elapsed) == Min(MinCounter(q[..i], c, elapsed), c[q[i]] - elapsed)
  {
    assert q[..i + 1][..i] == q[..i];
  }

  /** The first timer below zero is the one the loop stops at. */
  lemma {:induction false} FirstExpiredAt(q: seq<Entity>, c: map<Entity, real>, elapsed: real, i: nat)
    requires forall j :: 0 <= j < |q| ==> q[j] in c
    requires i < |q| && c[q[i]] - elapsed < 0.0 && forall j :: 0 <= j < i ==> c[q[j]] - elapsed >= 0.0
    ensures FirstExpired(q, c, elapsed) == Some(i)
  {
    if i > 0 {
      FirstExpiredAt(q[1..], c, elapsed, i - 1);
    }
  }

  /** No timer below zero: none expired. */
  lemma {:induction false} FirstExpiredNone(q: seq<Entity>, c: map<Entity, real>, elapsed: real)
    requires forall j :: 0 <= j < |q| ==> q[j] in c && c[q[j]] - elapsed >= 0.0
    ensures FirstExpired(q, c, elapsed) == None
  {
    if q != [] {
      FirstExpiredNone(q[1..], c, elapsed);
    }
  }

  /**
   * The death-timer part of `step` on the store: the first timer that expires
   * leaves its container, the darkening is reset and the game restarts; when
   * none expires every counter is decremented and the screen darkens by the
   * smallest one.
   */
  function DeathTimersStepped(s: Store, elapsed: real): (r: Store)
    requires Indexed(s.deathTimers)
    ensures FirstExpired(s.deathTimers.entities, s.deathTimers.components, elapsed).Some? ==>
      r.motions.components == map[] && r.darken == 0.0
    ensures FirstExpired(s.deathTimers.entities, s.deathTimers.components, elapsed).None? ==>
      r.(deathTimers := s.deathTimers, darken := s.darken) == s
      && r.deathTimers.entities == s.deathTimers.entities
      && r.deathTimers.components.Keys == s.deathTimers.components.Keys
    ensures r.collisions == s.collisions
  {
    var t := s.deathTimers;
    match FirstExpired(t.entities, t.components, elapsed)
    case Some(k) => DeathTimerExpired(s, elapsed, k)
    case None => DeathTimersCounted(s, elapsed)
  }

  /** The store after the `k`-th death timer expired. */
  function DeathTimerExpired(s: Store, elapsed: real, k: nat): Store
    requires k < |s.deathTimers.entities|
  {
    var t := s.deathTimers;
    Restarted(s.(deathTimers := Without(CountedDown(t, Elems(t.entities[..k + 1]), elapsed), {t.entities[k]}),
                 darken := 0.0))
  }

  /** The store after every death timer counted down without expiring. */
  function DeathTimersCounted(s: Store, elapsed: real): Store
    requires Indexed(s.deathTimers)
  {
    var t := s.deathTimers;
    s.(deathTimers := CountedDown(t, Elems(t.entities), elapsed),
       darken := Darken(MinCounter(t.entities, t.components, elapsed)))
  }

  /** A death timer expires exactly when some counter drops below zero. */
  lemma DeathTimerExpiresIff(t: Container<real>, elapsed: real)
    requires Indexed(t)
    ensures FirstExpired(t.entities, t.components, elapsed).Some?
        <==> exists e :: e in t.components && t.components[e] - elapsed < 0.0
  {
    if e :| e in t.components && t.components[e] - elapsed < 0.0 {
      assert e in Elems(t.entities);
      var j :| 0 <= j < |t.entities| && t.entities[j] == e;
    }
  }

  /** An expiring timer restarts the game: nothing moves any more and the screen is not darkened. */
  lemma DeathTimerExpiryRestarts(s: Store, elapsed: real)
    requires WellFormed(s)
    requires FirstExpired(s.deathTimers.entities, s.deathTimers.components, elapsed).Some?
    ensures var r := DeathTimersStepped(s, elapsed);
      && WellFormed(r) && r.motions.components == map[] && r.players.components == map[] && r.darken == 0.0
      && s.deathTimers.entities[FirstExpired(s.deathTimers.entities, s.deathTimers.components, elapsed).value]
         !in r.deathTimers.components
  {
    var t := s.deathTimers;
    var k := FirstExpired(t.entities, t.components, elapsed).value;
    var s1 := s.(deathTimers := Without(CountedDown(t, Elems(t.entities[..k + 1]), elapsed), {t.entities[k]}),
                 darken := 0.0);
    CountedDownIndexed(t, Elems(t.entities[..k + 1]), elapsed);
    WithoutIndexed(CountedDown(t, Elems(t.entities[..k + 1]), elapsed), {t.entities[k]});
    RestartClears(s1);
  }

  /**
   * While no timer expires, every counter is decremented by the elapsed time
   * and stays non-negative, nothing else but the darkening changes, and the
   * darkening lies between 0 and 1.
   */
  lemma DeathTimersTick(s: Store, elapsed: real)
    requires WellFormed(s)
    requires FirstExpired(s.deathTimers.entities, s.deathTimers.components, elapsed).None?
    ensures var r := DeathTimersStepped(s, elapsed);
      && WellFormed(r) && r.deathTimers.entities == s.deathTimers.entities
      && r.deathTimers.components.Keys == s.deathTimers.components.Keys
      && (forall e :: e in r.deathTimers.components ==>
            r.deathTimers.components[e] == s.deathTimers.components[e] - elapsed
            && r.deathTimers.components[e] >= 0.0)
      && 0.0 <= r.darken <= 1.0
      && r.(deathTimers := s.deathTimers, darken := s.darken) == s
  {
    var t := s.deathTimers;
    CountedDownIndexed(t, Elems(t.entities), elapsed);
    DarkenInRange(t.entities, t.components, elapsed);
    forall e | e in t.components
      ensures t.components[e] - elapsed >= 0.0
    {
      assert e in Elems(t.entities);
      var j :| 0 <= j < |t.entities| && t.entities[j] == e;
    }
  }

  /** The light-up timers after `elapsed` milliseconds: those whose counter went below zero are gone. */
  function LightUpTicked(m: map<Entity, real>, elapsed: real): (r: map<Entity, real>)
    ensures forall e :: e in r <==> e in m && m[e] - elapsed >= 0.0
    ensures forall e :: e in r ==> r[e] == m[e] - elapsed
  {
    map e | e in m && Tick(m[e], elapsed) >= 0.0 :: Tick(m[e], elapsed)
  }

  /** The light-up timers with those of `done` already visited. */
  function LightUpPartly(m: map<Entity, real>, done: set<Entity>, elapsed: real): map<Entity, real> {
    map e | e in m && (e in done ==> Tick(m[e], elapsed) >= 0.0) :: if e in done then Tick(m[e], elapsed) else m[e]
  }

  /** The light-up loop of `step`: each counter is decremented and removed when it went below zero. */
  method TickLightUps(m: map<Entity, real>, elapsed: real) returns (r: map<Entity, real>)
    ensures r == LightUpTicked(m, elapsed)
  {
    r := m;
    var todo := m.Keys;
    assert LightUpPartly(m, {}, elapsed) == m;
    while todo != {}
      invariant todo <= m.Keys
      invariant r == LightUpPartly(m, m.Keys - todo, elapsed)
      decreases todo
    {
      var e :| e in todo;
      LightUpStep(m, m.Keys - todo, e, elapsed);
      var v := Tick(r[e], elapsed);
      if v < 0.0 {
        r := r - {e};
      } else {
        r := r[e := v];
      }
      todo := todo - {e};
    }
    assert LightUpPartly(m, m.Keys, elapsed) == LightUpTicked(m, elapsed);
  }

  /** Visiting one more light-up timer. */
  lemma LightUpStep(m: map<Entity, real>, done: set<Entity>, e: Entity, elapsed: real)
    requires e in m && e !in done
    ensures e in LightUpPartly(m, done, elapsed) && LightUpPartly(m, done, elapsed)[e] == m[e]
    ensures LightUpPartly(m, done + {e}, elapsed)
         == var p := LightUpPartly(m, done, elapsed);
            if Tick(m[e], elapsed) < 0.0 then p - {e} else p[e := Tick(m[e], elapsed)]
  {
  }

  /** Two frames of light-up countdown are one frame of their summed duration. */
  lemma LightUpTickedTwice(m: map<Entity, real>, a: real, b: real)
    requires a >= 0.0 && b >= 0.0
    ensures LightUpTicked(LightUpTicked(m, a), b) == LightUpTicked(m, a + b)
  {
  }

  /** The timer part of `step`: the light-up timers only count down when the game did not restart. */
  function TimersStepped(s: Store, elapsed: real): (r: Store)
    requires Indexed(s.deathTimers)
    ensures FirstExpired(s.deathTimers.entities, s.deathTimers.components, elapsed).Some? ==>
      r.motions.components == map[] && r.darken == 0.0
    ensures FirstExpired(s.deathTimers.entities, s.deathTimers.components, elapsed).None? ==>
      r.lightUpTimers == LightUpTicked(s.lightUpTimers, elapsed)
      && r.(deathTimers := s.deathTimers, darken := s.darken, lightUpTimers := s.lightUpTimers) == s
  {
    var s1 := DeathTimersStepped(s, elapsed);
    if FirstExpired(s.deathTimers.entities, s.deathTimers.components, elapsed).Some? then s1
    else s1.(lightUpTimers := LightUpTicked(s1.lightUpTimers, elapsed))
  }

  // ---------------------------------------------------------------------------
  // Vortex rotation

  /** `2 * M_PI` as a double. */
  const TwoPi: real := 6.283185307179586

  /** The turn a vortex makes per frame, in radians. */
  const VortexSpin: real := 0.5

  /** A vortex angle one frame later. */
  function Spun(angle: real): (r: real)
    ensures r == 0.0 || r == angle + VortexSpin
    ensures 0.0 <= angle < TwoPi ==> 0.0 <= r < TwoPi
  {
    if angle + VortexSpin >= TwoPi then 0.0 else angle + VortexSpin
  }

  /** The motions with the vortices of `done` turned. */
  function SpinPits(c: map<Entity, Motion>, done: set<Entity>): (r: map<Entity, Motion>)
    ensures r.Keys == c.Keys
    ensures forall e :: e in c && e !in done ==> r[e] == c[e]
    ensures forall e :: e in c ==> r[e].(angle := c[e].angle) == c[e]
  {
    map e | e in c :: if e in done then c[e].(angle := Spun(c[e].angle)) else c[e]
  }

  /** The vortex part of `step` on the store: only outside basic mode do the vortices turn. */
  function VorticesSpun(s: Store, salmon: Entity): (r: Store)
    ensures r.(motions := s.motions) == s
    ensures r.motions.entities == s.motions.entities && r.motions.components.Keys == s.motions.components.Keys
    ensures forall e :: e in s.motions.components && e !in s.pits ==> r.motions.components[e] == s.motions.components[e]
    ensures !(salmon in s.mode && !s.mode[salmon].basicMode) ==> r == s
  {
    if salmon in s.mode && !s.mode[salmon].basicMode
    then s.(motions := s.motions.(components := SpinPits(s.motions.components, s.pits)))
    else s
  }

  /** Turning one more vortex. */
  lemma SpinPitsStep(c: map<Entity, Motion>, done: set<Entity>, e: Entity)
    requires e in c && e !in done
    ensures e in SpinPits(c, done) && SpinPits(c, done)[e] == c[e]
    ensures SpinPits(c, done + {e}) == SpinPits(c, done)[e := c[e].(angle := Spun(c[e].angle))]
  {
  }

  /** The angle of a vortex that started at rest, after `n` frames. */
  function SpunTimes(angle: real, n: nat): real {
    if n == 0 then angle else Spun(SpunTimes(angle, n - 1))
  }

  /** A vortex that starts at rest runs through 13 angles, 0, 0.5, ..., 6, and starts over. */
  lemma {:induction false} SpinCycle(n: nat)
    ensures SpunTimes(0.0, n) == VortexSpin * ((n % 13) as real)
  {
    if n > 0 {
      SpinCycle(n - 1);
      CycleStep(n);
    }
  }

  /** The phase of a 13-frame cycle one frame later. */
  lemma CycleStep(n: nat)
    requires n > 0
    ensures n % 13 == if (n - 1) % 13 == 12 then 0 else (n - 1) % 13 + 1
  {
    var q, k := (n - 1) / 13, (n - 1) % 13;
    assert n == 13 * q + k + 1;
    if k == 12 {
      assert n == 13 * (q + 1);
    }
  }

  /**
   * Outside basic mode every vortex turns and nothing else changes; vortices
   * whose angles lay within one turn stay within one turn.
   */
  lemma VortexRotation(s: Store, salmon: Entity)
    requires WellFormed(s) && salmon in s.mode && !s.mode[salmon].basicMode
    requires forall e :: e in s.pits ==> 0.0 <= s.motions.components[e].angle < TwoPi
    ensures var r := VorticesSpun(s, salmon);
      && WellFormed(r)
      && (forall e :: e in s.pits ==> 0.0 <= r.motions.components[e].angle < TwoPi
                                      && r.motions.components[e] == s.motions.components[e].(angle := Spun(s.motions.components[e].angle)))
      && (forall e :: e in s.motions.components && e !in s.pits ==> r.motions.components[e] == s.motions.components[e])
      && r.(motions := s.motions) == s
  {
  }

  /** In basic mode, or without a mode, no vortex turns. */
  lemma BasicModeStill(s: Store, salmon: Entity)
    requires salmon !in s.mode || s.mode[salmon].basicMode
    ensures VorticesSpun(s, salmon) == s
  {
  }

  // ---------------------------------------------------------------------------
  // Keys

  /** The keys the callback reacts to; every other key is `OtherKey`. */
  datatype Key = KeyR | KeyD | KeyComma | KeyPeriod | KeyA | KeyB | KeyLeft | KeyRight | KeyUp | KeyDown | OtherKey

  datatype Action = Press | Release | Repeat

  /** The speed change of one `<` or `>`. */
  const SpeedStep: real := 0.1

  /** The step an arrow key moves the salmon by. */
  const ArrowStep: real := 10.0

  /** The store once an R release has restarted the game. */
  function AfterRestartKey(s: Store, key: Key, action: Action): Store {
    if action == Release && key == KeyR then Restarted(s) else s
  }

  /**
   * The speed after a key event: a restart resets it, `<` and `>` change it,
   * it is clamped at zero, and while the salmon is not dying A and B set it.
   */
  function KeySpeed(speed: real, key: Key, action: Action, shift: bool, dying: bool): (r: real)
    ensures r >= 0.0
    ensures !dying && action == Press && key == KeyA ==> r == 3.0
    ensures !dying && action == Press && key == KeyB ==> r == 1.0
    ensures action == Release && key == KeyR ==> r == RestartSpeed
  {
    var s := SpeedChanged(if action == Release && key == KeyR then RestartSpeed else speed, key, action, shift);
    if !dying && action == Press && key == KeyA then 3.0
    else if !dying && action == Press && key == KeyB then 1.0
    else s
  }

  /** The speed after `<` or `>` is released with shift held, never below zero. */
  function SpeedChanged(speed: real, key: Key, action: Action, shift: bool): (r: real)
    ensures r >= 0.0
    ensures speed >= 0.0 && !(action == Release && shift && (key == KeyComma || key == KeyPeriod)) ==> r == speed
  {
    var s := if action == Release && shift && key == KeyComma then speed - SpeedStep
             else if action == Release && shift && key == KeyPeriod then speed + SpeedStep
             else speed;
    if s < 0.0 then 0.0 else s
  }

  /**
   * The salmon's motion after a key event: left and right move it by ten
   * along x, up and down by ten along its heading `(cos angle, sin angle)`.
   */
  function Moved(m: Motion, key: Key, action: Action, heading: Vec2): (r: Motion)
    ensures r.angle == m.angle && r.scale == m.scale
    ensures action == Release || key !in {KeyLeft, KeyRight, KeyUp, KeyDown} ==> r == m
    ensures action != Release && key in {KeyLeft, KeyRight} ==>
      r.position.y == m.position.y && r.velocity.y == m.velocity.y && r.velocity.x == ArrowStep
    ensures action != Release && key in {KeyUp, KeyDown} ==>
      r.position == Add(m.position, r.velocity)
  {
    if action == Release then m
    else match key
      case KeyLeft => m.(velocity := m.velocity.(x := ArrowStep), position := m.position.(x := m.position.x - ArrowStep))
      case KeyRight => m.(velocity := m.velocity.(x := ArrowStep), position := m.position.(x := m.position.x + ArrowStep))
      case KeyUp => var v := Scale(ArrowStep, heading); m.(velocity := v, position := Add(m.position, v))
      case KeyDown => var v := Scale(ArrowStep, heading); m.(velocity := v, position := Add(m.position, v))
      case _ => m
  }

  /** The mode after a key event: A pressed leaves basic mode, B pressed enters it. */
  function ModeKeyed(mode: map<Entity, Mode>, salmon: Entity, key: Key, action: Action): (r: map<Entity, Mode>)
    ensures r.Keys == mode.Keys
    ensures forall e :: e in mode && e != salmon ==> r[e] == mode[e]
    ensures salmon in mode && action == Press && key == KeyA ==> !r[salmon].basicMode
    ensures salmon in mode && action == Press && key == KeyB ==> r[salmon].basicMode
    ensures !(action == Press && key in {KeyA, KeyB}) ==> r == mode
  {
    if salmon in mode && action == Press && key == KeyA then mode[salmon := mode[salmon].(basicMode := false)]
    else if salmon in mode && action == Press && key == KeyB then mode[salmon := mode[salmon].(basicMode := true)]
    else mode
  }

  /** The store after a key event. */
  function KeyHandled(s: Store, salmon: Entity, key: Key, action: Action, heading: Vec2): (r: Store)
    ensures r.collisions == s.collisions
    ensures action == Release && key == KeyR ==> r.motions.components == map[]
    ensures salmon in s.deathTimers.components && !(action == Release && key == KeyR) ==> r == s
  {
    var s1 := AfterRestartKey(s, key, action);
    if salmon in s1.deathTimers.components then s1 else SalmonKeyed(s1, salmon, key, action, heading)
  }

  /** The salmon's motion and mode after a key event, for a salmon that is not dying. */
  function SalmonKeyed(s: Store, salmon: Entity, key: Key, action: Action, heading: Vec2): (r: Store)
    ensures r.(motions := s.motions, mode := s.mode) == s
    ensures r.motions.entities == s.motions.entities && r.motions.components.Keys == s.motions.components.Keys
    ensures r.mode.Keys == s.mode.Keys
  {
    var s1 := SalmonMoved(s, salmon, key, action, heading);
    s1.(mode := ModeKeyed(s1.mode, salmon, key, action))
  }

  /** The store with the salmon moved by a key event. */
  function SalmonMoved(s: Store, salmon: Entity, key: Key, action: Action, heading: Vec2): (r: Store)
    ensures r.(motions := s.motions) == s
    ensures r.motions.entities == s.motions.entities && r.motions.components.Keys == s.motions.components.Keys
    ensures forall e :: e in s.motions.components && e != salmon ==> r.motions.components[e] == s.motions.components[e]
  {
    if salmon in s.motions.components
    then s.(motions := SetMotion(s.motions, salmon, Moved(s.motions.components[salmon], key, action, heading)))
    else s
  }

  /** `>` then `<` restores a speed that was not negative; `<` then `>` one of at least 0.1. */
  lemma SpeedKeysCancel(speed: real)
    ensures speed >= 0.0 ==>
      SpeedChanged(SpeedChanged(speed, KeyPeriod, Release, true), KeyComma, Release, true) == speed
    ensures speed >= SpeedStep ==>
      SpeedChanged(SpeedChanged(speed, KeyComma, Release, true), KeyPeriod, Release, true) == speed
    ensures 0.0 <= speed < SpeedStep ==>
      SpeedChanged(SpeedChanged(speed, KeyComma, Release, true), KeyPeriod, Release, true) == SpeedStep
  {
  }

  /** Left then right brings the salmon back to where it was. */
  lemma LeftRightCancel(m: Motion, action: Action, heading: Vec2)
    ensures Moved(Moved(m, KeyLeft, action, heading), KeyRight, action, heading).position == m.position
  {
  }

  /** A dying salmon neither moves nor changes mode, whatever key but a restart. */
  lemma DyingSalmonIgnoresKeys(s: Store, salmon: Entity, key: Key, action: Action, heading: Vec2)
    requires salmon in s.deathTimers.components && !(action == Release && key == KeyR)
    ensures KeyHandled(s, salmon, key, action, heading) == s
  {
  }

  /**
   * Pressing A while the salmon lives makes the vortices turn from the next
   * frame on; pressing B stops them.
   */
  lemma ModeKeysDriveVortices(s: Store, salmon: Entity, heading: Vec2)
    requires salmon !in s.deathTimers.components && salmon in s.mode
    ensures var r := KeyHandled(s, salmon, KeyA, Press, heading);
      VorticesSpun(r, salmon) == r.(motions := r.motions.(components := SpinPits(r.motions.components, r.pits)))
    ensures var r := KeyHandled(s, salmon, KeyB, Press, heading);
      VorticesSpun(r, salmon) == r
  {
  }

  /** A key event keeps the store well formed. */
  lemma KeyHandledWellFormed(s: Store, salmon: Entity, key: Key, action: Action, heading: Vec2)
    requires WellFormed(s)
    ensures WellFormed(KeyHandled(s, salmon, key, action, heading))
  {
    var s1 := AfterRestartKey(s, key, action);
    if action == Release && key == KeyR {
      RestartClears(s);
    }
    assert WellFormed(s1);
    if salmon !in s1.deathTimers.components {
      SalmonKeyedWellFormed(s1, salmon, key, action, heading);
    }
  }

  lemma SalmonKeyedWellFormed(s: Store, salmon: Entity, key: Key, action: Action, heading: Vec2)
    requires WellFormed(s)
    ensures WellFormed(SalmonKeyed(s, salmon, key, action, heading))
  {
    SalmonMovedFrame(s, salmon, key, action, heading);
  }

  /** A key event for a living salmon changes no motion or mode but the salmon's, and nothing else. */
  lemma SalmonKeyedFrame(s: Store, salmon: Entity, key: Key, action: Action, heading: Vec2)
    requires WellFormed(s)
    ensures var r := SalmonKeyed(s, salmon, key, action, heading);
      && r.(motions := s.motions, mode := s.mode) == s
      && r.motions.entities == s.motions.entities && r.motions.components.Keys == s.motions.components.Keys
      && (forall e :: e in s.motions.components && e != salmon ==> r.motions.components[e] == s.motions.components[e])
      && r.mode.Keys == s.mode.Keys
      && (forall e :: e in s.mode && e != salmon ==> r.mode[e] == s.mode[e])
  {
    SalmonMovedFrame(s, salmon, key, action, heading);
  }

  /** Moving the salmon keeps the store well formed and changes no other motion. */
  lemma SalmonMovedFrame(s: Store, salmon: Entity, key: Key, action: Action, heading: Vec2)
    requires WellFormed(s)
    ensures var r := SalmonMoved(s, salmon, key, action, heading);
      && WellFormed(r) && r.(motions := s.motions) == s
      && r.motions.entities == s.motions.entities && r.motions.components.Keys == s.motions.components.Keys
      && (forall e :: e in s.motions.components && e != salmon ==> r.motions.components[e] == s.motions.components[e])
  {
    if salmon in s.motions.components {
      MotionReplaced(s, salmon, Moved(s.motions.components[salmon], key, action, heading));
    }
  }

  /** A new motion for an entity that has one keeps the store well formed. */
  lemma MotionReplaced(s: Store, e: Entity, m: Motion)
    requires WellFormed(s) && e in s.motions.components
    ensures WellFormed(s.(motions := SetMotion(s.motions, e, m)))
  {
    assert Indexed(SetMotion(s.motions, e, m));
  }
}
