// The global ECS registry the three systems share, as an object whose
// containers the systems update in place, and the global debugging flags.

module Ecs {
  import opened Components

  /** The component containers of the registry. */
  class Registry {
    var motions: Container<Motion>
    var players: Container<Player>
    var softShells: map<Entity, SoftShell>
    var hardShells: set<Entity>
    var pits: set<Entity>
    var deathTimers: Container<real>
    var lightUpTimers: map<Entity, real>
    var colors: map<Entity, Color>
    var mode: map<Entity, Mode>
    /** The collision events, with the duplicates the physics step inserts. */
    var collisions: seq<Collision>
    /** The screen state's darken factor. */
    var darken: real

    /** The current contents of every container, as a value. */
    function Snapshot(): Store
      reads this
    {
      Store(motions, players, softShells, hardShells, pits, deathTimers,
            lightUpTimers, colors, mode, collisions, darken)
    }

    predicate Valid()
      reads this
    {
      WellFormed(Snapshot())
    }

    /** An empty registry. */
    constructor ()
      ensures Valid()
      ensures Snapshot() == Store(Container([], map[]), Container([], map[]), map[], {}, {},
                                  Container([], map[]), map[], map[], map[], [], 0.0)
    {
      motions := Container([], map[]);
      players := Container([], map[]);
      softShells, hardShells, pits := map[], {}, {};
      deathTimers := Container([], map[]);
      lightUpTimers, colors, mode := map[], map[], map[];
      collisions, darken := [], 0.0;
    }

    /** `remove_all_components_of(e)`: `e` leaves every container. */
    method RemoveAllComponentsOf(e: Entity)
      requires Valid()
      modifies this
      ensures Valid()
      ensures Snapshot() == RemoveSet(old(Snapshot()), {e})
    {
      RemoveSetWellFormed(Snapshot(), {e});
      RemoveFromIndexed(e);
      RemoveFromTags(e);
      RemoveFromOthers(e);
    }

    // The three parts of the removal, one group of containers each.

    method RemoveFromIndexed(e: Entity)
      modifies this
      ensures Snapshot() == old(Snapshot()).(motions := Without(old(motions), {e}),
        players := Without(old(players), {e}), deathTimers := Without(old(deathTimers), {e}))
    {
      motions := Without(motions, {e});
      players := Without(players, {e});
      deathTimers := Without(deathTimers, {e});
    }

    method RemoveFromTags(e: Entity)
      modifies this
      ensures Snapshot() == old(Snapshot()).(softShells := old(softShells) - {e},
        hardShells := old(hardShells) - {e}, pits := old(pits) - {e})
    {
      softShells := softShells - {e};
      hardShells := hardShells - {e};
      pits := pits - {e};
    }

    method RemoveFromOthers(e: Entity)
      modifies this
      ensures Snapshot() == old(Snapshot()).(lightUpTimers := old(lightUpTimers) - {e},
        colors := old(colors) - {e}, mode := old(mode) - {e})
    {
      lightUpTimers := lightUpTimers - {e};
      colors := colors - {e};
      mode := mode - {e};
    }
  }

  /** The global debugging switches. */
  class Debugging {
    var inDebugMode: bool
    var inFreezeMode: bool

    constructor ()
      ensures !inDebugMode && !inFreezeMode
    {
      inDebugMode, inFreezeMode := false, false;
    }
  }
}
