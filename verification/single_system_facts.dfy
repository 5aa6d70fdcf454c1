/**
 Properties of the single-system viewer: regeneration releases every body of
 the previous system before adding any new one and leaves the scene holding
 exactly the new system; the new system has the promised shape; the frame
 update only advances angles; clicking without a system does nothing.
 */
module SingleSystemFacts {
  import opened Wrappers
  import opened Geometry
  import opened SceneGraph
  import opened Dataset
  import opened SingleSystem
  import Grouping

  // ---------------------------------------------------------------------------
  // Classifier
  // ---------------------------------------------------------------------------

  /** A warmer temperature never gets a colder texture. */
  lemma TextureMonotone(t1: real, t2: real)
    requires t1 <= t2
    ensures Warmth(TextureForPlanet(Some(t1))) <= Warmth(TextureForPlanet(Some(t2)))
  {
  }

  /** The sample temperatures: 600 is hot, -10 cold, 50 generic, and both bounds 500 and 0 generic. */
  lemma TextureSamples()
    ensures TextureForPlanet(Some(600.0)) == Hot
    ensures TextureForPlanet(Some(-10.0)) == Cold
    ensures TextureForPlanet(Some(50.0)) == Generic
    ensures TextureForPlanet(Some(500.0)) == Generic
    ensures TextureForPlanet(Some(0.0)) == Generic
  {
  }

  /**
   Every planet of a built system gets a non-zero sphere radius; the radius is
   positive whenever the record's radius is missing or non-negative, and a
   positive record radius is used as it is.
   */
  lemma BuiltRadiiNonZero(v: Viewer, records: seq<ExoplanetRecord>, rand: nat -> real, m: HostMath)
    ensures var r := BuildSystem(v, records, rand, m);
      forall i | 0 <= i < |records| ::
        var radius := r.current.value.planets[i].sphereRadius;
        && radius != 0.0
        && (records[i].prad.None? || records[i].prad.value >= 0.0 ==> radius > 0.0)
        && (records[i].prad.Some? && records[i].prad.value > 0.0 ==> radius == records[i].prad.value)
  {
    BuildSystemShape(v, records, rand, m);
  }

  /** The `||` fallback on samples: missing and 0 give 1, 2.5 stays 2.5, and a negative -3 is kept. */
  lemma PlanetRadiusSamples()
    ensures PlanetRadius(None) == 1.0
    ensures PlanetRadius(Some(0.0)) == 1.0
    ensures PlanetRadius(Some(2.5)) == 2.5
    ensures PlanetRadius(Some(-3.0)) == -3.0
  {
  }

  // ---------------------------------------------------------------------------
  // Teardown
  // ---------------------------------------------------------------------------

  /** Extending a log keeps what was released released. */
  lemma ReleasedGrows(a: seq<SceneEvent>, b: seq<SceneEvent>, id: Id)
    requires Released(a, id)
    ensures Released(a + b, id)
  {
  }

  /** The calls the teardown of `ps` makes, in order. */
  function ReleaseEvents(ps: seq<Planet>): seq<SceneEvent>
  {
    if ps == [] then []
    else [Removed(ps[0].id), GeometryDisposed(ps[0].id), MaterialDisposed(ps[0].id)] + ReleaseEvents(ps[1..])
  }

  /** The calls the teardown of the current system makes, in order. */
  function TeardownEvents(current: Option<StarSystem>): seq<SceneEvent>
  {
    match current
    case None => []
    case Some(sys) =>
      var id := sys.starMesh.id;
      ReleaseEvents(sys.planets) + [Removed(id), GeometryDisposed(id), MaterialDisposed(id)]
  }

  /** The calls a build of `ps` makes, in order. */
  function AddEvents(ps: seq<Planet>): seq<SceneEvent>
  {
    if ps == [] then [] else [Added(ps[0].id)] + AddEvents(ps[1..])
  }

  lemma {:induction false} ReleasePlanetsLogs(s: Scene, ps: seq<Planet>)
    ensures ReleasePlanets(s, ps) == Scene(s.members - PlanetIds(ps), s.log + ReleaseEvents(ps), s.nextId)
    decreases |ps|
  {
    if ps != [] {
      var id := ps[0].id;
      var step := [Removed(id), GeometryDisposed(id), MaterialDisposed(id)];
      var s1 := Dispose(Remove(s, id), id);
      ReleasePlanetsLogs(s1, ps[1..]);
      assert s1.log + ReleaseEvents(ps[1..]) == s.log + ReleaseEvents(ps) by {
        assert s1.log == s.log + step;
      }
      assert PlanetIds(ps) == {id} + PlanetIds(ps[1..]);
    }
  }

  lemma {:induction false} ReleaseEventsReleaseAll(ps: seq<Planet>)
    ensures forall j | 0 <= j < |ReleaseEvents(ps)| :: !ReleaseEvents(ps)[j].Added?
    ensures forall id | id in PlanetIds(ps) :: Released(ReleaseEvents(ps), id)
    decreases |ps|
  {
    if ps != [] {
      var id := ps[0].id;
      var step := [Removed(id), GeometryDisposed(id), MaterialDisposed(id)];
      var rest := ReleaseEvents(ps[1..]);
      ReleaseEventsReleaseAll(ps[1..]);
      assert ReleaseEvents(ps) == step + rest;
      assert PlanetIds(ps) == {id} + PlanetIds(ps[1..]);
      forall other | other in PlanetIds(ps)
        ensures Released(step + rest, other)
      {
        if other != id {
          assert Released(rest, other);
        }
      }
    }
  }

  /** Teardown removes exactly the old system's bodies from the scene and constructs nothing. */
  lemma ReleaseLogs(s: Scene, current: Option<StarSystem>)
    ensures Release(s, current) == Scene(s.members - CurrentIds(current), s.log + TeardownEvents(current), s.nextId)
  {
    if current.Some? {
      ReleasePlanetsLogs(s, current.value.planets);
    }
  }

  /** Teardown releases every body of the old system and adds nothing. */
  lemma TeardownReleasesAll(current: Option<StarSystem>)
    ensures forall j | 0 <= j < |TeardownEvents(current)| :: !TeardownEvents(current)[j].Added?
    ensures forall id | id in CurrentIds(current) :: Released(TeardownEvents(current), id)
  {
    if current.Some? {
      var sys := current.value;
      ReleaseEventsReleaseAll(sys.planets);
      var id := sys.starMesh.id;
      var step := [Removed(id), GeometryDisposed(id), MaterialDisposed(id)];
      forall other | other in CurrentIds(current)
        ensures Released(TeardownEvents(current), other)
      {
        if other != id {
          ReleasedGrows(ReleaseEvents(sys.planets), step, other);
        }
      }
    }
  }

  /** A release-only prefix that releases `ids`, followed by additions only, releases `ids` before any addition. */
  lemma ReleasedThenAdded(rel: seq<SceneEvent>, adds: seq<SceneEvent>, ids: set<Id>)
    requires forall j | 0 <= j < |rel| :: !rel[j].Added?
    requires forall id | id in ids :: Released(rel, id)
    ensures ReleasedBeforeAnyAdd(rel + adds, ids)
  {
    var events := rel + adds;
    forall j | 0 <= j < |events| && events[j].Added?
      ensures forall id | id in ids :: Released(events[..j], id)
    {
      assert forall k | 0 <= k < |rel| :: events[k] == rel[k];
      assert j >= |rel|;
      assert events[..j] == rel + adds[..j - |rel|];
      forall id | id in ids
        ensures Released(events[..j], id)
      {
        ReleasedGrows(rel, adds[..j - |rel|], id);
      }
    }
  }

  // ---------------------------------------------------------------------------
  // Construction
  // ---------------------------------------------------------------------------

  /** One step of the `map`, seen from the scene: the next id is added and logged. */
  lemma BuildPlanetsStep(
    s: Scene, records: seq<ExoplanetRecord>, index: nat, rand: nat -> real, star: StarBody, m: HostMath)
    requires records != []
    ensures var built := BuildPlanets(s, records, index, rand, star, m);
      var rest := BuildPlanets(Scene(s.members + {s.nextId}, s.log + [Added(s.nextId)], s.nextId + 1), records[1..], index + 1, rand, star, m);
      && built.0 == rest.0
      && built.1 == [MakePlanet(records[0], index, rand(1 + index), star, s.nextId, m)] + rest.1
  {
  }

  lemma {:induction false} BuildPlanetsMembers(
    s: Scene, records: seq<ExoplanetRecord>, index: nat, rand: nat -> real, star: StarBody, m: HostMath)
    ensures var built := BuildPlanets(s, records, index, rand, star, m);
      built.0.members == s.members + PlanetIds(built.1) && built.0.nextId == s.nextId + |records|
    decreases |records|
  {
    if records != [] {
      var s2 := Scene(s.members + {s.nextId}, s.log + [Added(s.nextId)], s.nextId + 1);
      BuildPlanetsStep(s, records, index, rand, star, m);
      BuildPlanetsMembers(s2, records[1..], index + 1, rand, star, m);
      var ps := BuildPlanets(s, records, index, rand, star, m).1;
      assert ps[1..] == BuildPlanets(s2, records[1..], index + 1, rand, star, m).1;
    }
  }

  lemma {:induction false} BuildPlanetsLog(
    s: Scene, records: seq<ExoplanetRecord>, index: nat, rand: nat -> real, star: StarBody, m: HostMath)
    ensures var built := BuildPlanets(s, records, index, rand, star, m);
      built.0.log == s.log + AddEvents(built.1)
    decreases |records|
  {
    if records != [] {
      var s2 := Scene(s.members + {s.nextId}, s.log + [Added(s.nextId)], s.nextId + 1);
      BuildPlanetsStep(s, records, index, rand, star, m);
      BuildPlanetsLog(s2, records[1..], index + 1, rand, star, m);
      var ps := BuildPlanets(s, records, index, rand, star, m).1;
      var rest := BuildPlanets(s2, records[1..], index + 1, rand, star, m).1;
      assert ps[1..] == rest;
      assert AddEvents(ps) == [Added(s.nextId)] + AddEvents(rest);
      assert s2.log + AddEvents(rest) == s.log + AddEvents(ps);
    }
  }

  /** The `map` adds one freshly numbered body per record, in order, and removes nothing. */
  lemma BuildPlanetsLogs(
    s: Scene, records: seq<ExoplanetRecord>, index: nat, rand: nat -> real, star: StarBody, m: HostMath)
    ensures var built := BuildPlanets(s, records, index, rand, star, m);
      built.0 == Scene(s.members + PlanetIds(built.1), s.log + AddEvents(built.1), s.nextId + |records|)
  {
    BuildPlanetsMembers(s, records, index, rand, star, m);
    BuildPlanetsLog(s, records, index, rand, star, m);
  }

  lemma {:induction false} BuildPlanetsMakes(
    s: Scene, records: seq<ExoplanetRecord>, index: nat, rand: nat -> real, star: StarBody, m: HostMath)
    ensures var ps := BuildPlanets(s, records, index, rand, star, m).1;
      && |ps| == |records|
      && forall i | 0 <= i < |ps| ::
           ps[i] == MakePlanet(records[i], index + i, rand(1 + index + i), star, s.nextId + i, m)
    decreases |records|
  {
    if records != [] {
      var (s1, id) := NewMesh(s);
      var s2 := Add(s1, id);
      BuildPlanetsMakes(s2, records[1..], index + 1, rand, star, m);
    }
  }

  /** The planets of the `map` take the next free ids in order. */
  lemma BuildPlanetsIds(
    s: Scene, records: seq<ExoplanetRecord>, index: nat, rand: nat -> real, star: StarBody, m: HostMath)
    ensures var ps := BuildPlanets(s, records, index, rand, star, m).1;
      && |ps| == |records|
      && forall i | 0 <= i < |ps| :: ps[i].id == s.nextId + i
  {
    BuildPlanetsMakes(s, records, index, rand, star, m);
  }

  /** A build adds only bodies constructed during the build. */
  lemma {:induction false} AddEventsFresh(ps: seq<Planet>, base: nat)
    requires forall i | 0 <= i < |ps| :: ps[i].id == base + i
    ensures forall j | 0 <= j < |AddEvents(ps)| :: AddEvents(ps)[j].Added? && AddEvents(ps)[j].id >= base
    decreases |ps|
  {
    if ps != [] {
      AddEventsFresh(ps[1..], base + 1);
    }
  }

  /** The identities of the freshly built bodies: the star first, then planets, counting up from `base`. */
  lemma {:induction false} FreshIdsDistinct(ps: seq<Planet>, base: nat)
    requires forall i | 0 <= i < |ps| :: ps[i].id == base + i
    ensures forall i, j | 0 <= i < j < |ps| :: ps[i].id != ps[j].id
    ensures forall id | id in PlanetIds(ps) :: base <= id < base + |ps|
    ensures |PlanetIds(ps)| == |ps|
    decreases |ps|
  {
    if ps != [] {
      var rest := ps[1..];
      FreshIdsDistinct(rest, base + 1);
      assert PlanetIds(ps) == {base} + PlanetIds(rest);
      assert base !in PlanetIds(rest);
    }
  }

  // ---------------------------------------------------------------------------
  // Regeneration
  // ---------------------------------------------------------------------------

  /** The scene after a build, written out: the star, then the planets, with ids counting up. */
  lemma BuildSystemScene(v: Viewer, records: seq<ExoplanetRecord>, rand: nat -> real, m: HostMath)
    ensures var r := BuildSystem(v, records, rand, m);
      var starId := v.scene.nextId;
      && r.current.Some?
      && r.current.value.starMesh.id == starId
      && |r.current.value.planets| == |records|
      && (forall i | 0 <= i < |records| :: r.current.value.planets[i].id == starId + 1 + i)
      && r.scene == Scene(
           v.scene.members + {starId} + PlanetIds(r.current.value.planets),
           v.scene.log + ([Added(starId)] + AddEvents(r.current.value.planets)),
           starId + 1 + |records|)
  {
    var starId := v.scene.nextId;
    var star := StarBody(starId, Origin);
    var s2 := Scene(v.scene.members + {starId}, v.scene.log + [Added(starId)], starId + 1);
    BuildSystemUnfold(v, records, rand, m);
    BuildPlanetsLogs(s2, records, 0, rand, star, m);
    BuildPlanetsIds(s2, records, 0, rand, star, m);
    InstalledSystem(v, records, star, BuildPlanets(s2, records, 0, rand, star, m), BuildSystem(v, records, rand, m));
  }

  /** Installing a star and planets built on the next ids gives the written-out scene. */
  lemma InstalledSystem(v: Viewer, records: seq<ExoplanetRecord>, star: StarBody, built: (Scene, seq<Planet>), r: Viewer)
    requires star.id == v.scene.nextId
    requires |built.1| == |records| && forall i | 0 <= i < |built.1| :: built.1[i].id == star.id + 1 + i
    requires built.0 == Scene(
      v.scene.members + {star.id} + PlanetIds(built.1),
      v.scene.log + [Added(star.id)] + AddEvents(built.1),
      star.id + 1 + |records|)
    requires r == v.(scene := built.0, current := Some(StarSystem(star, built.1)), info := ClickPrompt)
    ensures && r.current.Some?
      && r.current.value.starMesh.id == star.id
      && |r.current.value.planets| == |records|
      && (forall i | 0 <= i < |records| :: r.current.value.planets[i].id == star.id + 1 + i)
      && r.scene == Scene(
           v.scene.members + {star.id} + PlanetIds(r.current.value.planets),
           v.scene.log + ([Added(star.id)] + AddEvents(r.current.value.planets)),
           star.id + 1 + |records|)
  {
    assert v.scene.log + [Added(star.id)] + AddEvents(built.1) == v.scene.log + ([Added(star.id)] + AddEvents(built.1));
  }

  /** A build first adds the star under the next id, then builds the planets in that scene. */
  lemma BuildSystemUnfold(v: Viewer, records: seq<ExoplanetRecord>, rand: nat -> real, m: HostMath)
    ensures var starId := v.scene.nextId;
      var star := StarBody(starId, Origin);
      var built := BuildPlanets(Scene(v.scene.members + {starId}, v.scene.log + [Added(starId)], starId + 1), records, 0, rand, star, m);
      BuildSystem(v, records, rand, m) == v.(scene := built.0, current := Some(StarSystem(star, built.1)), info := ClickPrompt)
  {
    var (s1, starId) := NewMesh(v.scene);
    assert Add(s1, starId) == Scene(v.scene.members + {starId}, v.scene.log + [Added(starId)], starId + 1);
  }

  /** The shape of a built system: star at the origin, planet `i` from record `i` on orbit 10 + 5i. */
  lemma BuildSystemShape(v: Viewer, records: seq<ExoplanetRecord>, rand: nat -> real, m: HostMath)
    ensures var r := BuildSystem(v, records, rand, m);
      && r.current.Some?
      && r.current.value.starMesh.position == Origin
      && |r.current.value.planets| == |records|
      && (forall i | 0 <= i < |records| ::
            var p := r.current.value.planets[i];
            var e := records[i];
            && CopiesRecord(p.userData, e)
            && p.userData.distance == 10.0 + 5.0 * i as real
            && p.userData.angle == rand(1 + i) * TwoPi
            && p.sphereRadius == PlanetRadius(e.prad)
            && p.texture == TextureForPlanet(e.teq))
      && r.info == ClickPrompt
      && r.rotationEnabled == v.rotationEnabled && r.sceneRotationY == v.sceneRotationY
  {
    var (s1, starId) := NewMesh(v.scene);
    var star := StarBody(starId, Origin);
    BuildPlanetsMakes(Add(s1, starId), records, 0, rand, star, m);
  }

  /**
   Each planet of a built system starts on its orbit around the origin star,
   in the x-y plane: at (cos a * d, sin a * d, 0) for its angle a and orbit
   distance d.
   */
  lemma BuildSystemPositions(v: Viewer, records: seq<ExoplanetRecord>, rand: nat -> real, m: HostMath)
    ensures var r := BuildSystem(v, records, rand, m);
      && r.current.Some?
      && |r.current.value.planets| == |records|
      && (forall i | 0 <= i < |records| :: StartsOnOrbit(r.current.value.planets[i], m))
  {
    var (s1, starId) := NewMesh(v.scene);
    var star := StarBody(starId, Origin);
    BuildPlanetsMakes(Add(s1, starId), records, 0, rand, star, m);
    var ps := BuildPlanets(Add(s1, starId), records, 0, rand, star, m).1;
    assert BuildSystem(v, records, rand, m).current.value.planets == ps;
    BuiltPlanetsPositions(ps, records, rand, star, Add(s1, starId).nextId, m);
  }

  /** Planets made around a star at the origin start at (cos a * d, sin a * d, 0). */
  lemma BuiltPlanetsPositions(ps: seq<Planet>, records: seq<ExoplanetRecord>, rand: nat -> real, star: StarBody, base: Id, m: HostMath)
    requires star.position == Origin && |ps| == |records|
    requires forall i | 0 <= i < |ps| :: ps[i] == MakePlanet(records[i], 0 + i, rand(1 + 0 + i), star, base + i, m)
    ensures forall i | 0 <= i < |ps| :: StartsOnOrbit(ps[i], m)
  {
  }

  /** A planet at angle a on orbit d around the origin sits at (cos a * d, sin a * d, 0). */
  ghost predicate StartsOnOrbit(p: Planet, m: HostMath)
  {
    p.position == Vec3(m.cos(p.userData.angle) * p.userData.distance,
                       m.sin(p.userData.angle) * p.userData.distance, 0.0)
  }

  /**
   After generation the current system is a star at the origin plus one planet
   per record of the chosen group, in record order: planet `i` copies record
   `i`'s columns, orbits at distance 10 + 5i (so at least 10 and strictly
   increasing), has the record's radius (1 when that is missing or zero) and
   its temperature texture.
   */
  lemma GenerationBuildsChosenSystem(v: Viewer, data: seq<ExoplanetRecord>, rand: nat -> real, m: HostMath)
    requires data != []
    requires 0.0 <= rand(0) < 1.0
    ensures var r := GenerateRandomStarSystem(v, data, rand, m);
      var chosen := ChosenGroup(data, rand(0));
      && r.current.Some?
      && r.current.value.starMesh.position == Origin
      && |r.current.value.planets| == |chosen.planets|
      && (forall i | 0 <= i < |chosen.planets| ::
            var p := r.current.value.planets[i];
            var e := chosen.planets[i];
            && CopiesRecord(p.userData, e)
            && p.userData.distance == 10.0 + 5.0 * i as real
            && p.userData.angle == rand(1 + i) * TwoPi
            && p.sphereRadius == PlanetRadius(e.prad)
            && p.texture == TextureForPlanet(e.teq))
      && (forall i, j | 0 <= i < j < |chosen.planets| ::
            10.0 <= r.current.value.planets[i].userData.distance < r.current.value.planets[j].userData.distance)
      && r.info == ClickPrompt
      && r.rotationEnabled == v.rotationEnabled && r.sceneRotationY == v.sceneRotationY
  {
    var released := v.(scene := Release(v.scene, v.current));
    var r := BuildSystem(released, ChosenGroup(data, rand(0)).planets, rand, m);
    assert GenerateRandomStarSystem(v, data, rand, m) == r;
    BuildSystemShape(released, ChosenGroup(data, rand(0)).planets, rand, m);
    ShapeWithOrder(v, r, ChosenGroup(data, rand(0)).planets, rand);
  }

  /** A built system of the described shape also has its orbits in increasing order. */
  lemma ShapeWithOrder(v: Viewer, r: Viewer, records: seq<ExoplanetRecord>, rand: nat -> real)
    requires && r.current.Some?
      && r.current.value.starMesh.position == Origin
      && |r.current.value.planets| == |records|
      && (forall i | 0 <= i < |records| ::
            var p := r.current.value.planets[i];
            var e := records[i];
            && CopiesRecord(p.userData, e)
            && p.userData.distance == 10.0 + 5.0 * i as real
            && p.userData.angle == rand(1 + i) * TwoPi
            && p.sphereRadius == PlanetRadius(e.prad)
            && p.texture == TextureForPlanet(e.teq))
      && r.info == ClickPrompt
      && r.rotationEnabled == v.rotationEnabled && r.sceneRotationY == v.sceneRotationY
    ensures && r.current.Some?
      && r.current.value.starMesh.position == Origin
      && |r.current.value.planets| == |records|
      && (forall i | 0 <= i < |records| ::
            var p := r.current.value.planets[i];
            var e := records[i];
            && CopiesRecord(p.userData, e)
            && p.userData.distance == 10.0 + 5.0 * i as real
            && p.userData.angle == rand(1 + i) * TwoPi
            && p.sphereRadius == PlanetRadius(e.prad)
            && p.texture == TextureForPlanet(e.teq))
      && (forall i, j | 0 <= i < j < |records| ::
            10.0 <= r.current.value.planets[i].userData.distance < r.current.value.planets[j].userData.distance)
      && r.info == ClickPrompt
      && r.rotationEnabled == v.rotationEnabled && r.sceneRotationY == v.sceneRotationY
  {
    OrbitsIncrease(r.current.value.planets);
  }

  /** Orbits at 10 + 5i are at least 10 and strictly increasing. */
  lemma OrbitsIncrease(ps: seq<Planet>)
    requires forall i | 0 <= i < |ps| :: ps[i].userData.distance == 10.0 + 5.0 * i as real
    ensures forall i, j | 0 <= i < j < |ps| :: 10.0 <= ps[i].userData.distance < ps[j].userData.distance
  {
  }

  /** The scene after generation, written out: teardown, then the star, then the planets. */
  lemma GenerationScene(v: Viewer, data: seq<ExoplanetRecord>, rand: nat -> real, m: HostMath)
    requires data != []
    requires 0.0 <= rand(0) < 1.0
    ensures var r := GenerateRandomStarSystem(v, data, rand, m);
      var starId := v.scene.nextId;
      && r.current.Some?
      && r.current.value.starMesh.id == starId
      && (forall i | 0 <= i < |r.current.value.planets| :: r.current.value.planets[i].id == starId + 1 + i)
      && r.scene == Scene(
           (v.scene.members - CurrentIds(v.current)) + {starId} + PlanetIds(r.current.value.planets),
           v.scene.log + TeardownEvents(v.current) + ([Added(starId)] + AddEvents(r.current.value.planets)),
           starId + 1 + |r.current.value.planets|)
  {
    ReleaseLogs(v.scene, v.current);
    var released := v.(scene := Release(v.scene, v.current));
    BuildSystemScene(released, ChosenGroup(data, rand(0)).planets, rand, m);
  }

  /** In release-only events followed by additions of ids from `base` up, every addition is of such an id. */
  lemma AddedIdsAtLeast(rel: seq<SceneEvent>, adds: seq<SceneEvent>, base: Id)
    requires forall j | 0 <= j < |rel| :: !rel[j].Added?
    requires forall j | 0 <= j < |adds| :: adds[j].Added? && adds[j].id >= base
    ensures forall j | 0 <= j < |rel + adds| && (rel + adds)[j].Added? :: (rel + adds)[j].id >= base
  {
    forall j | 0 <= j < |rel + adds| && (rel + adds)[j].Added?
      ensures (rel + adds)[j].id >= base
    {
      assert forall k | 0 <= k < |rel| :: (rel + adds)[k] == rel[k];
      assert j >= |rel|;
      assert (rel + adds)[j] == adds[j - |rel|];
    }
  }

  /**
   Regeneration releases (removes from the scene and disposes the geometry and
   material of) every body of the previous system before it adds any body, and
   only ever adds bodies it has just constructed.
   */
  lemma GenerationReleasesBeforeAdding(v: Viewer, data: seq<ExoplanetRecord>, rand: nat -> real, m: HostMath)
    requires data != []
    requires 0.0 <= rand(0) < 1.0
    ensures |v.scene.log| <= |GenerateRandomStarSystem(v, data, rand, m).scene.log|
    ensures var r := GenerateRandomStarSystem(v, data, rand, m);
      var events := r.scene.log[|v.scene.log|..];
      && r.scene.log[..|v.scene.log|] == v.scene.log
      && ReleasedBeforeAnyAdd(events, CurrentIds(v.current))
      && (forall j | 0 <= j < |events| && events[j].Added? :: events[j].id >= v.scene.nextId)
      && r.scene.members == (v.scene.members - CurrentIds(v.current)) + CurrentIds(r.current)
  {
    GenerationScene(v, data, rand, m);
    ReleaseThenBuild(v.scene, v.current, GenerateRandomStarSystem(v, data, rand, m));
  }

  /** The facts above for any viewer whose scene is a teardown of `current` followed by a fresh build. */
  lemma ReleaseThenBuild(previous: Scene, current: Option<StarSystem>, r: Viewer)
    requires r.current.Some?
    requires var starId := previous.nextId;
      var planets := r.current.value.planets;
      && r.current.value.starMesh.id == starId
      && (forall i | 0 <= i < |planets| :: planets[i].id == starId + 1 + i)
      && r.scene.members == (previous.members - CurrentIds(current)) + {starId} + PlanetIds(planets)
      && r.scene.log == previous.log + TeardownEvents(current) + ([Added(starId)] + AddEvents(planets))
    ensures |previous.log| <= |r.scene.log|
    ensures var events := r.scene.log[|previous.log|..];
      && r.scene.log[..|previous.log|] == previous.log
      && ReleasedBeforeAnyAdd(events, CurrentIds(current))
      && (forall j | 0 <= j < |events| && events[j].Added? :: events[j].id >= previous.nextId)
      && r.scene.members == (previous.members - CurrentIds(current)) + CurrentIds(r.current)
  {
    var planets := r.current.value.planets;
    var rel := TeardownEvents(current);
    var adds := [Added(previous.nextId)] + AddEvents(planets);
    TeardownReleasesAll(current);
    AddEventsFresh(planets, previous.nextId + 1);
    LogExtension(previous.log, rel, adds, CurrentIds(current), previous.nextId);
  }

  /** The facts above, for any log extended by release-only events and then fresh additions. */
  lemma LogExtension(log: seq<SceneEvent>, rel: seq<SceneEvent>, adds: seq<SceneEvent>, ids: set<Id>, base: Id)
    requires forall j | 0 <= j < |rel| :: !rel[j].Added?
    requires forall id | id in ids :: Released(rel, id)
    requires adds != [] && adds[0] == Added(base)
    requires forall j | 1 <= j < |adds| :: adds[j].Added? && adds[j].id > base
    ensures && (log + rel + adds)[..|log|] == log
      && (log + rel + adds)[|log|..] == rel + adds
      && ReleasedBeforeAnyAdd(rel + adds, ids)
      && (forall j | 0 <= j < |rel + adds| && (rel + adds)[j].Added? :: (rel + adds)[j].id >= base)
  {
    assert forall j | 0 <= j < |adds| :: adds[j].Added? && adds[j].id >= base;
    ReleasedThenAdded(rel, adds, ids);
    AddedIdsAtLeast(rel, adds, base);
    assert log + rel + adds == log + (rel + adds);
  }

  /**
   The regeneration invariant: if the scene held exactly the background (the
   universe sphere) and the previous system, it holds exactly the background
   and the new system afterwards, one star plus one body per planet, with
   nothing left over from earlier calls.
   */
  lemma RegenerationKeepsSceneExact(v: Viewer, background: set<Id>, data: seq<ExoplanetRecord>, rand: nat -> real, m: HostMath)
    requires data != []
    requires 0.0 <= rand(0) < 1.0
    requires SceneHoldsCurrent(v, background)
    ensures var r := GenerateRandomStarSystem(v, data, rand, m);
      && SceneHoldsCurrent(r, background)
      && |r.scene.members| == |background| + 1 + |r.current.value.planets|
  {
    GenerationScene(v, data, rand, m);
    SceneReplaced(v, GenerateRandomStarSystem(v, data, rand, m), background);
  }

  /** A scene rebuilt from the previous one, minus the old system, plus a freshly numbered system, keeps its background exactly. */
  lemma SceneReplaced(v: Viewer, r: Viewer, background: set<Id>)
    requires SceneHoldsCurrent(v, background)
    requires var starId := v.scene.nextId;
      && r.current.Some?
      && r.current.value.starMesh.id == starId
      && (forall i | 0 <= i < |r.current.value.planets| :: r.current.value.planets[i].id == starId + 1 + i)
      && r.scene == Scene(
           (v.scene.members - CurrentIds(v.current)) + {starId} + PlanetIds(r.current.value.planets),
           v.scene.log + TeardownEvents(v.current) + ([Added(starId)] + AddEvents(r.current.value.planets)),
           starId + 1 + |r.current.value.planets|)
    ensures SceneHoldsCurrent(r, background)
    ensures |r.scene.members| == |background| + 1 + |r.current.value.planets|
  {
    assert v.scene.members - CurrentIds(v.current) == background;
    FreshSystemHeld(r, background);
  }

  /** A system whose bodies were just numbered consecutively, beside an older background, is held exactly. */
  lemma FreshSystemHeld(r: Viewer, background: set<Id>)
    requires r.current.Some?
    requires var sys := r.current.value;
      && (forall i | 0 <= i < |sys.planets| :: sys.planets[i].id == sys.starMesh.id + 1 + i)
      && (forall id | id in background :: id < sys.starMesh.id)
      && r.scene.members == background + {sys.starMesh.id} + PlanetIds(sys.planets)
      && r.scene.nextId == sys.starMesh.id + 1 + |sys.planets|
    ensures SceneHoldsCurrent(r, background)
    ensures |r.scene.members| == |background| + 1 + |r.current.value.planets|
  {
    var sys := r.current.value;
    FreshIdsDistinct(sys.planets, sys.starMesh.id + 1);
    assert sys.starMesh.id !in PlanetIds(sys.planets);
    var body := {sys.starMesh.id} + PlanetIds(sys.planets);
    assert |body| == 1 + |sys.planets|;
    assert body == CurrentIds(r.current);
    assert background !! body;
    assert r.scene.members == background + body;
  }

  /** From the page's start, every generation leaves the scene holding exactly the universe sphere and the new system. */
  lemma FirstGenerationScene(data: seq<ExoplanetRecord>, rand: nat -> real, m: HostMath)
    requires data != []
    requires 0.0 <= rand(0) < 1.0
    ensures var r := GenerateRandomStarSystem(InitialViewer(), data, rand, m);
      && SceneHoldsCurrent(r, {Universe})
      && |r.scene.members| == 2 + |r.current.value.planets|
  {
    RegenerationKeepsSceneExact(InitialViewer(), {Universe}, data, rand, m);
  }

  // ---------------------------------------------------------------------------
  // Frame update, toggle, picking
  // ---------------------------------------------------------------------------

  /** How a planet looks after one orbit update: only the angle and the position change. */
  predicate OrbitedOnce(p: Planet, q: Planet, star: StarBody, m: HostMath)
  {
    && q.id == p.id && q.sphereRadius == p.sphereRadius && q.texture == p.texture
    && q.userData == p.userData.(angle := p.userData.angle + OrbitStep)
    && q.position == Vec3(star.position.x + m.cos(q.userData.angle) * q.userData.distance,
                          0.0,
                          star.position.z + m.sin(q.userData.angle) * q.userData.distance)
  }

  /**
   One frame: each planet's angle grows by 0.005, its distance stays, it is
   placed on its circle with y = 0; the star, the planet list, the scene and
   the info panel are untouched; the scene rotates exactly when rotation is on.
   */
  lemma AnimateEffect(v: Viewer, m: HostMath)
    ensures var r := Animate(v, m);
      && r.scene == v.scene && r.info == v.info && r.rotationEnabled == v.rotationEnabled
      && (r.sceneRotationY != v.sceneRotationY <==> v.rotationEnabled)
      && (v.rotationEnabled ==> r.sceneRotationY == v.sceneRotationY + RotationStep)
      && r.current.Some? == v.current.Some?
      && (v.current.Some? ==>
            && r.current.value.starMesh == v.current.value.starMesh
            && |r.current.value.planets| == |v.current.value.planets|
            && forall i | 0 <= i < |v.current.value.planets| ::
                 OrbitedOnce(v.current.value.planets[i], r.current.value.planets[i], v.current.value.starMesh, m))
  {
    if v.current.Some? {
      var sys := v.current.value;
      var qs := OrbitAll(sys.planets, sys.starMesh, m);
      assert Animate(v, m).current == Some(sys.(planets := qs));
      forall i | 0 <= i < |sys.planets|
        ensures OrbitedOnce(sys.planets[i], qs[i], sys.starMesh, m)
      {
        assert qs[i] == Orbit(sys.planets[i], sys.starMesh, m);
      }
    }
  }

  /** `n` consecutive frames. */
  function AnimateFrames(v: Viewer, m: HostMath, n: nat): Viewer
    decreases n
  {
    if n == 0 then v else AnimateFrames(Animate(v, m), m, n - 1)
  }

  /**
   After `n` frames every planet's angle has grown by exactly `n` steps while
   its distance, metadata, identity and size are unchanged, and the scene still
   holds exactly the current system.
   */
  lemma {:induction false} AnimateFramesEffect(v: Viewer, background: set<Id>, m: HostMath, n: nat)
    ensures var r := AnimateFrames(v, m, n);
      && r.scene == v.scene && r.info == v.info && r.rotationEnabled == v.rotationEnabled
      && r.sceneRotationY == v.sceneRotationY + (if v.rotationEnabled then n as real * RotationStep else 0.0)
      && r.current.Some? == v.current.Some?
      && CurrentIds(r.current) == CurrentIds(v.current)
      && (SceneHoldsCurrent(v, background) ==> SceneHoldsCurrent(r, background))
      && (v.current.Some? ==>
            && r.current.value.starMesh == v.current.value.starMesh
            && |r.current.value.planets| == |v.current.value.planets|
            && forall i | 0 <= i < |v.current.value.planets| ::
                 var p, q := v.current.value.planets[i], r.current.value.planets[i];
                 && q.id == p.id && q.sphereRadius == p.sphereRadius && q.texture == p.texture
                 && q.userData == p.userData.(angle := p.userData.angle + n as real * OrbitStep))
    decreases n
  {
    if n > 0 {
      var w := Animate(v, m);
      AnimateEffect(v, m);
      AnimateFramesEffect(w, background, m, n - 1);
      if v.current.Some? {
        var ps, qs := v.current.value.planets, w.current.value.planets;
        assert PlanetIds(qs) == PlanetIds(ps) by {
          SameIdsSamePlanetIds(ps, qs);
        }
      }
    }
  }

  lemma {:induction false} SameIdsSamePlanetIds(ps: seq<Planet>, qs: seq<Planet>)
    requires |ps| == |qs|
    requires forall i | 0 <= i < |ps| :: ps[i].id == qs[i].id
    ensures PlanetIds(ps) == PlanetIds(qs)
    decreases |ps|
  {
    if ps != [] {
      SameIdsSamePlanetIds(ps[1..], qs[1..]);
    }
  }

  /** Toggling rotation twice restores the flag (and the whole state). */
  lemma ToggleTwiceRestores(v: Viewer)
    ensures ToggleRotation(ToggleRotation(v)) == v
  {
  }

  /** With no system displayed the candidate set is empty, so a click changes nothing. */
  lemma ClickWithoutSystemIsNoOp(v: Viewer, hits: seq<Planet>)
    requires v.current.None?
    requires forall h | h in hits :: h in PickCandidates(v)
    ensures Click(v, hits) == v
  {
  }

  // ---------------------------------------------------------------------------
  // A worked scenario
  // ---------------------------------------------------------------------------

  lemma SortedKeysOfTwo()
    ensures SortedKeys({1, 2}) == [1, 2]
  {
    var ks := SortedKeys({1, 2});
    assert |ks| == 2;
    assert ks[0] in {1, 2} && ks[1] in {1, 2};
    assert ks[0] < ks[1];
  }

  lemma KepidsOfThree(a: ExoplanetRecord, b: ExoplanetRecord, c: ExoplanetRecord)
    requires a.kepid == 1 && b.kepid == 1 && c.kepid == 2
    ensures Kepids([a, b, c]) == {1, 2}
  {
    assert [a, b, c][1..] == [b, c];
    assert [b, c][1..] == [c];
    assert Kepids([c]) == {2};
  }

  lemma RecordsOfThree(a: ExoplanetRecord, b: ExoplanetRecord, c: ExoplanetRecord)
    requires a.kepid == 1 && b.kepid == 1 && c.kepid == 2
    ensures RecordsOf([a, b, c], 1) == [a, b]
    ensures RecordsOf([a, b, c], 2) == [c]
  {
    assert [a, b, c][1..] == [b, c];
    assert [b, c][1..] == [c];
    assert RecordsOf([c], 1) == [];
    assert RecordsOf([c], 2) == [c];
  }

  lemma ReferenceOfThree(a: ExoplanetRecord, b: ExoplanetRecord, c: ExoplanetRecord)
    requires a.kepid == 1 && b.kepid == 1 && c.kepid == 2
    ensures ReferenceGrouping([a, b, c]) == [StarGroup(1, [a, b]), StarGroup(2, [c])]
  {
    var data := [a, b, c];
    KepidsOfThree(a, b, c);
    SortedKeysOfTwo();
    GroupsForTwo(data, 1, 2);
    RecordsOfThree(a, b, c);
  }

  lemma GroupsForTwo(data: seq<ExoplanetRecord>, k1: nat, k2: nat)
    ensures GroupsFor(data, [k1, k2]) == [StarGroup(k1, RecordsOf(data, k1)), StarGroup(k2, RecordsOf(data, k2))]
  {
    assert [k1, k2][1..] == [k2];
    assert [k2][1..] == [];
    assert GroupsFor(data, [k2]) == [StarGroup(k2, RecordsOf(data, k2))] + GroupsFor(data, []);
  }

  /** Records of stars 1, 1 and 2 form two systems, of sizes 2 and 1, in key order. */
  lemma TwoStarGrouping(a: ExoplanetRecord, b: ExoplanetRecord, c: ExoplanetRecord)
    requires a.kepid == 1 && b.kepid == 1 && c.kepid == 2
    ensures GroupExoplanetsByStar([a, b, c]) == [StarGroup(1, [a, b]), StarGroup(2, [c])]
  {
    Grouping.GroupingMatchesReference([a, b, c]);
    ReferenceOfThree(a, b, c);
  }

  /** With those records, a selection draw below one half picks star 1, whose two planets orbit at 10 and 15. */
  lemma TwoStarScenario(a: ExoplanetRecord, b: ExoplanetRecord, c: ExoplanetRecord,
                        v: Viewer, rand: nat -> real, m: HostMath)
    requires a.kepid == 1 && b.kepid == 1 && c.kepid == 2
    requires 0.0 <= rand(0) < 0.5
    ensures var r := GenerateRandomStarSystem(v, [a, b, c], rand, m);
      && |r.current.value.planets| == 2
      && r.current.value.planets[0].userData.distance == 10.0
      && r.current.value.planets[1].userData.distance == 15.0
  {
    TwoStarGrouping(a, b, c);
    assert SelectIndex(rand(0), 2) == 0;
    assert ChosenGroup([a, b, c], rand(0)) == StarGroup(1, [a, b]);
    GenerationBuildsChosenSystem(v, [a, b, c], rand, m);
  }
}
