/**
 The single-system viewer of exoplanets-exploration/js/main.js: the
 temperature classifier, planet sizing, regeneration of the displayed star
 system (release the previous bodies, then build a star at the origin and one
 planet per record of a randomly chosen group), the per-frame orbit update,
 the rotation toggle and planet picking.

 `Math.random()` is a stream `rand` supplied by the host: `rand(0)` chooses
 the group and `rand(1 + i)` is the draw behind planet `i`'s starting angle.
 */
module SingleSystem {
  import opened Wrappers
  import opened Geometry
  import opened SceneGraph
  import opened Dataset
  import Grouping

  datatype Texture = Generic | Hot | Cold

  /** `Math.PI * 2` as the double it evaluates to. */
  const TwoPi: real := 6.283185307179586
  /** Orbit distance of planet 0 and the gap between neighbouring orbits. */
  const FirstOrbit: real := 10.0
  const OrbitGap: real := 5.0
  /** Angle added to every planet on each frame. */
  const OrbitStep: real := 0.005
  /** Scene rotation added on each frame while rotation is on. */
  const RotationStep: real := 0.001

  /** `getTextureForPlanet`: above 500 is hot, below 0 is cold, anything else (the bounds, a missing value) generic. */
  function TextureForPlanet(temperature: Option<real>): (t: Texture)
    ensures t == Hot <==> temperature.Some? && temperature.value > 500.0
    ensures t == Cold <==> temperature.Some? && temperature.value < 0.0
    ensures t == Generic <==> temperature.None? || 0.0 <= temperature.value <= 500.0
  {
    match temperature
    case None => Generic
    case Some(k) => if k > 500.0 then Hot else if k < 0.0 then Cold else Generic
  }

  /** Cold, generic, hot, in that order. */
  function Warmth(t: Texture): nat
  {
    match t
    case Cold => 0
    case Generic => 1
    case Hot => 2
  }

  /** `koi_prad || 1`: a missing or zero radius becomes 1; any other value, even a negative one, is kept. */
  function PlanetRadius(prad: Option<real>): (r: real)
    ensures r != 0.0
    ensures prad.Some? && prad.value != 0.0 ==> r == prad.value
    ensures prad.None? || prad.value == 0.0 ==> r == 1.0
  {
    match prad
    case Some(x) => if x != 0.0 then x else 1.0
    case None => 1.0
  }

  /** The `userData` a planet carries: the record's columns plus its orbit. */
  datatype PlanetData = PlanetData(
    name: string,
    period: Option<real>,
    radius: Option<real>,
    temperature: Option<real>,
    magnitude: Option<real>,
    insol: Option<real>,
    ra: string,
    dec: string,
    koiName: string,
    angle: real,
    distance: real)

  datatype Planet = Planet(id: Id, sphereRadius: real, texture: Texture, userData: PlanetData, position: Vec3)

  datatype StarBody = StarBody(id: Id, position: Vec3)

  /** `currentStarSystem`: `{ starMesh, planets }`. */
  datatype StarSystem = StarSystem(starMesh: StarBody, planets: seq<Planet>)

  /** The text of the info element. */
  datatype InfoPanel = Blank | ClickPrompt | PlanetCard(data: PlanetData)

  /** The session state the handlers and the frame loop share. */
  datatype Viewer = Viewer(
    scene: Scene,
    current: Option<StarSystem>,
    rotationEnabled: bool,
    sceneRotationY: real,
    info: InfoPanel)

  /** The id of the universe sphere, the first mesh `init` constructs. */
  const Universe: Id := 0

  /**
   `init`: the universe sphere is constructed and added to the scene (the
   lights are left out); no system is displayed yet and rotation is off.
   */
  function InitialViewer(): (v: Viewer)
    ensures v.current.None? && !v.rotationEnabled && v.info == Blank
    ensures v.scene.log == [Added(Universe)]
    ensures SceneHoldsCurrent(v, {Universe})
  {
    var (s, universe) := NewMesh(EmptyScene);
    Viewer(Add(s, universe), None, false, 0.0, Blank)
  }

  /** The record's columns copied into `userData`; `radius` keeps the raw `koi_prad`. */
  predicate CopiesRecord(d: PlanetData, e: ExoplanetRecord)
  {
    && d.name == e.kepoiName
    && d.period == e.period
    && d.radius == e.prad
    && d.temperature == e.teq
    && d.magnitude == e.kepmag
    && d.insol == e.insol
    && d.ra == e.ra
    && d.dec == e.dec
    && d.koiName == e.koiName
  }

  // ---------------------------------------------------------------------------
  // Identities of displayed bodies
  // ---------------------------------------------------------------------------

  function PlanetIds(ps: seq<Planet>): (ids: set<Id>)
    ensures forall i | 0 <= i < |ps| :: ps[i].id in ids
    ensures forall id | id in ids :: exists i | 0 <= i < |ps| :: ps[i].id == id
  {
    if ps == [] then {} else {ps[0].id} + PlanetIds(ps[1..])
  }

  function SystemIds(sys: StarSystem): set<Id>
  {
    {sys.starMesh.id} + PlanetIds(sys.planets)
  }

  function CurrentIds(current: Option<StarSystem>): set<Id>
  {
    match current
    case None => {}
    case Some(sys) => SystemIds(sys)
  }

  /** No two bodies of the system share an identity. */
  predicate DistinctIds(sys: StarSystem)
  {
    && sys.starMesh.id !in PlanetIds(sys.planets)
    && forall i, j | 0 <= i < j < |sys.planets| :: sys.planets[i].id != sys.planets[j].id
  }

  /**
   The scene holds exactly the `background` objects (the universe sphere) and
   the bodies of the current system, each once.
   */
  predicate SceneHoldsCurrent(v: Viewer, background: set<Id>)
  {
    && MembersAllocated(v.scene)
    && v.scene.members == background + CurrentIds(v.current)
    && background !! CurrentIds(v.current)
    && (v.current.Some? ==> DistinctIds(v.current.value))
  }

  // ---------------------------------------------------------------------------
  // Regeneration
  // ---------------------------------------------------------------------------

  /** The `forEach` over the old planets: remove each from the scene, then release its geometry and material. */
  function ReleasePlanets(s: Scene, ps: seq<Planet>): (r: Scene)
    ensures r.members == s.members - PlanetIds(ps)
    ensures r.nextId == s.nextId && |r.log| == |s.log| + 3 * |ps|
    decreases |ps|
  {
    if ps == [] then s else ReleasePlanets(Dispose(Remove(s, ps[0].id), ps[0].id), ps[1..])
  }

  /** Tear down the previous system, if there is one: its planets, then its star. */
  function Release(s: Scene, current: Option<StarSystem>): (r: Scene)
    ensures r.members == s.members - CurrentIds(current)
    ensures r.nextId == s.nextId
  {
    match current
    case None => s
    case Some(sys) =>
      var afterPlanets := ReleasePlanets(s, sys.planets);
      Dispose(Remove(afterPlanets, sys.starMesh.id), sys.starMesh.id)
  }

  /** `Math.floor(Math.random() * starSystems.length)`. */
  function SelectIndex(draw: real, n: nat): (i: int)
    requires 0.0 <= draw < 1.0
    ensures 0 <= i
    ensures n > 0 ==> i < n
    ensures n == 0 ==> i == 0
  {
    DrawScaledBelow(draw, n as real);
    (draw * n as real).Floor
  }

  /** A draw in [0, 1) scaled by a non-negative `n` lands in [0, n), or on 0 when `n` is 0. */
  lemma DrawScaledBelow(draw: real, n: real)
    requires 0.0 <= draw < 1.0 && 0.0 <= n
    ensures 0.0 <= draw * n
    ensures n > 0.0 ==> draw * n < n
    ensures n == 0.0 ==> draw * n == 0.0
  {
    if n > 0.0 {
      assert n - draw * n == (1.0 - draw) * n;
      assert (1.0 - draw) * n > 0.0;
    }
  }

  /** The group `starSystems[...]` picks. The source dereferences it unchecked, so the data must not be empty. */
  function ChosenGroup(data: seq<ExoplanetRecord>, draw: real): (g: StarGroup)
    requires data != []
    requires 0.0 <= draw < 1.0
    ensures g in GroupExoplanetsByStar(data)
    ensures g.planets != [] && |g.planets| <= |data|
    ensures forall e | e in g.planets :: e in data && e.kepid == g.starId
  {
    var groups := GroupExoplanetsByStar(data);
    Grouping.GroupingOneGroupPerStar(data);
    Grouping.GroupingPlacesEveryRecord(data);
    Grouping.GroupSizesBounded(data);
    groups[SelectIndex(draw, |groups|)]
  }

  /** The body the `map` callback builds for record `e` at position `index`. */
  function MakePlanet(e: ExoplanetRecord, index: nat, draw: real, star: StarBody, id: Id, m: HostMath): Planet
  {
    var angle := draw * TwoPi;
    var distance := FirstOrbit + index as real * OrbitGap;
    Planet(
      id,
      PlanetRadius(e.prad),
      TextureForPlanet(e.teq),
      PlanetData(e.kepoiName, e.period, e.prad, e.teq, e.kepmag, e.insol, e.ra, e.dec, e.koiName, angle, distance),
      Vec3(star.position.x + m.cos(angle) * distance, star.position.y + m.sin(angle) * distance, 0.0))
  }

  /** The `map` over the chosen group's records, starting at position `index`: build each planet and add it. */
  function BuildPlanets(s: Scene, records: seq<ExoplanetRecord>, index: nat, rand: nat -> real, star: StarBody, m: HostMath)
    : (r: (Scene, seq<Planet>))
    ensures |r.1| == |records|
    ensures r.0.nextId == s.nextId + |records| && |r.0.log| == |s.log| + |records|
    decreases |records|
  {
    if records == [] then (s, [])
    else
      var (s1, id) := NewMesh(s);
      var p := MakePlanet(records[0], index, rand(1 + index), star, id, m);
      var (s2, rest) := BuildPlanets(Add(s1, id), records[1..], index + 1, rand, star, m);
      (s2, [p] + rest)
  }

  /** Construct the star at the origin and add it, then build and add one planet per record, and install the result. */
  function BuildSystem(v: Viewer, records: seq<ExoplanetRecord>, rand: nat -> real, m: HostMath): (r: Viewer)
    ensures r.current.Some? && r.current.value.starMesh == StarBody(v.scene.nextId, Origin)
    ensures |r.current.value.planets| == |records|
    ensures r.scene.nextId == v.scene.nextId + 1 + |records|
    ensures r.info == ClickPrompt && r.rotationEnabled == v.rotationEnabled && r.sceneRotationY == v.sceneRotationY
  {
    var (s1, starId) := NewMesh(v.scene);
    var star := StarBody(starId, Origin);
    var (s2, planets) := BuildPlanets(Add(s1, starId), records, 0, rand, star, m);
    v.(scene := s2, current := Some(StarSystem(star, planets)), info := ClickPrompt)
  }

  /** `generateRandomStarSystem`: tear down the previous system, choose a group, build it. */
  function GenerateRandomStarSystem(v: Viewer, data: seq<ExoplanetRecord>, rand: nat -> real, m: HostMath): (r: Viewer)
    requires data != []
    requires 0.0 <= rand(0) < 1.0
    ensures r.current.Some? && r.current.value.starMesh.id == v.scene.nextId
    ensures r.info == ClickPrompt && r.rotationEnabled == v.rotationEnabled && r.sceneRotationY == v.sceneRotationY
  {
    var released := v.(scene := Release(v.scene, v.current));
    BuildSystem(released, ChosenGroup(data, rand(0)).planets, rand, m)
  }

  // ---------------------------------------------------------------------------
  // Frame update, rotation toggle, picking
  // ---------------------------------------------------------------------------

  /** One planet's orbit update: advance the angle, then place it on its circle in the star's x-z plane. */
  function Orbit(p: Planet, star: StarBody, m: HostMath): (r: Planet)
    ensures r.userData.angle == p.userData.angle + OrbitStep
    ensures r == p.(userData := r.userData, position := r.position)
    ensures r.userData == p.userData.(angle := r.userData.angle)
    ensures r.position.y == 0.0
  {
    var angle := p.userData.angle + OrbitStep;
    var d := p.userData.distance;
    p.(userData := p.userData.(angle := angle),
       position := Vec3(star.position.x + m.cos(angle) * d, 0.0, star.position.z + m.sin(angle) * d))
  }

  function OrbitAll(ps: seq<Planet>, star: StarBody, m: HostMath): (r: seq<Planet>)
    ensures |r| == |ps|
    ensures forall i | 0 <= i < |ps| :: r[i] == Orbit(ps[i], star, m)
  {
    seq(|ps|, i requires 0 <= i < |ps| => Orbit(ps[i], star, m))
  }

  /** The state part of `animate` (the render call is left out). */
  function Animate(v: Viewer, m: HostMath): (r: Viewer)
    ensures r == v.(sceneRotationY := r.sceneRotationY, current := r.current)
    ensures r.sceneRotationY == v.sceneRotationY + (if v.rotationEnabled then RotationStep else 0.0)
    ensures r.current.Some? <==> v.current.Some?
    ensures v.current.Some? ==>
      && r.current.value.starMesh == v.current.value.starMesh
      && |r.current.value.planets| == |v.current.value.planets|
  {
    var rotation := if v.rotationEnabled then v.sceneRotationY + RotationStep else v.sceneRotationY;
    var current :=
      match v.current
      case None => None
      case Some(sys) => Some(sys.(planets := OrbitAll(sys.planets, sys.starMesh, m)));
    v.(sceneRotationY := rotation, current := current)
  }

  /** The rotation button's handler. */
  function ToggleRotation(v: Viewer): (r: Viewer)
    ensures r.rotationEnabled != v.rotationEnabled
    ensures r.(rotationEnabled := v.rotationEnabled) == v
  {
    v.(rotationEnabled := !v.rotationEnabled)
  }

  /** The objects the click handler offers to the ray caster. */
  function PickCandidates(v: Viewer): (ps: seq<Planet>)
    ensures v.current.None? ==> ps == []
    ensures v.current.Some? ==> ps == v.current.value.planets
  {
    match v.current
    case None => []
    case Some(sys) => sys.planets
  }

  /**
   The click handler, given the ray caster's hits (nearest first, each one of
   the candidates): show the nearest hit's data, or do nothing on a miss.
   */
  function Click(v: Viewer, hits: seq<Planet>): (r: Viewer)
    requires forall h | h in hits :: h in PickCandidates(v)
    ensures hits == [] ==> r == v
    ensures hits != [] ==> r == v.(info := PlanetCard(hits[0].userData))
    ensures r.info != v.info ==> v.current.Some? && exists p | p in v.current.value.planets :: r.info == PlanetCard(p.userData)
  {
    if |hits| > 0 then
      assert hits[0] in PickCandidates(v);
      v.(info := PlanetCard(hits[0].userData))
    else v
  }
}
