/**
 The star-field navigator of exoplanets-exploration/main.js: one hundred
 random stars with their glows, a camera that flies to a clicked star and back
 out on Escape, five decorative planets generated around the star it reaches,
 planet picking, and the gating of scene rotation and background parallax on
 whether the view is focused.

 Each camera transition adds 0.02 to its progress per animation frame and
 finishes on the frame where progress reaches 1. Progress is modelled as the
 integer frame count `k` with progress `k / 50`; the first frame runs inside
 the handler that starts the transition, and the host then calls `Frame` once
 per animation frame while `next` is present. `Math.random()` is a stream
 `rand` supplied by the host; trigonometry and square roots come in a
 `HostMath` value.
 */
module Navigation {
  import opened Wrappers
  import opened Geometry
  import opened SceneGraph

  const StarCount: nat := 100
  const PlanetsPerStar: nat := 5
  /** Side of the cube the stars are scattered in, centred on the origin. */
  const FieldSize: real := 200.0
  const SafeDistance: real := 5.0
  /** Frames per transition: progress grows by 0.02, so it reaches 1 on frame 50. */
  const TransitionFrames: nat := 50
  const InitialCamera: Vec3 := Vec3(0.0, 0.0, 50.0)
  const RotationStep: real := 0.001
  const ParallaxFactor: real := 0.05

  /** A decorative planet: its mesh, its `userData` and its position. */
  datatype NavPlanet = NavPlanet(id: Id, name: string, info: string, position: Vec3)

  /** A star mesh; `planets` is `userData.planets`, absent until the star is first reached. */
  datatype Star = Star(id: Id, position: Vec3, planets: Option<seq<NavPlanet>>)

  /** The glow sprite drawn at a star. */
  datatype Glow = Glow(id: Id, position: Vec3)

  /** The text of the info element: the page's own until something is written. */
  datatype InfoText = PageText | PlanetsPrompt | PlanetDetails(name: string, info: string)

  /** Everything the handlers and transitions read or write. */
  datatype Nav = Nav(
    scene: Scene,
    universe: Id,
    stars: seq<Star>,
    glows: seq<Glow>,
    camera: Vec3,
    aim: Option<Vec3>,
    controlsEnabled: bool,
    controlsTarget: Vec3,
    focused: bool,
    rotationEnabled: bool,
    sceneRotationY: real,
    universeRotationX: real,
    universeRotationY: real,
    info: InfoText)

  /**
   A running transition: the pose it started from, where it ends, and how many
   frames it has run. `Approach` flies to star number `star`; `Retreat` flies
   back to the initial camera position.
   */
  datatype CameraLoop =
    | Approach(from: Vec3, to: Vec3, star: nat, frames: nat)
    | Retreat(from: Vec3, frames: nat)

  /** The state after a handler or frame, and the transition still running, if any. */
  datatype Tick = Tick(nav: Nav, next: Option<CameraLoop>)

  // ---------------------------------------------------------------------------
  // Identities of scene objects and the consistency of the scene
  // ---------------------------------------------------------------------------

  /** `star.userData.planets || []`. */
  function PlanetsOf(star: Star): (ps: seq<NavPlanet>)
    ensures star.planets.None? ==> ps == []
    ensures star.planets.Some? ==> ps == star.planets.value
  {
    star.planets.GetOr([])
  }

  function Ids(ps: seq<NavPlanet>): set<Id>
  {
    set p | p in ps :: p.id
  }

  function StarIds(stars: seq<Star>): set<Id>
  {
    set i | 0 <= i < |stars| :: stars[i].id
  }

  function GlowIds(glows: seq<Glow>): set<Id>
  {
    set i | 0 <= i < |glows| :: glows[i].id
  }

  /** The ids of every planet any star holds. */
  function PlanetIdsOf(stars: seq<Star>): set<Id>
  {
    set i, p | 0 <= i < |stars| && p in PlanetsOf(stars[i]) :: p.id
  }

  /** The objects that stay in the scene for the whole session. */
  function FixedIds(nav: Nav): set<Id>
  {
    {nav.universe} + StarIds(nav.stars) + GlowIds(nav.glows)
  }

  /**
   The scene holds exactly the background, the stars, the glows and the
   planets the stars hold; no planet shares an id with a fixed object or with
   another star's planet; and the orbit controls are on exactly while the view
   is focused.
   */
  predicate Consistent(nav: Nav)
  {
    && MembersAllocated(nav.scene)
    && nav.scene.members == FixedIds(nav) + PlanetIdsOf(nav.stars)
    && FixedIds(nav) !! PlanetIdsOf(nav.stars)
    && (forall i, j | 0 <= i < |nav.stars| && 0 <= j < |nav.stars| && i != j ::
          Ids(PlanetsOf(nav.stars[i])) !! Ids(PlanetsOf(nav.stars[j])))
    && nav.controlsEnabled == nav.focused
  }

  // ---------------------------------------------------------------------------
  // Initialisation
  // ---------------------------------------------------------------------------

  /** `(Math.random() - 0.5) * 200`: a draw in [0, 1) lands in [-100, 100). */
  function FieldCoordinate(r: real): (c: real)
    ensures 0.0 <= r < 1.0 ==> -FieldSize / 2.0 <= c < FieldSize / 2.0
    ensures c < 0.0 <==> r < 0.5
  {
    (r - 0.5) * FieldSize
  }

  /** Inside the cube [-100, 100) on every axis. */
  predicate InField(p: Vec3)
  {
    && -FieldSize / 2.0 <= p.x < FieldSize / 2.0
    && -FieldSize / 2.0 <= p.y < FieldSize / 2.0
    && -FieldSize / 2.0 <= p.z < FieldSize / 2.0
  }

  /** The position of star `i`: three consecutive draws, x then y then z. */
  function StarPosition(rand: nat -> real, i: nat): Vec3
  {
    Vec3(FieldCoordinate(rand(3 * i)), FieldCoordinate(rand(3 * i + 1)), FieldCoordinate(rand(3 * i + 2)))
  }

  /**
   `init`: the camera at (0, 0, 50), controls off, then the background sphere
   and, one hundred times, a star at a random position followed by a glow at
   the same position, each added to the scene as it is made.
   */
  method Init(rand: nat -> real) returns (nav: Nav)
    ensures |nav.stars| == StarCount && |nav.glows| == StarCount
    ensures forall i | 0 <= i < StarCount :: nav.stars[i] == Star(1 + 2 * i, StarPosition(rand, i), None)
    ensures forall i | 0 <= i < StarCount :: nav.glows[i] == Glow(2 + 2 * i, nav.stars[i].position)
    ensures (forall j | 0 <= j < 3 * StarCount :: 0.0 <= rand(j) < 1.0) ==>
      forall i | 0 <= i < StarCount :: InField(nav.stars[i].position)
    ensures nav.universe == 0
    ensures nav.camera == InitialCamera && nav.aim.None?
    ensures !nav.focused && !nav.controlsEnabled && !nav.rotationEnabled
    ensures nav.info == PageText
    ensures Consistent(nav)
  {
    var (s0, universe) := NewMesh(EmptyScene);
    var scene, stars, glows := PlaceStars(rand, Add(s0, universe), universe, StarCount);
    nav := Nav(scene, universe, stars, glows, InitialCamera, None, false, Origin, false, false, 0.0, 0.0, 0.0, PageText);
    NoPlanetsConsistent(nav);
    PositionsInField(rand, StarCount);
  }

  /**
   The loop of `init`: starting from a scene holding only the background
   sphere, `count` times make a star at the next draws and add it, then make
   its glow and add that.
   */
  method PlaceStars(rand: nat -> real, start: Scene, universe: Id, count: nat) returns (scene: Scene, stars: seq<Star>, glows: seq<Glow>)
    requires universe == 0 && start.members == {universe} && start.nextId == 1
    ensures |stars| == count && |glows| == count
    ensures forall j | 0 <= j < count :: stars[j] == Star(1 + 2 * j, StarPosition(rand, j), None)
    ensures forall j | 0 <= j < count :: glows[j] == Glow(2 + 2 * j, stars[j].position)
    ensures scene.members == {universe} + StarIds(stars) + GlowIds(glows)
    ensures MembersAllocated(scene) && scene.nextId == 1 + 2 * count
  {
    scene := start;
    stars := [];
    glows := [];
    var i := 0;
    while i < count
      invariant 0 <= i <= count
      invariant stars == FieldStars(rand, i)
      invariant glows == GlowsOf(stars)
      invariant scene.nextId == 1 + 2 * i
      invariant scene.members == {universe} + StarIds(stars) + GlowIds(glows)
      invariant MembersAllocated(scene)
    {
      var (s1, starId) := NewMesh(scene);
      assert starId == 1 + 2 * i;
      var star := Star(starId, StarPosition(rand, i), None);
      var s2 := Add(s1, starId);
      var (s3, glowId) := NewMesh(s2);
      var glow := Glow(glowId, star.position);
      var s4 := Add(s3, glowId);
      AddStarAndGlow(scene, universe, stars, glows, star, glow, s4);
      scene := s4;
      FieldStarsNext(rand, i);
      GlowsOfAppend(stars, star);
      stars := stars + [star];
      glows := glows + [glow];
      i := i + 1;
    }
    FieldStarsAt(rand, count);
    GlowsOfAt(stars);
  }

  /** The first `n` stars `init` makes, on ids 1, 3, 5, … and at positions drawn in turn. */
  function FieldStars(rand: nat -> real, n: nat): (stars: seq<Star>)
    ensures |stars| == n
  {
    if n == 0 then [] else FieldStars(rand, n - 1) + [Star(2 * n - 1, StarPosition(rand, n - 1), None)]
  }

  /** One glow per star, on the id after the star's and at the star's position. */
  function GlowsOf(stars: seq<Star>): (glows: seq<Glow>)
    ensures |glows| == |stars|
  {
    if stars == [] then []
    else GlowsOf(stars[..|stars| - 1]) + [Glow(stars[|stars| - 1].id + 1, stars[|stars| - 1].position)]
  }

  /** Star `n` follows the first `n` stars. */
  lemma FieldStarsNext(rand: nat -> real, n: nat)
    ensures FieldStars(rand, n + 1) == FieldStars(rand, n) + [Star(1 + 2 * n, StarPosition(rand, n), None)]
  {
  }

  /** Star `j` of the field has id `1 + 2j` and the position of draws `3j` to `3j + 2`. */
  lemma {:induction false} FieldStarsAt(rand: nat -> real, n: nat)
    ensures forall j | 0 <= j < n :: FieldStars(rand, n)[j] == Star(1 + 2 * j, StarPosition(rand, j), None)
  {
    if n > 0 {
      FieldStarsAt(rand, n - 1);
      var prefix := FieldStars(rand, n - 1);
      assert FieldStars(rand, n) == prefix + [Star(2 * n - 1, StarPosition(rand, n - 1), None)];
      forall j | 0 <= j < n
        ensures FieldStars(rand, n)[j] == Star(1 + 2 * j, StarPosition(rand, j), None)
      {
        if j < n - 1 {
          assert FieldStars(rand, n)[j] == prefix[j];
        }
      }
    }
  }

  /** Glow `j` sits on the id after star `j`'s and at its position. */
  lemma {:induction false} GlowsOfAt(stars: seq<Star>)
    ensures forall j | 0 <= j < |stars| :: GlowsOf(stars)[j] == Glow(stars[j].id + 1, stars[j].position)
  {
    if stars != [] {
      var prefix := stars[..|stars| - 1];
      GlowsOfAt(prefix);
      forall j | 0 <= j < |stars|
        ensures GlowsOf(stars)[j] == Glow(stars[j].id + 1, stars[j].position)
      {
        if j < |stars| - 1 {
          assert GlowsOf(stars)[j] == GlowsOf(prefix)[j];
          assert prefix[j] == stars[j];
        }
      }
    }
  }

  /** When the first `3n` draws lie in [0, 1), the first `n` star positions lie in the field. */
  lemma PositionsInField(rand: nat -> real, n: nat)
    ensures (forall j | 0 <= j < 3 * n :: 0.0 <= rand(j) < 1.0) ==>
      forall i | 0 <= i < n :: InField(StarPosition(rand, i))
  {
    if forall j | 0 <= j < 3 * n :: 0.0 <= rand(j) < 1.0 {
      forall i | 0 <= i < n
        ensures InField(StarPosition(rand, i))
      {
        StarInField(rand, i);
      }
    }
  }

  /** A new star adds exactly its own glow at the end. */
  lemma GlowsOfAppend(stars: seq<Star>, star: Star)
    ensures GlowsOf(stars + [star]) == GlowsOf(stars) + [Glow(star.id + 1, star.position)]
  {
    assert (stars + [star])[..|stars|] == stars;
  }

  /** A star whose three draws lie in [0, 1) lies in the field. */
  lemma StarInField(rand: nat -> real, i: nat)
    requires 0.0 <= rand(3 * i) < 1.0 && 0.0 <= rand(3 * i + 1) < 1.0 && 0.0 <= rand(3 * i + 2) < 1.0
    ensures InField(StarPosition(rand, i))
  {
  }

  /** Adding a star and its glow under the next two ids keeps the scene holding exactly the fixed objects. */
  lemma AddStarAndGlow(scene: Scene, universe: Id, stars: seq<Star>, glows: seq<Glow>, star: Star, glow: Glow, after: Scene)
    requires MembersAllocated(scene) && scene.members == {universe} + StarIds(stars) + GlowIds(glows)
    requires star.id == scene.nextId && glow.id == scene.nextId + 1
    requires after.members == scene.members + {star.id} + {glow.id} && after.nextId == scene.nextId + 2
    ensures MembersAllocated(after)
    ensures after.members == {universe} + StarIds(stars + [star]) + GlowIds(glows + [glow])
  {
    StarIdsAppend(stars, star);
    GlowIdsAppend(glows, glow);
  }

  /** Before any star is reached, the scene holds only the fixed objects. */
  lemma NoPlanetsConsistent(nav: Nav)
    requires forall i | 0 <= i < |nav.stars| :: nav.stars[i].planets.None?
    requires MembersAllocated(nav.scene) && nav.scene.members == FixedIds(nav)
    requires nav.controlsEnabled == nav.focused
    ensures Consistent(nav)
  {
    assert PlanetIdsOf(nav.stars) == {};
  }

  lemma StarIdsAppend(stars: seq<Star>, star: Star)
    ensures StarIds(stars + [star]) == StarIds(stars) + {star.id}
  {
    var all := stars + [star];
    assert all[|stars|] == star;
    assert forall i | 0 <= i < |stars| :: all[i] == stars[i];
  }

  lemma GlowIdsAppend(glows: seq<Glow>, glow: Glow)
    ensures GlowIds(glows + [glow]) == GlowIds(glows) + {glow.id}
  {
    var all := glows + [glow];
    assert all[|glows|] == glow;
    assert forall i | 0 <= i < |glows| :: all[i] == glows[i];
  }

  // ---------------------------------------------------------------------------
  // Planets around the reached star
  // ---------------------------------------------------------------------------

  /** The decimal digit `n`. */
  function Digit(n: nat): (c: char)
    requires n <= 9
    ensures '0' <= c <= '9'
  {
    (48 + n) as char
  }

  /** The decimal numeral of `n`, as a template literal's `${n}` writes it. */
  function Decimal(n: nat): string
    decreases n
  {
    if n < 10 then [Digit(n)] else Decimal(n / 10) + [Digit(n % 10)]
  }

  /** `Planeta ${i + 1}`. */
  function PlanetName(i: nat): string
  {
    "Planeta " + Decimal(i + 1)
  }

  /** `Este é o planeta ${i + 1}.`. */
  function PlanetInfo(i: nat): string
  {
    "Este é o planeta " + Decimal(i + 1) + "."
  }

  /**
   Planet `i` of a star at `centre`: orbit radius `5 + rand(2i) * 5` at angle
   `i` (radians) in the x-y plane, and z offset `rand(2i + 1) * 5 - 2`.
   */
  function MakeNavPlanet(i: nat, centre: Vec3, rand: nat -> real, id: Id, m: HostMath): NavPlanet
  {
    var distance := 5.0 + rand(2 * i) * 5.0;
    var angle := i as real;
    NavPlanet(
      id,
      PlanetName(i),
      PlanetInfo(i),
      Vec3(centre.x + distance * m.cos(angle), centre.y + distance * m.sin(angle), centre.z + rand(2 * i + 1) * 5.0 - 2.0))
  }

  /** The body of the creation loop for a star at `centre`: planet `i` on mesh `id`. */
  function OrbitingPlanet(centre: Vec3, rand: nat -> real, m: HostMath): (make: (nat, Id) -> NavPlanet)
    ensures KeepsIds(make)
  {
    (i: nat, id: Id) => MakeNavPlanet(i, centre, rand, id, m)
  }

  /** A planet constructor that builds each planet on the mesh id it is given. */
  ghost predicate KeepsIds(make: (nat, Id) -> NavPlanet)
  {
    forall i: nat, id: Id :: make(i, id).id == id
  }

  /** `scene.remove` on each of the star's previous planets; nothing is disposed. */
  function RemoveAll(s: Scene, ps: seq<NavPlanet>): (r: Scene)
    ensures r.members <= s.members
    ensures r.nextId == s.nextId && |r.log| == |s.log| + |ps|
    decreases |ps|
  {
    if ps == [] then s else RemoveAll(Remove(s, ps[0].id), ps[1..])
  }

  /**
   The loop creating planets `i` to 4: get a fresh mesh, build planet `i` on
   it with `make`, add it to the scene, push it.
   */
  function CreatePlanets(s: Scene, i: nat, make: (nat, Id) -> NavPlanet): (Scene, seq<NavPlanet>)
    requires i <= PlanetsPerStar
    decreases PlanetsPerStar - i
  {
    if i == PlanetsPerStar then (s, [])
    else
      var (s1, id) := NewMesh(s);
      var p := make(i, id);
      var (s2, rest) := CreatePlanets(Add(s1, id), i + 1, make);
      (s2, [p] + rest)
  }

  /** `displayPlanets(star)`: prompt, drop the star's previous planets from the scene, create five new ones. */
  function DisplayPlanets(nav: Nav, s: nat, rand: nat -> real, m: HostMath): (r: Nav)
    requires s < |nav.stars|
    ensures r == nav.(scene := r.scene, stars := r.stars, info := PlanetsPrompt)
    ensures |r.stars| == |nav.stars| && r.stars[s].planets.Some? && |PlanetsOf(r.stars[s])| == PlanetsPerStar
    ensures r.scene.nextId == nav.scene.nextId + PlanetsPerStar
  {
    var star := nav.stars[s];
    var (scene, planets) := CreatePlanets(RemoveAll(nav.scene, PlanetsOf(star)), 0, OrbitingPlanet(star.position, rand, m));
    nav.(scene := scene, stars := nav.stars[s := star.(planets := Some(planets))], info := PlanetsPrompt)
  }

  // ---------------------------------------------------------------------------
  // Camera transitions
  // ---------------------------------------------------------------------------

  /** The transition has not finished yet, and its star exists. */
  predicate LoopFits(nav: Nav, loop: CameraLoop)
  {
    && loop.frames < TransitionFrames
    && (loop.Approach? ==> loop.star < |nav.stars|)
  }

  /** `progress` after `k` frames. */
  function Progress(k: nat): real
  {
    k as real / TransitionFrames as real
  }

  /**
   `finalPosition` of `moveToStar`: the star's position plus `safeDistance`
   times the normalised star-to-camera direction, fixed when the transition starts.
   */
  function EndPose(camera: Vec3, target: Vec3, m: HostMath): Vec3
  {
    Plus(target, Scale(Normalize(Minus(camera, target), m), SafeDistance))
  }

  /** The per-frame part shared by both transitions: one more frame, the camera lerped and pointed. */
  function Advance(nav: Nav, loop: CameraLoop): (r: (Nav, CameraLoop))
    requires loop.Approach? ==> loop.star < |nav.stars|
    ensures r.1 == loop.(frames := loop.frames + 1)
    ensures r.0 == nav.(camera := r.0.camera, aim := r.0.aim)
  {
    var k := loop.frames + 1;
    match loop
    case Approach(from, to, s, _) =>
      (nav.(camera := Lerp(from, to, Progress(k)), aim := Some(nav.stars[s].position)), Approach(from, to, s, k))
    case Retreat(from, _) =>
      (nav.(camera := Lerp(from, InitialCamera, Progress(k)), aim := Some(Origin)), Retreat(from, k))
  }

  /**
   What the `else` branch does once progress reaches 1: for an approach,
   controls on and aimed at the star, view focused, planets displayed; for a
   retreat, controls off and view unfocused.
   */
  function Settle(nav: Nav, loop: CameraLoop, rand: nat -> real, m: HostMath): (r: Nav)
    requires loop.Approach? ==> loop.star < |nav.stars|
    ensures r.camera == nav.camera && r.aim == nav.aim && |r.stars| == |nav.stars|
    ensures loop.Approach? ==>
      && r.controlsEnabled && r.focused && r.controlsTarget == nav.stars[loop.star].position
      && |PlanetsOf(r.stars[loop.star])| == PlanetsPerStar
    ensures loop.Retreat? ==> !r.controlsEnabled && !r.focused && r.stars == nav.stars && r.scene == nav.scene
  {
    match loop
    case Approach(_, _, s, _) =>
      DisplayPlanets(nav.(controlsEnabled := true, controlsTarget := nav.stars[s].position, focused := true), s, rand, m)
    case Retreat(_, _) =>
      nav.(controlsEnabled := false, focused := false)
  }

  /** One animation frame of a running transition (`animateCamera` or `animateExit`). */
  function Frame(nav: Nav, loop: CameraLoop, rand: nat -> real, m: HostMath): (r: Tick)
    requires LoopFits(nav, loop)
    ensures |r.nav.stars| == |nav.stars|
    ensures r.next.Some? <==> loop.frames + 1 < TransitionFrames
    ensures r.next.Some? ==> r.next == Some(loop.(frames := loop.frames + 1)) && LoopFits(r.nav, r.next.value)
    ensures r.next.Some? ==> r.nav == nav.(camera := r.nav.camera, aim := r.nav.aim)
    ensures r.next.None? && loop.Retreat? ==>
      r.nav == nav.(camera := InitialCamera, aim := Some(Origin), controlsEnabled := false, focused := false)
  {
    var (n1, l1) := Advance(nav, loop);
    if l1.frames < TransitionFrames then Tick(n1, Some(l1)) else Tick(Settle(n1, l1, rand, m), None)
  }

  /**
   The host's `requestAnimationFrame` loop: up to `n` more frames of the
   running transition, stopping when it finishes.
   */
  function RunFrames(t: Tick, n: nat, rand: nat -> real, m: HostMath): (r: Tick)
    requires t.next.Some? ==> LoopFits(t.nav, t.next.value)
    ensures r.next.Some? ==> LoopFits(r.nav, r.next.value)
    ensures |r.nav.stars| == |t.nav.stars|
    decreases n
  {
    if n == 0 || t.next.None? then t else RunFrames(Frame(t.nav, t.next.value, rand, m), n - 1, rand, m)
  }

  /** `moveToStar`: fix the end pose, run the first frame, leave the rest to the frame loop. */
  function MoveToStar(nav: Nav, s: nat, m: HostMath): (r: Tick)
    requires s < |nav.stars|
    ensures r.next == Some(Approach(nav.camera, EndPose(nav.camera, nav.stars[s].position, m), s, 1))
    ensures r.nav == nav.(camera := Lerp(nav.camera, EndPose(nav.camera, nav.stars[s].position, m), Progress(1)),
                          aim := Some(nav.stars[s].position))
  {
    var final := EndPose(nav.camera, nav.stars[s].position, m);
    var (n1, l1) := Advance(nav, Approach(nav.camera, final, s, 0));
    Tick(n1, Some(l1))
  }

  /** `exitZoom`: run the first frame of the flight back to the initial camera position. */
  function ExitZoom(nav: Nav): (r: Tick)
    ensures r.next == Some(Retreat(nav.camera, 1))
    ensures r.nav == nav.(camera := Lerp(nav.camera, InitialCamera, Progress(1)), aim := Some(Origin))
  {
    var (n1, l1) := Advance(nav, Retreat(nav.camera, 0));
    Tick(n1, Some(l1))
  }

  // ---------------------------------------------------------------------------
  // Event handlers and the render loop
  // ---------------------------------------------------------------------------

  /**
   The window click handler for stars, given the ray caster's hits among the
   stars (indices, nearest first): fly to the nearest one. There is no check
   of the focus flag or of a transition already running.
   */
  function StarClick(nav: Nav, hits: seq<nat>, m: HostMath): (r: Tick)
    requires forall h | h in hits :: h < |nav.stars|
    ensures hits == [] ==> r == Tick(nav, None)
    ensures hits != [] ==> r.next.Some? && r.next.value.Approach? && r.next.value.star == hits[0]
    ensures hits != [] ==> r.next.value.from == nav.camera && r.next.value.frames == 1
  {
    if hits == [] then Tick(nav, None)
    else
      assert hits[0] in hits;
      MoveToStar(nav, hits[0], m)
  }

  /** The keydown handler: Escape starts the flight back, whatever the state; other keys do nothing. */
  function KeyDown(nav: Nav, key: string): (r: Tick)
    ensures key != "Escape" ==> r == Tick(nav, None)
    ensures key == "Escape" ==> r.next == Some(Retreat(nav.camera, 1))
  {
    if key == "Escape" then ExitZoom(nav) else Tick(nav, None)
  }

  /** `stars.flatMap(star => star.userData.planets || [])`: the planets `onPlanetClick` offers to the ray caster. */
  function PlanetCandidates(stars: seq<Star>): (ps: seq<NavPlanet>)
    ensures forall p :: p in ps <==> exists i | 0 <= i < |stars| :: p in PlanetsOf(stars[i])
  {
    if stars == [] then []
    else
      var rest := PlanetCandidates(stars[1..]);
      assert forall i | 1 <= i < |stars| :: stars[i] == stars[1..][i - 1];
      PlanetsOf(stars[0]) + rest
  }

  /** `onPlanetClick`, given the hits among the candidates (nearest first): show the nearest planet's name and info. */
  function PlanetClick(nav: Nav, hits: seq<NavPlanet>): (r: Nav)
    requires forall h | h in hits :: h in PlanetCandidates(nav.stars)
    ensures hits == [] ==> r == nav
    ensures hits != [] ==> r == nav.(info := PlanetDetails(hits[0].name, hits[0].info))
  {
    if hits == [] then nav else nav.(info := PlanetDetails(hits[0].name, hits[0].info))
  }

  /** Window pixels to normalised device coordinates along one axis. */
  function DeviceX(clientX: real, width: real): (x: real)
    requires width > 0.0
    ensures 0.0 <= clientX <= width ==> -1.0 <= x <= 1.0
  {
    clientX / width * 2.0 - 1.0
  }

  /** The y axis points up in device coordinates and down in the window. */
  function DeviceY(clientY: real, height: real): (y: real)
    requires height > 0.0
    ensures 0.0 <= clientY <= height ==> -1.0 <= y <= 1.0
  {
    -(clientY / height) * 2.0 + 1.0
  }

  /** The mousemove handler: tilt the background with the pointer, but only while not focused. */
  function MouseMove(nav: Nav, clientX: real, clientY: real, width: real, height: real): (r: Nav)
    requires width > 0.0 && height > 0.0
    ensures nav.focused ==> r == nav
    ensures !nav.focused ==> r == nav.(universeRotationX := r.universeRotationX, universeRotationY := r.universeRotationY)
    ensures !nav.focused && 0.0 <= clientX <= width && 0.0 <= clientY <= height ==>
      -ParallaxFactor <= r.universeRotationY <= ParallaxFactor && -ParallaxFactor <= r.universeRotationX <= ParallaxFactor
  {
    if nav.focused then nav
    else
      nav.(universeRotationY := DeviceX(clientX, width) * ParallaxFactor,
           universeRotationX := DeviceY(clientY, height) * ParallaxFactor)
  }

  /** The state part of `animate`: rotate the scene only while rotation is on and the view is not focused. */
  function AnimateFrame(nav: Nav): (r: Nav)
    ensures r.sceneRotationY != nav.sceneRotationY <==> nav.rotationEnabled && !nav.focused
    ensures r.sceneRotationY >= nav.sceneRotationY
    ensures r == nav.(sceneRotationY := r.sceneRotationY)
  {
    if nav.rotationEnabled && !nav.focused then nav.(sceneRotationY := nav.sceneRotationY + RotationStep) else nav
  }

  /** The rotation button's handler. */
  function ToggleRotation(nav: Nav): (r: Nav)
    ensures r.rotationEnabled != nav.rotationEnabled
    ensures r == nav.(rotationEnabled := r.rotationEnabled)
  {
    nav.(rotationEnabled := !nav.rotationEnabled)
  }
}
